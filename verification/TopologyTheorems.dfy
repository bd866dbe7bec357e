/** The flow diagram is readable: its nodes keep apart, inside the drawing, and its edges join them. */
module TopologyTheorems {
  import opened Topology

  /** No two entity types, and no two consumers, of the same name. */
  predicate Distinct(p: Pipeline) {
    && (forall i, j :: 0 <= i < j < |p.entities| ==> p.entities[i] != p.entities[j])
    && (forall i, j :: 0 <= i < j < |p.consumers| ==> p.consumers[i].name != p.consumers[j].name)
  }

  predicate Overlap(a: Box, b: Box) {
    a.x < b.x + b.w && b.x < a.x + a.w && a.y < b.y + b.h && b.y < a.y + a.h
  }

  // ---------------------------------------------------------------- geometry

  lemma {:induction false} GroupsFollow(n: nat, e: nat, f: nat)
    requires e < f
    ensures GroupTop(n, e) + n as real * (QUEUE_HEIGHT + QUEUE_GAP) + GROUP_GAP <= GroupTop(n, f)
    decreases f
  {
    if e + 1 < f {
      GroupsFollow(n, e, f - 1);
    }
  }

  lemma HeightHolds(p: Pipeline)
    requires p.entities != [] && p.consumers != []
    ensures Height(p) - TOP >= 64.0 * |p.consumers| as real && Height(p) - TOP >= 80.0
    ensures Height(p) >= GroupTop(|p.consumers|, |p.entities|) - GROUP_GAP
    ensures forall e :: 0 <= e < |p.entities| ==> GroupTop(|p.consumers|, e) >= TOP
  {
    GroupsFollow(|p.consumers|, 0, |p.entities|);
    forall e | 0 <= e < |p.entities| ensures GroupTop(|p.consumers|, e) >= TOP {
      if e > 0 {
        GroupsFollow(|p.consumers|, 0, e);
      }
    }
  }

  /** Nodes spread over the height are at least a `count`th of it apart, and half of that from its ends. */
  lemma SpreadApart(height: real, count: nat, i: nat, j: nat, step: real)
    requires i < j < count && step > 0.0 && height - TOP >= step * count as real
    ensures Spread(height, count, j) - Spread(height, count, i) >= step
  {
    var each := (height - TOP) / count as real;
    StepHolds(height, count, step);
    var times := j as real - i as real;
    AtLeastOnce(each, times);
    assert Spread(height, count, j) - Spread(height, count, i) == each * times;
  }

  lemma SpreadInside(height: real, count: nat, i: nat, step: real)
    requires i < count && step > 0.0 && height - TOP >= step * count as real
    ensures TOP + step / 2.0 <= Spread(height, count, i) <= height - step / 2.0
  {
    var each := (height - TOP) / count as real;
    StepHolds(height, count, step);
    assert each * count as real == height - TOP;
    assert Spread(height, count, i) - TOP == each * (i as real + 0.5);
    AtLeastOnce(each, (i as real + 0.5) * 2.0);
    AtLeastOnce(each, (count as real - i as real - 0.5) * 2.0);
    assert each * ((count as real - i as real - 0.5) * 2.0) == 2.0 * (each * count as real - each * (i as real + 0.5));
  }

  lemma StepHolds(height: real, count: nat, step: real)
    requires count > 0 && step > 0.0 && height - TOP >= step * count as real
    ensures (height - TOP) / count as real >= step
  {
    var n := count as real;
    var each := (height - TOP) / n;
    assert each * n == height - TOP;
    if each < step {
      assert each * n < step * n;
    }
  }

  lemma AtLeastOnce(each: real, times: real)
    requires each > 0.0 && times >= 1.0
    ensures each * times >= each
  {
    assert each * (times - 1.0) >= 0.0;
  }

  lemma QueuesApart(p: Pipeline, q: Place, r: Place)
    requires q.QueueAt? && r.QueueAt? && Within(p, q) && Within(p, r) && q != r
    ensures YOf(p, q).0 + QUEUE_HEIGHT <= YOf(p, r).0 || YOf(p, r).0 + QUEUE_HEIGHT <= YOf(p, q).0
  {
    if q.e < r.e {
      GroupsFollow(|p.consumers|, q.e, r.e);
    } else if r.e < q.e {
      GroupsFollow(|p.consumers|, r.e, q.e);
    }
  }

  lemma ExchangesApart(p: Pipeline, q: Place, r: Place)
    requires q.ExchangeAt? && r.ExchangeAt? && Within(p, q) && Within(p, r) && q != r && p.consumers != []
    ensures YOf(p, q).0 + 44.0 <= YOf(p, r).0 || YOf(p, r).0 + 44.0 <= YOf(p, q).0
  {
    if q.e < r.e {
      GroupsFollow(|p.consumers|, q.e, r.e);
    } else {
      GroupsFollow(|p.consumers|, r.e, q.e);
    }
  }

  lemma StoresSpread(p: Pipeline)
    requires p.entities != [] && p.consumers != []
    ensures Height(p) - TOP >= 64.0 * |Stores(p)| as real
  {
    HeightHolds(p);
  }

  /** No two nodes overlap. */
  lemma NodesApart(p: Pipeline, q: Place, r: Place)
    requires p.entities != [] && p.consumers != [] && Within(p, q) && Within(p, r) && q != r
    ensures !Overlap(NodeOf(p, q).box, NodeOf(p, r).box)
  {
    if q.QueueAt? && r.QueueAt? {
      QueuesApart(p, q, r);
    } else if q.ExchangeAt? && r.ExchangeAt? {
      ExchangesApart(p, q, r);
    } else if q.ConsumerAt? && r.ConsumerAt? {
      HeightHolds(p);
      SpreadApart(Height(p), |p.consumers|, if q.c < r.c then q.c else r.c, if q.c < r.c then r.c else q.c, 64.0);
    } else if q.StoreAt? && r.StoreAt? {
      StoresSpread(p);
      SpreadApart(Height(p), |Stores(p)|, if q.s < r.s then q.s else r.s, if q.s < r.s then r.s else q.s, 64.0);
    }
  }

  /** Every node lies inside the drawing, below the column headings. */
  lemma NodeInside(p: Pipeline, q: Place)
    requires p.entities != [] && p.consumers != [] && Within(p, q)
    ensures var b := NodeOf(p, q).box;
            0.0 <= b.x && b.x + b.w <= WIDTH && TOP <= b.y && b.y + b.h <= Height(p)
  {
    HeightHolds(p);
    match q
    case ProducerAt => SpreadInside(Height(p), 1, 0, 80.0);
    case ExchangeAt(e) => GroupsFollow(|p.consumers|, e, |p.entities|);
    case QueueAt(e, c) => GroupsFollow(|p.consumers|, e, |p.entities|);
    case ConsumerAt(c) => SpreadInside(Height(p), |p.consumers|, c, 64.0);
    case StoreAt(s) =>
      StoresSpread(p);
      SpreadInside(Height(p), |Stores(p)|, s, 64.0);
  }

  // ---------------------------------------------------------------- each place is drawn once

  function Once(b: bool): nat { if b then 1 else 0 }

  function Times(places: seq<Place>, q: Place): nat {
    if places == [] then 0 else Times(places[..|places| - 1], q) + Once(places[|places| - 1] == q)
  }

  lemma {:induction false} AddTo(a: seq<Place>, b: seq<Place>, q: Place)
    ensures Times(a + b, q) == Times(a, q) + Times(b, q)
  {
    if b == [] {
      assert a + b == a;
    } else {
      assert (a + b)[..|a + b| - 1] == a + b[..|b| - 1];
      AddTo(a, b[..|b| - 1], q);
    }
  }

  lemma {:induction false} TimesOf(places: seq<Place>, q: Place)
    ensures Times(places, q) > 0 <==> q in places
  {
    if places != [] {
      TimesOf(places[..|places| - 1], q);
      assert places == places[..|places| - 1] + [places[|places| - 1]];
    }
  }

  lemma {:induction false} RowHas(e: nat, n: nat, f: nat, c: nat)
    ensures Times(Row(e, n), QueueAt(f, c)) == Once(e == f && c < n)
  {
    if n > 0 {
      RowHas(e, n - 1, f, c);
    }
  }

  lemma {:induction false} RowCount(e: nat, n: nat)
    ensures |Row(e, n)| == n
  {
    if n > 0 {
      RowCount(e, n - 1);
    }
  }

  lemma {:induction false} QueuesCount(n: nat, entities: nat)
    ensures |QueuesOf(n, entities)| == entities * n
  {
    if entities > 0 {
      QueuesCount(n, entities - 1);
      RowCount(entities - 1, n);
    }
  }

  function QueueTimes(n: nat, entities: nat, e: nat, c: nat): nat {
    Times(QueuesOf(n, entities), QueueAt(e, c))
  }

  lemma QueueTimesAdd(n: nat, entities: nat, e: nat, c: nat)
    requires entities > 0
    ensures QueueTimes(n, entities, e, c) == QueueTimes(n, entities - 1, e, c) + Once(entities - 1 == e && c < n)
  {
    AddTo(QueuesOf(n, entities - 1), Row(entities - 1, n), QueueAt(e, c));
    RowHas(entities - 1, n, e, c);
  }

  lemma {:induction false} QueuesHave(n: nat, entities: nat, e: nat, c: nat)
    ensures QueueTimes(n, entities, e, c) == Once(e < entities && c < n)
  {
    if entities > 0 {
      QueuesHave(n, entities - 1, e, c);
      QueueTimesAdd(n, entities, e, c);
    }
  }

  /** The kinds of nodes, in the order of their columns. */
  function Kind(q: Place): nat {
    match q
    case ProducerAt => 0
    case ExchangeAt(_) => 1
    case QueueAt(_, _) => 2
    case ConsumerAt(_) => 3
    case StoreAt(_) => 4
  }

  ghost predicate OfKinds(places: seq<Place>, low: nat, high: nat) {
    forall k :: 0 <= k < |places| ==> low <= Kind(places[k]) <= high
  }

  lemma {:induction false} OtherKind(places: seq<Place>, low: nat, high: nat, q: Place)
    requires OfKinds(places, low, high) && !(low <= Kind(q) <= high)
    ensures Times(places, q) == 0
  {
    if places != [] {
      OtherKind(places[..|places| - 1], low, high, q);
    }
  }

  lemma {:induction false} RowKind(e: nat, n: nat)
    ensures OfKinds(Row(e, n), 2, 2)
  {
    if n > 0 {
      RowKind(e, n - 1);
    }
  }

  lemma {:induction false} GroupsKind(n: nat, entities: nat)
    ensures OfKinds(Groups(n, entities), 1, 2)
  {
    if entities > 0 {
      GroupsKind(n, entities - 1);
      RowKind(entities - 1, n);
    }
  }

  lemma {:induction false} ConsumersKind(n: nat)
    ensures OfKinds(Consumers(n), 3, 3)
  {
    if n > 0 {
      ConsumersKind(n - 1);
    }
  }

  lemma {:induction false} StoresKind(n: nat)
    ensures OfKinds(StorePlaces(n), 4, 4)
  {
    if n > 0 {
      StoresKind(n - 1);
    }
  }

  lemma TimesOne(p: Place, q: Place)
    ensures Times([p], q) == Once(p == q)
  {
    assert [p][..0] == [];
  }

  function GroupTimes(n: nat, entities: nat, q: Place): nat {
    Times(Groups(n, entities), q)
  }

  lemma GroupTimesAdd(n: nat, entities: nat, q: Place)
    requires entities > 0
    ensures GroupTimes(n, entities, q) ==
            GroupTimes(n, entities - 1, q) + Times(Row(entities - 1, n), q) + Once(ExchangeAt(entities - 1) == q)
  {
    AddTo(Groups(n, entities - 1), Row(entities - 1, n), q);
    AddTo(Groups(n, entities - 1) + Row(entities - 1, n), [ExchangeAt(entities - 1)], q);
    TimesOne(ExchangeAt(entities - 1), q);
  }

  lemma GroupQueueAdd(n: nat, entities: nat, e: nat, c: nat)
    requires entities > 0
    ensures GroupTimes(n, entities, QueueAt(e, c)) == GroupTimes(n, entities - 1, QueueAt(e, c))
            + Once(entities - 1 == e && c < n)
  {
    GroupTimesAdd(n, entities, QueueAt(e, c));
    RowHas(entities - 1, n, e, c);
  }

  lemma GroupExchangeAdd(n: nat, entities: nat, e: nat)
    requires entities > 0
    ensures GroupTimes(n, entities, ExchangeAt(e)) == GroupTimes(n, entities - 1, ExchangeAt(e))
            + Once(entities - 1 == e)
  {
    GroupTimesAdd(n, entities, ExchangeAt(e));
    RowKind(entities - 1, n);
    OtherKind(Row(entities - 1, n), 2, 2, ExchangeAt(e));
  }

  lemma {:induction false} GroupsHaveQueue(n: nat, entities: nat, e: nat, c: nat)
    ensures GroupTimes(n, entities, QueueAt(e, c)) == Once(e < entities && c < n)
  {
    if entities > 0 {
      GroupsHaveQueue(n, entities - 1, e, c);
      GroupQueueAdd(n, entities, e, c);
    }
  }

  lemma {:induction false} GroupsHaveExchange(n: nat, entities: nat, e: nat)
    ensures GroupTimes(n, entities, ExchangeAt(e)) == Once(e < entities)
  {
    if entities > 0 {
      GroupsHaveExchange(n, entities - 1, e);
      GroupExchangeAdd(n, entities, e);
    }
  }

  lemma {:induction false} ConsumersHave(n: nat, c: nat)
    ensures Times(Consumers(n), ConsumerAt(c)) == Once(c < n)
  {
    if n > 0 {
      ConsumersHave(n - 1, c);
    }
  }

  lemma {:induction false} StoresHave(n: nat, s: nat)
    ensures Times(StorePlaces(n), StoreAt(s)) == Once(s < n)
  {
    if n > 0 {
      StoresHave(n - 1, s);
    }
  }

  lemma PlacesAdd(p: Pipeline, q: Place)
    ensures Times(Places(p), q) == GroupTimes(|p.consumers|, |p.entities|, q) + Once(ProducerAt == q)
                                   + Times(Consumers(|p.consumers|), q) + Times(StorePlaces(|Stores(p)|), q)
    ensures !(1 <= Kind(q) <= 2) ==> GroupTimes(|p.consumers|, |p.entities|, q) == 0
    ensures Kind(q) != 3 ==> Times(Consumers(|p.consumers|), q) == 0
    ensures Kind(q) != 4 ==> Times(StorePlaces(|Stores(p)|), q) == 0
  {
    var groups, consumers, stores := Groups(|p.consumers|, |p.entities|), Consumers(|p.consumers|),
        StorePlaces(|Stores(p)|);
    AddTo(groups, [ProducerAt], q);
    AddTo(groups + [ProducerAt], consumers, q);
    AddTo(groups + [ProducerAt] + consumers, stores, q);
    TimesOne(ProducerAt, q);
    GroupsKind(|p.consumers|, |p.entities|);
    ConsumersKind(|p.consumers|);
    StoresKind(|Stores(p)|);
    if !(1 <= Kind(q) <= 2) {
      OtherKind(groups, 1, 2, q);
    }
    if Kind(q) != 3 {
      OtherKind(consumers, 3, 3, q);
    }
    if Kind(q) != 4 {
      OtherKind(stores, 4, 4, q);
    }
  }

  /** The drawing has one node for every place and no other. */
  lemma EachPlaceOnce(p: Pipeline, q: Place)
    ensures Times(Places(p), q) == Once(Within(p, q))
  {
    PlacesAdd(p, q);
    match q
    case ProducerAt =>
    case ExchangeAt(e) => GroupsHaveExchange(|p.consumers|, |p.entities|, e);
    case QueueAt(e, c) => GroupsHaveQueue(|p.consumers|, |p.entities|, e, c);
    case ConsumerAt(c) => ConsumersHave(|p.consumers|, c);
    case StoreAt(s) => StoresHave(|Stores(p)|, s);
  }

  lemma OnceApart(places: seq<Place>, i: nat, j: nat)
    requires i < j < |places| && Times(places, places[i]) <= 1
    ensures places[i] != places[j]
  {
    var before, after := places[..j], places[j..];
    assert places == before + after && before[i] == places[i] && after[0] == places[j];
    AddTo(before, after, places[i]);
    TimesOf(before, places[i]);
    TimesOf(after, places[i]);
  }

  /** So whatever is drawn, no two of its nodes overlap and all lie inside it. */
  lemma DrawingIsClear(p: Pipeline, nodes: seq<Node>)
    requires p.entities != [] && p.consumers != [] && Drawn(p, Places(p), nodes)
    ensures forall i, j :: 0 <= i < j < |nodes| ==> !Overlap(nodes[i].box, nodes[j].box)
    ensures forall i :: 0 <= i < |nodes| ==>
              var b := nodes[i].box; 0.0 <= b.x && b.x + b.w <= WIDTH && TOP <= b.y && b.y + b.h <= Height(p)
  {
    var places := Places(p);
    forall i, j | 0 <= i < j < |nodes| ensures !Overlap(nodes[i].box, nodes[j].box) {
      EachPlaceOnce(p, places[i]);
      OnceApart(places, i, j);
      NodesApart(p, places[i], places[j]);
    }
    forall i | 0 <= i < |nodes|
      ensures var b := nodes[i].box; 0.0 <= b.x && b.x + b.w <= WIDTH && TOP <= b.y && b.y + b.h <= Height(p)
    {
      NodeInside(p, places[i]);
    }
  }

  // ---------------------------------------------------------------- edges

  function EdgesOf(p: Pipeline): seq<Edge>
    requires AllQueues(p, QueuesOf(|p.consumers|, |p.entities|))
  {
    ProducerEdges(p, |p.entities|) + QueueEdges(p, QueuesOf(|p.consumers|, |p.entities|)) + StoreEdges(p, |p.consumers|)
  }

  lemma {:induction false} ProducerEdgesAre(p: Pipeline, n: nat)
    requires n <= |p.entities|
    ensures |ProducerEdges(p, n)| == n
    ensures forall i :: 0 <= i < n ==> ProducerEdges(p, n)[i] == Edge(KeyOf(p, ProducerAt), KeyOf(p, ExchangeAt(i)))
  {
    if n > 0 {
      ProducerEdgesAre(p, n - 1);
    }
  }

  lemma {:induction false} StoreEdgesAre(p: Pipeline, n: nat)
    requires n <= |p.consumers|
    ensures |StoreEdges(p, n)| == n
    ensures forall i :: 0 <= i < n ==>
            StoreEdges(p, n)[i] == Edge(KeyOf(p, ConsumerAt(i)), DatastoreKey(p.consumers[i].datastore))
  {
    if n > 0 {
      StoreEdgesAre(p, n - 1);
    }
  }

  lemma {:induction false} QueueEdgesAre(p: Pipeline, queues: seq<Place>)
    requires AllQueues(p, queues)
    ensures |QueueEdges(p, queues)| == 2 * |queues|
    ensures forall k :: 0 <= k < |queues| ==>
              && QueueEdges(p, queues)[2 * k] == Edge(KeyOf(p, ExchangeAt(queues[k].e)), KeyOf(p, queues[k]))
              && QueueEdges(p, queues)[2 * k + 1] == Edge(KeyOf(p, queues[k]), KeyOf(p, ConsumerAt(queues[k].c)))
  {
    if queues != [] {
      QueueEdgesAre(p, queues[..|queues| - 1]);
    }
  }

  /** `E` edges into the exchanges, two for each of the `E * C` queues, and `C` into the datastores. */
  lemma EdgeCount(p: Pipeline)
    ensures AllQueues(p, QueuesOf(|p.consumers|, |p.entities|))
    ensures |EdgesOf(p)| == |p.entities| + 2 * (|p.entities| * |p.consumers|) + |p.consumers|
  {
    QueuesAre(p, |p.entities|);
    ProducerEdgesAre(p, |p.entities|);
    QueueEdgesAre(p, QueuesOf(|p.consumers|, |p.entities|));
    QueuesCount(|p.consumers|, |p.entities|);
    StoreEdgesAre(p, |p.consumers|);
  }

  /** A key that one of the drawing's nodes has. */
  ghost predicate OnDrawing(p: Pipeline, key: Key) {
    exists q :: q in Places(p) && Within(p, q) && KeyOf(p, q) == key
  }

  lemma Drawable(p: Pipeline, q: Place)
    requires Within(p, q)
    ensures OnDrawing(p, KeyOf(p, q))
  {
    EachPlaceOnce(p, q);
    TimesOf(Places(p), q);
  }

  ghost predicate Joins(p: Pipeline, edge: Edge) {
    OnDrawing(p, edge.start) && OnDrawing(p, edge.end)
  }

  lemma PlacesJoin(p: Pipeline, q: Place, r: Place)
    requires Within(p, q) && Within(p, r)
    ensures Joins(p, Edge(KeyOf(p, q), KeyOf(p, r)))
  {
    Drawable(p, q);
    Drawable(p, r);
  }

  lemma ProducerEdgeJoins(p: Pipeline, e: nat)
    requires e < |ProducerEdges(p, |p.entities|)|
    ensures Joins(p, ProducerEdges(p, |p.entities|)[e])
  {
    ProducerEdgesAre(p, |p.entities|);
    PlacesJoin(p, ProducerAt, ExchangeAt(e));
  }

  lemma QueueEdgesJoin(p: Pipeline, queues: seq<Place>, k: nat)
    requires AllQueues(p, queues) && k < |queues|
    ensures |QueueEdges(p, queues)| == 2 * |queues|
    ensures Joins(p, QueueEdges(p, queues)[2 * k]) && Joins(p, QueueEdges(p, queues)[2 * k + 1])
  {
    QueueEdgesAre(p, queues);
    PlacesJoin(p, ExchangeAt(queues[k].e), queues[k]);
    PlacesJoin(p, queues[k], ConsumerAt(queues[k].c));
  }

  lemma QueueEdgeJoins(p: Pipeline, queues: seq<Place>, i: nat)
    requires AllQueues(p, queues) && i < |QueueEdges(p, queues)|
    ensures Joins(p, QueueEdges(p, queues)[i])
  {
    QueueEdgesAre(p, queues);
    QueueEdgesJoin(p, queues, i / 2);
    assert i == 2 * (i / 2) || i == 2 * (i / 2) + 1;
  }

  lemma StoreEdgeJoins(p: Pipeline, c: nat)
    requires c < |StoreEdges(p, |p.consumers|)|
    ensures Joins(p, StoreEdges(p, |p.consumers|)[c])
  {
    StoreEdgesAre(p, |p.consumers|);
    HasStore(p, c);
    PlacesJoin(p, ConsumerAt(c), StoreAt(IndexOf(Stores(p), p.consumers[c].datastore)));
  }

  /** Every edge joins two nodes of the drawing. */
  lemma EdgesJoinNodes(p: Pipeline, i: nat)
    requires AllQueues(p, QueuesOf(|p.consumers|, |p.entities|)) && i < |EdgesOf(p)|
    ensures Joins(p, EdgesOf(p)[i])
  {
    var first, middle := ProducerEdges(p, |p.entities|), QueueEdges(p, QueuesOf(|p.consumers|, |p.entities|));
    if i < |first| {
      ProducerEdgeJoins(p, i);
    } else if i < |first| + |middle| {
      QueueEdgeJoins(p, QueuesOf(|p.consumers|, |p.entities|), i - |first|);
    } else {
      StoreEdgeJoins(p, i - |first| - |middle|);
    }
  }

  // ---------------------------------------------------------------- one in, one out

  function Into(edges: seq<Edge>, key: Key): nat {
    if edges == [] then 0 else Into(edges[..|edges| - 1], key) + Once(edges[|edges| - 1].end == key)
  }

  function OutOf(edges: seq<Edge>, key: Key): nat {
    if edges == [] then 0 else OutOf(edges[..|edges| - 1], key) + Once(edges[|edges| - 1].start == key)
  }

  lemma {:induction false} CountsAdd(a: seq<Edge>, b: seq<Edge>, key: Key)
    ensures Into(a + b, key) == Into(a, key) + Into(b, key)
    ensures OutOf(a + b, key) == OutOf(a, key) + OutOf(b, key)
  {
    if b == [] {
      assert a + b == a;
    } else {
      assert (a + b)[..|a + b| - 1] == a + b[..|b| - 1];
      CountsAdd(a, b[..|b| - 1], key);
    }
  }

  lemma {:induction false} NoneOf(edges: seq<Edge>, key: Key)
    ensures (forall i :: 0 <= i < |edges| ==> edges[i].end != key) ==> Into(edges, key) == 0
    ensures (forall i :: 0 <= i < |edges| ==> edges[i].start != key) ==> OutOf(edges, key) == 0
  {
    if edges != [] {
      NoneOf(edges[..|edges| - 1], key);
    }
  }

  lemma KeyApart(p: Pipeline, q: Place, r: Place)
    requires Distinct(p) && q.QueueAt? && r.QueueAt? && Within(p, q) && Within(p, r)
    ensures KeyOf(p, q) == KeyOf(p, r) <==> q == r
  {
  }

  lemma {:induction false} QueueEdgesCount(p: Pipeline, queues: seq<Place>, q: Place)
    requires Distinct(p) && AllQueues(p, queues) && q.QueueAt? && Within(p, q)
    ensures Into(QueueEdges(p, queues), KeyOf(p, q)) == Times(queues, q)
    ensures OutOf(QueueEdges(p, queues), KeyOf(p, q)) == Times(queues, q)
  {
    if queues != [] {
      var init, last := queues[..|queues| - 1], queues[|queues| - 1];
      var key := KeyOf(p, q);
      assert queues == init + [last];
      QueueEdgesCount(p, init, q);
      KeyApart(p, q, last);
      AddTo(init, [last], q);
      CountsTwo(p, QueueEdges(p, init), last, key);
    }
  }

  lemma CountsTwo(p: Pipeline, edges: seq<Edge>, q: Place, key: Key)
    requires q.QueueAt? && Within(p, q) && key.QueueKey?
    ensures var a, b := Edge(KeyOf(p, ExchangeAt(q.e)), KeyOf(p, q)), Edge(KeyOf(p, q), KeyOf(p, ConsumerAt(q.c)));
            && Into(edges + [a, b], key) == Into(edges, key) + Once(KeyOf(p, q) == key)
            && OutOf(edges + [a, b], key) == OutOf(edges, key) + Once(KeyOf(p, q) == key)
  {
    var a, b := Edge(KeyOf(p, ExchangeAt(q.e)), KeyOf(p, q)), Edge(KeyOf(p, q), KeyOf(p, ConsumerAt(q.c)));
    CountsAdd(edges, [a, b], key);
    assert [a, b][..1] == [a] && [a][..0] == [];
    assert Into([a], key) == Once(a.end == key) && OutOf([a], key) == Once(a.start == key);
  }

  lemma EndsElsewhere(p: Pipeline, key: Key)
    requires key.QueueKey?
    ensures Into(ProducerEdges(p, |p.entities|), key) == 0 == OutOf(ProducerEdges(p, |p.entities|), key)
    ensures Into(StoreEdges(p, |p.consumers|), key) == 0 == OutOf(StoreEdges(p, |p.consumers|), key)
  {
    ProducerEdgesAre(p, |p.entities|);
    StoreEdgesAre(p, |p.consumers|);
    NoneOf(ProducerEdges(p, |p.entities|), key);
    NoneOf(StoreEdges(p, |p.consumers|), key);
  }

  lemma QueueEdgesHold(p: Pipeline, queues: seq<Place>, q: Place)
    requires AllQueues(p, queues) && q in queues
    ensures q.QueueAt? && Within(p, q)
    ensures Edge(KeyOf(p, ExchangeAt(q.e)), KeyOf(p, q)) in QueueEdges(p, queues)
    ensures Edge(KeyOf(p, q), KeyOf(p, ConsumerAt(q.c))) in QueueEdges(p, queues)
  {
    QueueEdgesAre(p, queues);
    var k :| 0 <= k < |queues| && queues[k] == q;
    assert QueueEdges(p, queues)[2 * k] == Edge(KeyOf(p, ExchangeAt(q.e)), KeyOf(p, q));
    assert QueueEdges(p, queues)[2 * k + 1] == Edge(KeyOf(p, q), KeyOf(p, ConsumerAt(q.c)));
  }

  lemma CountsThree(a: seq<Edge>, b: seq<Edge>, c: seq<Edge>, key: Key)
    ensures Into(a + b + c, key) == Into(a, key) + Into(b, key) + Into(c, key)
    ensures OutOf(a + b + c, key) == OutOf(a, key) + OutOf(b, key) + OutOf(c, key)
  {
    CountsAdd(a, b, key);
    CountsAdd(a + b, c, key);
  }

  /** With distinct names, each queue has exactly one edge in and one out: from its entity's exchange, and
  to its own consumer. */
  lemma OneInOneOut(p: Pipeline, q: Place)
    requires Distinct(p) && q.QueueAt? && Within(p, q)
    ensures AllQueues(p, QueuesOf(|p.consumers|, |p.entities|))
    ensures Into(EdgesOf(p), KeyOf(p, q)) == 1 == OutOf(EdgesOf(p), KeyOf(p, q))
    ensures Edge(KeyOf(p, ExchangeAt(q.e)), KeyOf(p, q)) in EdgesOf(p)
    ensures Edge(KeyOf(p, q), KeyOf(p, ConsumerAt(q.c))) in EdgesOf(p)
  {
    var queues := QueuesOf(|p.consumers|, |p.entities|);
    QueuesAre(p, |p.entities|);
    QueuesHave(|p.consumers|, |p.entities|, q.e, q.c);
    TimesOf(queues, q);
    QueueEdgesHold(p, queues, q);
    QueueEdgesCount(p, queues, q);
    EndsElsewhere(p, KeyOf(p, q));
    CountsThree(ProducerEdges(p, |p.entities|), QueueEdges(p, queues), StoreEdges(p, |p.consumers|), KeyOf(p, q));
  }

  // ---------------------------------------------------------------- how they line up

  function Middle(b: Box): real {
    b.y + b.h / 2.0
  }

  /** An exchange stands at the middle of its group of queues, from the top of the first to the bottom of the
  last. */
  lemma ExchangeIsCentred(p: Pipeline, e: nat)
    requires e < |p.entities| && p.consumers != []
    ensures var first := NodeOf(p, QueueAt(e, 0)).box;
            var last := NodeOf(p, QueueAt(e, |p.consumers| - 1)).box;
            2.0 * Middle(NodeOf(p, ExchangeAt(e)).box) == first.y + (last.y + last.h)
  {
  }

  /** The middles of consecutive consumers are one distance apart, and so are those of the datastores; the first
  is as far below the headings as the last is above the bottom. */
  lemma SpreadEvenly(p: Pipeline, stores: bool, i: nat)
    requires i + 1 < if stores then |Stores(p)| else |p.consumers|
    ensures var n := if stores then |Stores(p)| else |p.consumers|;
            var here := Middle(NodeOf(p, if stores then StoreAt(i) else ConsumerAt(i)).box);
            var next := Middle(NodeOf(p, if stores then StoreAt(i + 1) else ConsumerAt(i + 1)).box);
            var first := Middle(NodeOf(p, if stores then StoreAt(0) else ConsumerAt(0)).box);
            var last := Middle(NodeOf(p, if stores then StoreAt(n - 1) else ConsumerAt(n - 1)).box);
            next - here == (Height(p) - TOP) / n as real && first - TOP == Height(p) - last
  {
    SpreadSteps(Height(p), if stores then |Stores(p)| else |p.consumers|, i);
  }

  lemma SpreadSteps(height: real, count: nat, i: nat)
    requires i + 1 < count
    ensures Spread(height, count, i + 1) - Spread(height, count, i) == (height - TOP) / count as real
    ensures Spread(height, count, 0) - TOP == height - Spread(height, count, count - 1)
  {
    var step := (height - TOP) / count as real;
    assert step * count as real == height - TOP;
    assert step * ((i + 1) as real + 0.5) == step * (i as real + 0.5) + step;
    assert step * ((count - 1) as real + 0.5) == step * count as real - step * 0.5;
  }

  /** The datastores are drawn once each, in the order in which the consumers first name them. */
  lemma {:induction false} UniqueInOrder(names: seq<string>, j: nat, k: nat)
    requires j < k < |Unique(names)|
    ensures Unique(names)[j] in names && Unique(names)[k] in names
    ensures IndexOf(names, Unique(names)[j]) < IndexOf(names, Unique(names)[k])
  {
    if names != [] {
      var n := |names| - 1;
      var init := names[..n];
      var r := Unique(init);
      assert names == init + [names[n]];
      if k < |r| {
        UniqueInOrder(init, j, k);
        FirstIn(init, names[n], r[k]);
      } else {
        assert names[n] !in r;
        assert IndexOf(names, names[n]) == n;
      }
      FirstIn(init, names[n], r[j]);
    }
  }

  lemma {:induction false} FirstIn(names: seq<string>, last: string, name: string)
    requires name in names
    ensures name in names + [last] && IndexOf(names + [last], name) == IndexOf(names, name)
  {
    var i := IndexOf(names, name);
    var all := names + [last];
    assert all[i] == name;
    assert forall j :: 0 <= j < i ==> all[j] == names[j];
    assert IndexOf(all, name) >= i;
  }
}
