/** Where the flow diagram of one pipeline puts its nodes, and which of them its edges join. */
module Topology {
  const WIDTH := 950.0
  const TOP := 26.0
  const QUEUE_HEIGHT := 58.0
  const QUEUE_GAP := 6.0
  const GROUP_GAP := 14.0

  datatype Consumer = Consumer(name: string, datastore: string)
  datatype Pipeline = Pipeline(entities: seq<string>, consumers: seq<Consumer>)

  datatype Key =
    | ProducerKey
    | ExchangeKey(entity: string)
    | QueueKey(consumer: string, entity: string)
    | ConsumerKey(name: string)
    | DatastoreKey(datastore: string)

  datatype Box = Box(x: real, y: real, w: real, h: real)
  datatype Node = Node(key: Key, box: Box)
  datatype Edge = Edge(start: Key, end: Key)
  datatype Layout = Layout(height: real, nodes: seq<Node>, edges: seq<Edge>)

  // ---------------------------------------------------------------- what is to be drawn

  /** The drawing's places: a queue for every entity and consumer, and one of each of the rest. */
  datatype Place = ProducerAt | ExchangeAt(e: nat) | QueueAt(e: nat, c: nat) | ConsumerAt(c: nat) | StoreAt(s: nat)

  function Column(p: Place): (real, real) {
    match p
    case ProducerAt => (0.0, 130.0)
    case ExchangeAt(_) => (160.0, 150.0)
    case QueueAt(_, _) => (350.0, 250.0)
    case ConsumerAt(_) => (660.0, 150.0)
    case StoreAt(_) => (840.0, 110.0)
  }

  /** JavaScript's `[...new Set(names)]`. */
  function Unique(names: seq<string>): (r: seq<string>)
    ensures |r| <= |names|
    ensures forall n :: n in r <==> n in names
    ensures forall i, j :: 0 <= i < j < |r| ==> r[i] != r[j]
  {
    if names == [] then []
    else
      var r := Unique(names[..|names| - 1]);
      if names[|names| - 1] in r then r else r + [names[|names| - 1]]
  }

  function Names(consumers: seq<Consumer>): (r: seq<string>)
    ensures |r| == |consumers| && forall i :: 0 <= i < |r| ==> r[i] == consumers[i].name
  {
    seq(|consumers|, i requires 0 <= i < |consumers| => consumers[i].name)
  }

  function Datastores(consumers: seq<Consumer>): (r: seq<string>)
    ensures |r| == |consumers| && forall i :: 0 <= i < |r| ==> r[i] == consumers[i].datastore
  {
    seq(|consumers|, i requires 0 <= i < |consumers| => consumers[i].datastore)
  }

  function Stores(p: Pipeline): (r: seq<string>)
    ensures |r| <= |p.consumers|
  {
    Unique(Datastores(p.consumers))
  }

  lemma HasStore(p: Pipeline, c: nat)
    requires c < |p.consumers|
    ensures p.consumers[c].datastore in Stores(p)
  {
    assert Datastores(p.consumers)[c] in Datastores(p.consumers);
  }

  /** JavaScript's `indexOf`, for a name that is there. */
  function IndexOf(names: seq<string>, name: string): (i: nat)
    requires name in names
    ensures i < |names| && names[i] == name
    ensures forall j :: 0 <= j < i ==> names[j] != name
  {
    if names[0] == name then 0 else 1 + IndexOf(names[1..], name)
  }

  predicate Within(p: Pipeline, q: Place) {
    match q
    case ProducerAt => true
    case ExchangeAt(e) => e < |p.entities|
    case QueueAt(e, c) => e < |p.entities| && c < |p.consumers|
    case ConsumerAt(c) => c < |p.consumers|
    case StoreAt(s) => s < |Stores(p)|
  }

  function KeyOf(p: Pipeline, q: Place): Key
    requires Within(p, q)
  {
    match q
    case ProducerAt => ProducerKey
    case ExchangeAt(e) => ExchangeKey(p.entities[e])
    case QueueAt(e, c) => QueueKey(p.consumers[c].name, p.entities[e])
    case ConsumerAt(c) => ConsumerKey(p.consumers[c].name)
    case StoreAt(s) => DatastoreKey(Stores(p)[s])
  }

  /** Where the group of queues of entity `e` begins. */
  function GroupTop(consumers: nat, e: nat): real {
    if e == 0 then TOP else GroupTop(consumers, e - 1) + consumers as real * (QUEUE_HEIGHT + QUEUE_GAP) + GROUP_GAP
  }

  function Height(p: Pipeline): real {
    var h := GroupTop(|p.consumers|, |p.entities|) - GROUP_GAP;
    if h < TOP + 80.0 then TOP + 80.0 else h
  }

  /** The middle of the `i`th of `count` nodes spread evenly down the drawing. */
  function Spread(height: real, count: nat, i: nat): real
    requires i < count
  {
    TOP + (height - TOP) / count as real * (i as real + 0.5)
  }

  function YOf(p: Pipeline, q: Place): (real, real)
    requires Within(p, q)
  {
    var n := |p.consumers|;
    match q
    case ProducerAt => (Spread(Height(p), 1, 0) - 40.0, 80.0)
    case ExchangeAt(e) => (GroupTop(n, e) + (n as real * (QUEUE_HEIGHT + QUEUE_GAP) - QUEUE_GAP) / 2.0 - 22.0, 44.0)
    case QueueAt(e, c) => (GroupTop(n, e) + c as real * (QUEUE_HEIGHT + QUEUE_GAP), QUEUE_HEIGHT)
    case ConsumerAt(c) => (Spread(Height(p), n, c) - 26.0, 52.0)
    case StoreAt(s) => (Spread(Height(p), |Stores(p)|, s) - 22.0, 44.0)
  }

  function NodeOf(p: Pipeline, q: Place): Node
    requires Within(p, q)
  {
    Node(KeyOf(p, q), Box(Column(q).0, YOf(p, q).0, Column(q).1, YOf(p, q).1))
  }

  // ---------------------------------------------------------------- the order they are drawn in

  function Row(e: nat, consumers: nat): seq<Place> {
    if consumers == 0 then [] else Row(e, consumers - 1) + [QueueAt(e, consumers - 1)]
  }

  function QueuesOf(consumers: nat, entities: nat): seq<Place> {
    if entities == 0 then [] else QueuesOf(consumers, entities - 1) + Row(entities - 1, consumers)
  }

  function Groups(consumers: nat, entities: nat): seq<Place> {
    if entities == 0 then []
    else Groups(consumers, entities - 1) + Row(entities - 1, consumers) + [ExchangeAt(entities - 1)]
  }

  function Consumers(n: nat): seq<Place> {
    if n == 0 then [] else Consumers(n - 1) + [ConsumerAt(n - 1)]
  }

  function StorePlaces(n: nat): seq<Place> {
    if n == 0 then [] else StorePlaces(n - 1) + [StoreAt(n - 1)]
  }

  function Places(p: Pipeline): seq<Place> {
    Groups(|p.consumers|, |p.entities|) + [ProducerAt] + Consumers(|p.consumers|) + StorePlaces(|Stores(p)|)
  }

  ghost predicate Drawn(p: Pipeline, places: seq<Place>, nodes: seq<Node>) {
    && |nodes| == |places|
    && forall k :: 0 <= k < |places| ==> Within(p, places[k]) && nodes[k] == NodeOf(p, places[k])
  }

  /** The edges into the exchanges. */
  function ProducerEdges(p: Pipeline, n: nat): seq<Edge>
    requires n <= |p.entities|
  {
    if n == 0 then [] else ProducerEdges(p, n - 1) + [Edge(ProducerKey, ExchangeKey(p.entities[n - 1]))]
  }

  predicate AllQueues(p: Pipeline, queues: seq<Place>) {
    forall k :: 0 <= k < |queues| ==> queues[k].QueueAt? && Within(p, queues[k])
  }

  /** The edges into and out of each queue: from its entity's exchange, and to its consumer. */
  function QueueEdges(p: Pipeline, queues: seq<Place>): seq<Edge>
    requires AllQueues(p, queues)
  {
    if queues == [] then []
    else
      var q := queues[|queues| - 1];
      var key := KeyOf(p, q);
      QueueEdges(p, queues[..|queues| - 1])
          + [Edge(ExchangeKey(p.entities[q.e]), key), Edge(key, ConsumerKey(p.consumers[q.c].name))]
  }

  function StoreEdges(p: Pipeline, n: nat): seq<Edge>
    requires n <= |p.consumers|
  {
    if n == 0 then []
    else StoreEdges(p, n - 1) + [Edge(ConsumerKey(p.consumers[n - 1].name), DatastoreKey(p.consumers[n - 1].datastore))]
  }

  // ---------------------------------------------------------------- drawing it

  lemma {:induction false} RowIs(p: Pipeline, e: nat, consumers: nat)
    requires e < |p.entities| && consumers <= |p.consumers|
    ensures |Row(e, consumers)| == consumers
    ensures forall c :: 0 <= c < consumers ==> Row(e, consumers)[c] == QueueAt(e, c)
  {
    if consumers > 0 {
      RowIs(p, e, consumers - 1);
    }
  }

  lemma {:induction false} QueuesAre(p: Pipeline, entities: nat)
    requires entities <= |p.entities|
    ensures AllQueues(p, QueuesOf(|p.consumers|, entities))
  {
    if entities > 0 {
      QueuesAre(p, entities - 1);
      RowIs(p, entities - 1, |p.consumers|);
    }
  }

  lemma RowDrawn(p: Pipeline, before: seq<Place>, nodes: seq<Node>, e: nat, c: nat)
    requires e < |p.entities| && c < |p.consumers| && Drawn(p, before + Row(e, c), nodes)
    ensures Drawn(p, before + Row(e, c + 1), nodes + [NodeOf(p, QueueAt(e, c))])
  {
    assert before + Row(e, c + 1) == before + Row(e, c) + [QueueAt(e, c)];
  }

  lemma StepDown(top: real, c: nat)
    ensures top + (c + 1) as real * (QUEUE_HEIGHT + QUEUE_GAP)
            == top + c as real * (QUEUE_HEIGHT + QUEUE_GAP) + QUEUE_HEIGHT + QUEUE_GAP
  {
  }

  lemma GroupDrawn(p: Pipeline, nodes: seq<Node>, e: nat)
    requires e < |p.entities| && Drawn(p, Groups(|p.consumers|, e) + Row(e, |p.consumers|), nodes)
    ensures Drawn(p, Groups(|p.consumers|, e + 1), nodes + [NodeOf(p, ExchangeAt(e))])
  {
  }

  lemma ExchangePlaced(p: Pipeline, e: nat, top: real, y: real)
    requires e < |p.entities| && top == GroupTop(|p.consumers|, e)
    requires y == top + |p.consumers| as real * (QUEUE_HEIGHT + QUEUE_GAP)
    ensures Node(ExchangeKey(p.entities[e]), Box(160.0, (top + y - QUEUE_GAP) / 2.0 - 22.0, 150.0, 44.0))
            == NodeOf(p, ExchangeAt(e))
    ensures GroupTop(|p.consumers|, e + 1) == y + GROUP_GAP
  {
  }

  /** The group of queues of one entity. */
  method DrawRow(p: Pipeline, e: nat, top: real, nodes: seq<Node>, queues: seq<Node>)
    returns (nodes': seq<Node>, queues': seq<Node>, y: real)
    requires e < |p.entities| && top == GroupTop(|p.consumers|, e)
    requires Drawn(p, Groups(|p.consumers|, e), nodes) && Drawn(p, QueuesOf(|p.consumers|, e), queues)
    ensures Drawn(p, Groups(|p.consumers|, e) + Row(e, |p.consumers|), nodes')
    ensures Drawn(p, QueuesOf(|p.consumers|, e) + Row(e, |p.consumers|), queues')
    ensures y == top + |p.consumers| as real * (QUEUE_HEIGHT + QUEUE_GAP)
  {
    nodes', queues', y := nodes, queues, top;
    ghost var groups, places := Groups(|p.consumers|, e), QueuesOf(|p.consumers|, e);
    for c := 0 to |p.consumers|
      invariant Drawn(p, groups + Row(e, c), nodes') && Drawn(p, places + Row(e, c), queues')
      invariant y == top + c as real * (QUEUE_HEIGHT + QUEUE_GAP)
    {
      var node := Node(QueueKey(p.consumers[c].name, p.entities[e]), Box(350.0, y, 250.0, QUEUE_HEIGHT));
      assert node == NodeOf(p, QueueAt(e, c));
      StepDown(top, c);
      RowDrawn(p, groups, nodes', e, c);
      RowDrawn(p, places, queues', e, c);
      nodes' := nodes' + [node];
      queues' := queues' + [node];
      y := y + QUEUE_HEIGHT + QUEUE_GAP;
    }
  }

  method DrawGroups(p: Pipeline) returns (nodes: seq<Node>, queues: seq<Node>, exchanges: seq<Node>, y: real)
    ensures Drawn(p, Groups(|p.consumers|, |p.entities|), nodes)
    ensures Drawn(p, QueuesOf(|p.consumers|, |p.entities|), queues)
    ensures |exchanges| == |p.entities| && forall e :: 0 <= e < |exchanges| ==> exchanges[e] == NodeOf(p, ExchangeAt(e))
    ensures y == GroupTop(|p.consumers|, |p.entities|)
  {
    nodes, queues, exchanges, y := [], [], [], TOP;
    ghost var n := |p.consumers|;
    for e := 0 to |p.entities|
      invariant Drawn(p, Groups(n, e), nodes) && Drawn(p, QueuesOf(n, e), queues)
      invariant |exchanges| == e && forall k :: 0 <= k < e ==> exchanges[k] == NodeOf(p, ExchangeAt(k))
      invariant y == GroupTop(n, e)
    {
      var top := y;
      nodes, queues, y := DrawRow(p, e, top, nodes, queues);
      var mid := (top + y - QUEUE_GAP) / 2.0;
      var exchange := Node(ExchangeKey(p.entities[e]), Box(160.0, mid - 22.0, 150.0, 44.0));
      ExchangePlaced(p, e, top, y);
      GroupDrawn(p, nodes, e);
      y := y + GROUP_GAP;
      nodes := nodes + [exchange];
      exchanges := exchanges + [exchange];
    }
  }

  method DrawConsumers(p: Pipeline, height: real) returns (nodes: seq<Node>)
    requires height == Height(p)
    ensures Drawn(p, Consumers(|p.consumers|), nodes)
    ensures forall c :: 0 <= c < |p.consumers| ==> c < |nodes| && nodes[c] == NodeOf(p, ConsumerAt(c))
  {
    nodes := [];
    for c := 0 to |p.consumers|
      invariant Drawn(p, Consumers(c), nodes) && |nodes| == c
      invariant forall k :: 0 <= k < c ==> nodes[k] == NodeOf(p, ConsumerAt(k))
    {
      var node := Node(ConsumerKey(p.consumers[c].name),
                       Box(660.0, Spread(height, |p.consumers|, c) - 26.0, 150.0, 52.0));
      assert node == NodeOf(p, ConsumerAt(c));
      nodes := nodes + [node];
    }
  }

  method DrawStores(p: Pipeline, height: real, stores: seq<string>) returns (nodes: seq<Node>)
    requires height == Height(p) && stores == Stores(p)
    ensures Drawn(p, StorePlaces(|stores|), nodes)
    ensures forall i :: 0 <= i < |stores| ==> i < |nodes| && nodes[i] == NodeOf(p, StoreAt(i))
  {
    nodes := [];
    for i := 0 to |stores|
      invariant Drawn(p, StorePlaces(i), nodes) && |nodes| == i
      invariant forall k :: 0 <= k < i ==> nodes[k] == NodeOf(p, StoreAt(k))
    {
      var node := Node(DatastoreKey(stores[i]), Box(840.0, Spread(height, |stores|, i) - 22.0, 110.0, 44.0));
      assert node == NodeOf(p, StoreAt(i));
      nodes := nodes + [node];
    }
  }

  lemma QueueEdgesSnoc(p: Pipeline, places: seq<Place>, k: nat)
    requires AllQueues(p, places) && k < |places|
    ensures QueueEdges(p, places[..k + 1]) == QueueEdges(p, places[..k])
            + [Edge(ExchangeKey(p.entities[places[k].e]), KeyOf(p, places[k])),
               Edge(KeyOf(p, places[k]), ConsumerKey(p.consumers[places[k].c].name))]
  {
    assert places[..k + 1][..k] == places[..k];
  }

  /** The exchange and the consumer found by a queue's two names are those it belongs to. */
  lemma EndsAreFound(p: Pipeline, q: Place, exchanges: seq<Node>, consumers: seq<Node>)
    requires q.QueueAt? && Within(p, q)
    requires |exchanges| == |p.entities| && forall e :: 0 <= e < |exchanges| ==>
             exchanges[e] == NodeOf(p, ExchangeAt(e))
    requires |consumers| == |p.consumers| && forall c :: 0 <= c < |consumers| ==>
             consumers[c] == NodeOf(p, ConsumerAt(c))
    ensures var (entity, name) := (p.entities[q.e], p.consumers[q.c].name);
            && entity in p.entities && name in Names(p.consumers)
            && exchanges[IndexOf(p.entities, entity)].key == ExchangeKey(entity)
            && consumers[IndexOf(Names(p.consumers), name)].key == ConsumerKey(name)
  {
    assert Names(p.consumers)[q.c] == p.consumers[q.c].name;
  }

  /** Join each queue to the exchange of its entity and the consumer of its name, found by their names. */
  method JoinQueues(p: Pipeline, queues: seq<Node>, exchanges: seq<Node>, consumers: seq<Node>)
    returns (edges: seq<Edge>)
    requires AllQueues(p, QueuesOf(|p.consumers|, |p.entities|))
    requires Drawn(p, QueuesOf(|p.consumers|, |p.entities|), queues)
    requires |exchanges| == |p.entities| && forall e :: 0 <= e < |exchanges| ==>
             exchanges[e] == NodeOf(p, ExchangeAt(e))
    requires |consumers| == |p.consumers| && forall c :: 0 <= c < |consumers| ==>
             consumers[c] == NodeOf(p, ConsumerAt(c))
    ensures edges == QueueEdges(p, QueuesOf(|p.consumers|, |p.entities|))
  {
    edges := [];
    ghost var places := QueuesOf(|p.consumers|, |p.entities|);
    for k := 0 to |queues|
      invariant edges == QueueEdges(p, places[..k])
    {
      var key := queues[k].key;
      EndsAreFound(p, places[k], exchanges, consumers);
      var exchange := exchanges[IndexOf(p.entities, key.entity)];
      var consumer := consumers[IndexOf(Names(p.consumers), key.consumer)];
      edges := edges + [Edge(exchange.key, key), Edge(key, consumer.key)];
      QueueEdgesSnoc(p, places, k);
    }
    assert places[..|queues|] == places;
  }

  lemma DrawnConcat(p: Pipeline, a: seq<Place>, b: seq<Place>, x: seq<Node>, y: seq<Node>)
    requires Drawn(p, a, x) && Drawn(p, b, y)
    ensures Drawn(p, a + b, x + y)
  {
  }

  lemma DrawnAll(p: Pipeline, nodes: seq<Node>, producer: Node, consumers: seq<Node>, stores: seq<Node>)
    requires Drawn(p, Groups(|p.consumers|, |p.entities|), nodes) && producer == NodeOf(p, ProducerAt)
    requires Drawn(p, Consumers(|p.consumers|), consumers) && Drawn(p, StorePlaces(|Stores(p)|), stores)
    ensures Drawn(p, Places(p), nodes + [producer] + consumers + stores)
  {
    var groups, places := Groups(|p.consumers|, |p.entities|), Consumers(|p.consumers|);
    DrawnConcat(p, groups, [ProducerAt], nodes, [producer]);
    DrawnConcat(p, groups + [ProducerAt], places, nodes + [producer], consumers);
    DrawnConcat(p, groups + [ProducerAt] + places, StorePlaces(|Stores(p)|), nodes + [producer] + consumers, stores);
  }

  method JoinProducer(p: Pipeline, producer: Node, exchanges: seq<Node>) returns (edges: seq<Edge>)
    requires producer == NodeOf(p, ProducerAt)
    requires |exchanges| == |p.entities| && forall e :: 0 <= e < |exchanges| ==>
             exchanges[e] == NodeOf(p, ExchangeAt(e))
    ensures edges == ProducerEdges(p, |p.entities|)
  {
    edges := [];
    for e := 0 to |exchanges|
      invariant edges == ProducerEdges(p, e)
    {
      edges := edges + [Edge(producer.key, exchanges[e].key)];
    }
  }

  method JoinStores(p: Pipeline, consumers: seq<Node>, stores: seq<Node>) returns (edges: seq<Edge>)
    requires |consumers| == |p.consumers| && forall c :: 0 <= c < |consumers| ==>
             consumers[c] == NodeOf(p, ConsumerAt(c))
    requires |stores| == |Stores(p)| && forall i :: 0 <= i < |stores| ==> stores[i] == NodeOf(p, StoreAt(i))
    ensures edges == StoreEdges(p, |p.consumers|)
  {
    edges := [];
    for c := 0 to |consumers|
      invariant edges == StoreEdges(p, c)
    {
      HasStore(p, c);
      edges := edges + [Edge(consumers[c].key, stores[IndexOf(Stores(p), p.consumers[c].datastore)].key)];
    }
  }

  method DrawLayout(p: Pipeline) returns (r: Layout)
    ensures r.height == Height(p) && Drawn(p, Places(p), r.nodes)
    ensures AllQueues(p, QueuesOf(|p.consumers|, |p.entities|))
    ensures r.edges == ProducerEdges(p, |p.entities|) + QueueEdges(p, QueuesOf(|p.consumers|, |p.entities|))
            + StoreEdges(p, |p.consumers|)
  {
    var nodes, queues, exchanges, y := DrawGroups(p);
    QueuesAre(p, |p.entities|);
    var height := if y - GROUP_GAP < TOP + 80.0 then TOP + 80.0 else y - GROUP_GAP;
    var producer := Node(ProducerKey, Box(0.0, Spread(height, 1, 0) - 40.0, 130.0, 80.0));
    assert producer == NodeOf(p, ProducerAt);
    var consumers := DrawConsumers(p, height);
    var stores := DrawStores(p, height, Stores(p));
    assert |consumers| == |p.consumers| && |stores| == |Stores(p)| by {
      CountPlaces(|p.consumers|);
      CountPlaces(|Stores(p)|);
    }
    var producerEdges := JoinProducer(p, producer, exchanges);
    var queueEdges := JoinQueues(p, queues, exchanges, consumers);
    var storeEdges := JoinStores(p, consumers, stores);
    DrawnAll(p, nodes, producer, consumers, stores);
    r := Layout(height, nodes + [producer] + consumers + stores, producerEdges + queueEdges + storeEdges);
  }

  lemma {:induction false} CountPlaces(n: nat)
    ensures |Consumers(n)| == n == |StorePlaces(n)|
  {
    if n > 0 {
      CountPlaces(n - 1);
    }
  }
}
