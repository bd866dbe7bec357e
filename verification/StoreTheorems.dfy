/** The bounded stores against an unbounded reference that only knows what was put last. */
module StoreTheorems {
  import opened Wrappers
  import opened Stores

  predicate IsSuffix<V(==)>(b: seq<Entry<V>>, u: seq<Entry<V>>) {
    |b| <= |u| && b == u[|u| - |b|..]
  }

  // ---------------------------------------------------------------- dictionaries

  lemma {:induction false} PositionIs<V>(d: seq<Entry<V>>, key: string, i: nat)
    requires Distinct(d) && i < |d| && d[i].key == key
    ensures Position(d, key) == i
  {
  }

  lemma RemoveKeepsDistinct<V>(d: seq<Entry<V>>, key: string)
    requires Distinct(d)
    ensures Distinct(Remove(d, key))
    ensures forall i :: 0 <= i < |Remove(d, key)| ==> Remove(d, key)[i].key != key
  {
  }

  lemma LostIsBefore<V>(b: seq<Entry<V>>, u: seq<Entry<V>>, key: string)
    requires IsSuffix(b, u) && Find(b, key).None? && Find(u, key).Some?
    ensures Position(u, key) < |u| - |b|
  {
    assert forall i :: 0 <= i < |b| ==> b[i] == u[|u| - |b| + i] && b[i].key != key;
  }

  /** Removing a key from a suffix of a dictionary leaves a suffix of what is left of it. */
  lemma RemoveKeepsSuffix<V>(b: seq<Entry<V>>, u: seq<Entry<V>>, key: string)
    requires Distinct(u) && IsSuffix(b, u)
    ensures IsSuffix(Remove(b, key), Remove(u, key))
  {
    if Position(b, key) < |b| {
      PositionWithin(b, u, key);
      RemoveWithin(b, u, key);
    } else if Position(u, key) < |u| {
      RemoveBefore(b, u, key);
    }
  }

  lemma PositionWithin<V>(b: seq<Entry<V>>, u: seq<Entry<V>>, key: string)
    requires Distinct(u) && IsSuffix(b, u) && Position(b, key) < |b|
    ensures Position(u, key) == |u| - |b| + Position(b, key)
  {
    var i := |u| - |b| + Position(b, key);
    assert u[i] == b[Position(b, key)];
    PositionIs(u, key, i);
  }

  lemma RemoveWithin<V>(b: seq<Entry<V>>, u: seq<Entry<V>>, key: string)
    requires IsSuffix(b, u) && Position(b, key) < |b| && Position(u, key) == |u| - |b| + Position(b, key)
    ensures IsSuffix(Remove(b, key), Remove(u, key))
  {
    RemoveFromEnd(u, |u| - |b|, Position(u, key));
  }

  lemma RemoveFromEnd<V>(u: seq<Entry<V>>, off: nat, q: nat)
    requires off <= q < |u|
    ensures IsSuffix(u[off..][..q - off] + u[off..][q - off + 1..], u[..q] + u[q + 1..])
  {
    RemoveSuffixAt(u, off, q);
  }

  lemma RemoveBefore<V>(b: seq<Entry<V>>, u: seq<Entry<V>>, key: string)
    requires IsSuffix(b, u) && Position(b, key) == |b| && Position(u, key) < |u|
    ensures IsSuffix(Remove(b, key), Remove(u, key))
  {
    LostIsBefore(b, u, key);
    RemovePrefixAt(u, |u| - |b|, Position(u, key));
  }

  lemma RemoveSuffixAt<T>(u: seq<T>, off: nat, q: nat)
    requires off <= q < |u|
    ensures (u[..q] + u[q + 1..])[off..] == u[off..][..q - off] + u[off..][q - off + 1..]
  {
  }

  lemma RemovePrefixAt<T>(u: seq<T>, off: nat, q: nat)
    requires q < off <= |u|
    ensures (u[..q] + u[q + 1..])[off - 1..] == u[off..]
  {
  }

  lemma SuffixFind<V>(b: seq<Entry<V>>, u: seq<Entry<V>>, key: string)
    requires Distinct(u) && IsSuffix(b, u) && Find(b, key).Some?
    ensures Find(u, key) == Find(b, key)
  {
    var p := Position(b, key);
    assert u[|u| - |b| + p] == b[p];
    PositionIs(u, key, |u| - |b| + p);
  }

  lemma TrimKeepsSuffix<V>(max: nat, b: seq<Entry<V>>, u: seq<Entry<V>>)
    requires IsSuffix(b, u)
    ensures IsSuffix(Trimmed(b, max), u)
  {
  }

  lemma LookKeepsSuffix<V>(b: seq<Entry<V>>, u: seq<Entry<V>>, key: string, now: real)
    requires Distinct(u) && IsSuffix(b, u)
    ensures IsSuffix(Looked(b, key, now), Looked(u, key, now))
  {
    RemoveKeepsSuffix(b, u, key);
    if Find(b, key).Some? {
      SuffixFind(b, u, key);
    } else {
      assert Remove(b, key) == b;
    }
  }

  lemma AppendKeepsSuffix<V>(b: seq<Entry<V>>, u: seq<Entry<V>>, e: Entry<V>)
    requires IsSuffix(b, u)
    ensures IsSuffix(b + [e], u + [e])
  {
  }

  lemma DoneKeepsDistinct<V>(u: seq<Entry<V>>, op: Op<V>)
    requires Distinct(u)
    ensures Distinct(Done(u, op))
  {
    RemoveKeepsDistinct(u, if op.Keep? then op.entry.key else op.key);
  }

  lemma DoneKeepsSuffix<V>(b: seq<Entry<V>>, u: seq<Entry<V>>, op: Op<V>)
    requires Distinct(u) && IsSuffix(b, u)
    ensures Distinct(Done(u, op)) && IsSuffix(Done(b, op), Done(u, op))
  {
    DoneKeepsDistinct(u, op);
    match op
    case Keep(e) =>
      RemoveKeepsSuffix(b, u, e.key);
      AppendKeepsSuffix(Remove(b, e.key), Remove(u, e.key), e);
    case Drop(key) => RemoveKeepsSuffix(b, u, key);
    case Look(key, now) => LookKeepsSuffix(b, u, key, now);
  }

  lemma {:induction false} BoundedIsSuffix<V>(max: nat, ops: seq<Op<V>>)
    ensures Distinct(Unbounded(ops)) && IsSuffix(Bounded(max, ops), Unbounded(ops))
  {
    if ops != [] {
      var n := |ops| - 1;
      BoundedIsSuffix(max, ops[..n]);
      DoneKeepsSuffix(Bounded(max, ops[..n]), Unbounded(ops[..n]), ops[n]);
      TrimKeepsSuffix(max, Done(Bounded(max, ops[..n]), ops[n]), Unbounded(ops));
    }
  }

  // ---------------------------------------------------------------- what was put last

  /** The last put of `key` not dropped since: the reference knows no bound, no order and no lookup. */
  function LastPut<V>(ops: seq<Op<V>>, key: string): Option<Entry<V>> {
    if ops == [] then None
    else
      match ops[|ops| - 1]
      case Keep(e) => if e.key == key then Some(e) else LastPut(ops[..|ops| - 1], key)
      case Drop(k) => if k == key then None else LastPut(ops[..|ops| - 1], key)
      case Look(_, _) => LastPut(ops[..|ops| - 1], key)
  }

  /** No lookup happened later than `now`. */
  predicate LooksBy<V>(ops: seq<Op<V>>, now: real) {
    forall i :: 0 <= i < |ops| && ops[i].Look? ==> ops[i].now <= now
  }

  lemma {:induction false} Missing<V>(d: seq<Entry<V>>, key: string)
    requires forall i :: 0 <= i < |d| ==> d[i].key != key
    ensures Find(d, key) == None
  {
  }

  lemma RemoveFind<V>(d: seq<Entry<V>>, key: string, other: string)
    requires Distinct(d)
    ensures Find(Remove(d, key), other) == if other == key then None else Find(d, other)
  {
    var p, q, r := Position(d, key), Position(d, other), Remove(d, key);
    RemoveKeepsDistinct(d, key);
    if other == key {
      Missing(r, key);
    } else if p < |d| {
      if q < |d| {
        var i := if q < p then q else q - 1;
        assert r[i] == d[q];
        PositionIs(r, other, i);
      } else {
        forall i | 0 <= i < |r| ensures r[i].key != other {
          assert r[i] == d[if i < p then i else i + 1];
        }
        Missing(r, other);
      }
    }
  }

  lemma PutLastFind<V>(d: seq<Entry<V>>, e: Entry<V>, other: string)
    requires Distinct(d)
    ensures Distinct(PutLast(d, e))
    ensures Find(PutLast(d, e), other) == if other == e.key then Some(e) else Find(d, other)
  {
    RemoveKeepsDistinct(d, e.key);
    RemoveFind(d, e.key, other);
    var r := Remove(d, e.key);
    var all := PutLast(d, e);
    if other == e.key {
      PositionIs(all, other, |r|);
    } else if Find(r, other).Some? {
      assert all[Position(r, other)] == r[Position(r, other)];
      PositionIs(all, other, Position(r, other));
    } else {
      Missing(all, other);
    }
  }

  /** Without a bound, the store is the last-put map: the same entries but for those already expired. */
  lemma {:induction false} UnboundedIsLastPut<V>(ops: seq<Op<V>>, key: string, now: real)
    requires LooksBy(ops, now)
    ensures Find(Unbounded(ops), key).Some? ==> Find(Unbounded(ops), key) == LastPut(ops, key)
    ensures LastPut(ops, key).Some? && LastPut(ops, key).value.deadline > now ==> Find(Unbounded(ops), key).Some?
  {
    if ops != [] {
      var n := |ops| - 1;
      var before := Unbounded(ops[..n]);
      UnboundedIsLastPut(ops[..n], key, now);
      BoundedIsSuffix(0, ops[..n]);
      match ops[n]
      case Keep(e) => PutLastFind(before, e, key);
      case Drop(k) => RemoveFind(before, k, key);
      case Look(k, at) => RemoveFind(before, k, key);
    }
  }

  /** A hit of the bounded store is what the last-put map would answer; a miss where the map answers
  is a key the bound has pushed out. */
  lemma HitsRefineLastPut<V>(max: nat, ops: seq<Op<V>>, key: string, now: real)
    requires LooksBy(ops, now)
    ensures var hit := Live(Bounded(max, ops), key, now);
            var last := LastPut(ops, key);
            && (hit.Some? ==> last.Some? && now < last.value.deadline && hit == Some(last.value.value))
            && (hit.None? && last.Some? && now < last.value.deadline ==> Find(Bounded(max, ops), key).None?)
            && |Bounded(max, ops)| <= max
  {
    BoundedIsSuffix(max, ops);
    UnboundedIsLastPut(ops, key, now);
    if Find(Bounded(max, ops), key).Some? {
      SuffixFind(Bounded(max, ops), Unbounded(ops), key);
    }
    if ops != [] {
      BoundedSnoc(max, ops[..|ops| - 1], ops[|ops| - 1]);
    }
  }

  // ---------------------------------------------------------------- who survives an overflow

  /** When `key` was last put; a lookup does not count. */
  function PutIndex<V>(ops: seq<Op<V>>, key: string): int {
    if ops == [] then -1
    else if ops[|ops| - 1].Keep? && ops[|ops| - 1].entry.key == key then |ops| - 1
    else PutIndex(ops[..|ops| - 1], key)
  }

  ghost predicate InPutOrder<V>(ops: seq<Op<V>>, d: seq<Entry<V>>) {
    forall i, j :: 0 <= i < j < |d| ==> PutIndex(ops, d[i].key) < PutIndex(ops, d[j].key)
  }

  lemma {:induction false} PutIndexRange<V>(ops: seq<Op<V>>, key: string)
    ensures PutIndex(ops, key) < |ops|
  {
    if ops != [] {
      PutIndexRange(ops[..|ops| - 1], key);
    }
  }

  lemma RemoveKeepsOrder<V>(ops: seq<Op<V>>, d: seq<Entry<V>>, key: string)
    requires InPutOrder(ops, d)
    ensures InPutOrder(ops, Remove(d, key))
  {
    var p, r := Position(d, key), Remove(d, key);
    if p < |d| {
      forall i, j | 0 <= i < j < |r| ensures PutIndex(ops, r[i].key) < PutIndex(ops, r[j].key) {
        assert r[i] == d[if i < p then i else i + 1] && r[j] == d[if j < p then j else j + 1];
      }
    }
  }

  lemma {:induction false} UnboundedDistinct<V>(ops: seq<Op<V>>)
    ensures Distinct(Unbounded(ops))
  {
    if ops != [] {
      UnboundedDistinct(ops[..|ops| - 1]);
      DoneKeepsDistinct(Unbounded(ops[..|ops| - 1]), ops[|ops| - 1]);
    }
  }

  lemma {:induction false} UnboundedInPutOrder<V>(ops: seq<Op<V>>)
    ensures InPutOrder(ops, Unbounded(ops))
  {
    if ops != [] {
      var n := |ops| - 1;
      var before := Unbounded(ops[..n]);
      UnboundedInPutOrder(ops[..n]);
      UnboundedDistinct(ops[..n]);
      StillInPutOrder(ops[..n], ops[n], before);
      assert ops[..n] + [ops[n]] == ops;
    }
  }

  lemma StillInPutOrder<V>(ops: seq<Op<V>>, op: Op<V>, d: seq<Entry<V>>)
    requires InPutOrder(ops, d) && Distinct(d)
    ensures InPutOrder(ops + [op], Done(d, op))
  {
    var key := if op.Keep? then op.entry.key else op.key;
    assert (ops + [op])[..|ops|] == ops;
    RemoveKeepsDistinct(d, key);
    RemoveKeepsOrder(ops, d, key);
    if op.Keep? {
      LastInPutOrder(ops, op.entry, Remove(d, key));
    } else {
      assert forall k :: PutIndex(ops + [op], k) == PutIndex(ops, k);
    }
  }

  lemma LastInPutOrder<V>(ops: seq<Op<V>>, e: Entry<V>, r: seq<Entry<V>>)
    requires InPutOrder(ops, r) && forall i :: 0 <= i < |r| ==> r[i].key != e.key
    ensures InPutOrder(ops + [Keep(e)], r + [e])
  {
    var ops', d := ops + [Keep(e)], r + [e];
    assert ops'[..|ops|] == ops;
    forall i, j | 0 <= i < j < |d| ensures PutIndex(ops', d[i].key) < PutIndex(ops', d[j].key) {
      assert d[i] == r[i];
      PutIndexRange(ops, r[i].key);
      if j < |r| {
        assert d[j] == r[j];
      }
    }
  }

  /** The keys the bound pushed out were all put before every key it kept. */
  lemma SurvivorsAreNewest<V>(max: nat, ops: seq<Op<V>>, kept: string, lost: string)
    requires Find(Bounded(max, ops), kept).Some?
    requires Find(Unbounded(ops), lost).Some? && Find(Bounded(max, ops), lost).None?
    ensures PutIndex(ops, lost) < PutIndex(ops, kept)
    ensures |Bounded(max, ops)| <= max
  {
    var b, u := Bounded(max, ops), Unbounded(ops);
    BoundedIsSuffix(max, ops);
    UnboundedInPutOrder(ops);
    var i, j := Position(u, lost), |u| - |b| + Position(b, kept);
    assert u[j] == b[Position(b, kept)];
    LostIsBefore(b, u, lost);
    if ops != [] {
      BoundedSnoc(max, ops[..|ops| - 1], ops[|ops| - 1]);
    }
  }

  // ---------------------------------------------------------------- sessions

  /** A put of the session cache at `mono`, when the wall clock reads `offset` more. */
  function PutAt(ttl: real, key: string, session: AdminSession, mono: real, offset: real): Op<AdminSession> {
    PutOp(ttl, key, session, mono, mono + offset)
  }

  ghost predicate MadeByCache(ttl: real, offset: real, op: Op<AdminSession>) {
    op.Keep? ==> exists mono :: op == PutAt(ttl, op.entry.key, op.entry.value, mono, offset)
  }

  /** While the two clocks advance together, no hit is past its session's expiry. */
  lemma HitBeforeExpiry(ttl: real, offset: real, max: nat, ops: seq<Op<AdminSession>>, key: string, now: real)
    requires LooksBy(ops, now)
    requires forall i :: 0 <= i < |ops| ==> MadeByCache(ttl, offset, ops[i])
    requires Live(Bounded(max, ops), key, now).Some?
    ensures now + offset < Live(Bounded(max, ops), key, now).value.expiresAt
  {
    HitsRefineLastPut(max, ops, key, now);
    LastPutWasPut(ops, key);
    var last := LastPut(ops, key).value;
    var i :| 0 <= i < |ops| && ops[i] == Keep(last);
    assert MadeByCache(ttl, offset, ops[i]);
    var mono :| Keep(last) == PutAt(ttl, last.key, last.value, mono, offset);
  }

  lemma {:induction false} LastPutWasPut<V>(ops: seq<Op<V>>, key: string)
    requires LastPut(ops, key).Some?
    ensures exists i :: 0 <= i < |ops| && ops[i] == Keep(LastPut(ops, key).value)
  {
    var n := |ops| - 1;
    if ops[n] != Keep(LastPut(ops, key).value) {
      LastPutWasPut(ops[..n], key);
      var i :| 0 <= i < n && ops[..n][i] == Keep(LastPut(ops, key).value);
      assert ops[i] == ops[..n][i];
    }
  }
}
