/** The session gate's bounded stores: Python ordered dictionaries from a bearer's digest to a value
with a deadline, oldest first. A token is known here by its digest, which is taken to be injective.
Each operation reads its clocks once. */
module Stores {
  import opened Wrappers

  const SESSION_CACHE_MAX_SECONDS := 30.0
  const WS_TICKET_SECONDS := 30.0
  const INVALID_ANSWER_SECONDS := 10.0
  const MAX_CACHED_SESSIONS := 1024
  const MAX_OUTSTANDING_TICKETS := 4096
  const MAX_INVALID_ANSWERS := 4096

  datatype AdminSession = AdminSession(adminId: string, email: string, expiresAt: real)
  {
    function SecondsLeft(now: real): real { expiresAt - now }
  }

  datatype Entry<V> = Entry(key: string, deadline: real, value: V)

  function Min(a: real, b: real): real { if b < a then b else a }

  // ---------------------------------------------------------------- ordered dictionaries

  /** The position of `key`, or the length when it is missing. */
  function Position<V>(d: seq<Entry<V>>, key: string): (p: nat)
    ensures p <= |d|
    ensures p < |d| ==> d[p].key == key
    ensures forall i :: 0 <= i < p ==> d[i].key != key
  {
    if d == [] || d[0].key == key then 0 else 1 + Position(d[1..], key)
  }

  function Find<V>(d: seq<Entry<V>>, key: string): Option<Entry<V>> {
    var p := Position(d, key);
    if p < |d| then Some(d[p]) else None
  }

  function Remove<V>(d: seq<Entry<V>>, key: string): seq<Entry<V>> {
    var p := Position(d, key);
    if p < |d| then d[..p] + d[p + 1..] else d
  }

  /** `d[key] = v; d.move_to_end(key)` */
  function PutLast<V>(d: seq<Entry<V>>, e: Entry<V>): seq<Entry<V>> {
    Remove(d, e.key) + [e]
  }

  /** `while len(d) > max: d.popitem(last=False)` */
  function Trimmed<V>(d: seq<Entry<V>>, max: nat): seq<Entry<V>> {
    if |d| <= max then d else d[|d| - max..]
  }

  predicate Distinct<V>(d: seq<Entry<V>>) {
    forall i, j :: 0 <= i < j < |d| ==> d[i].key != d[j].key
  }

  method TrimOldest<V>(d: seq<Entry<V>>, max: nat) returns (kept: seq<Entry<V>>)
    ensures kept == Trimmed(d, max)
  {
    kept := d;
    while |kept| > max
      invariant |kept| <= |d| && kept == d[|d| - |kept|..]
      invariant |d| > max ==> |kept| >= max
      invariant |d| <= max ==> kept == d
    {
      kept := kept[1..];
    }
  }

  // ---------------------------------------------------------------- one store, as its operations

  /** `Look` is a lookup, which drops an expired entry; `Keep` is a put; `Drop` an eviction. */
  datatype Op<V> = Look(key: string, now: real) | Keep(entry: Entry<V>) | Drop(key: string)

  function Live<V>(d: seq<Entry<V>>, key: string, now: real): Option<V> {
    match Find(d, key)
    case Some(e) => if now >= e.deadline then None else Some(e.value)
    case None => None
  }

  function Looked<V>(d: seq<Entry<V>>, key: string, now: real): seq<Entry<V>> {
    match Find(d, key)
    case Some(e) => if now >= e.deadline then Remove(d, key) else d
    case None => d
  }

  /** Without a bound. */
  function Done<V>(d: seq<Entry<V>>, op: Op<V>): seq<Entry<V>> {
    match op
    case Look(key, now) => Looked(d, key, now)
    case Keep(e) => PutLast(d, e)
    case Drop(key) => Remove(d, key)
  }

  function Unbounded<V>(ops: seq<Op<V>>): seq<Entry<V>> {
    if ops == [] then [] else Done(Unbounded(ops[..|ops| - 1]), ops[|ops| - 1])
  }

  function Bounded<V>(max: nat, ops: seq<Op<V>>): seq<Entry<V>> {
    if ops == [] then [] else Trimmed(Done(Bounded(max, ops[..|ops| - 1]), ops[|ops| - 1]), max)
  }

  // ---------------------------------------------------------------- the classes

  /** A session is kept for as long as both the TTL and it last; one that is over is dropped instead. */
  function PutOp(ttl: real, key: string, session: AdminSession, mono: real, wall: real): Op<AdminSession> {
    var lifetime := Min(ttl, session.SecondsLeft(wall));
    if lifetime <= 0.0 then Drop(key) else Keep(Entry(key, mono + lifetime, session))
  }

  class SessionCache {
    const ttl: real
    const maxEntries: nat
    var entries: seq<Entry<AdminSession>>
    ghost var ops: seq<Op<AdminSession>>

    ghost predicate Valid()
      reads this
    {
      && 0.0 <= ttl <= SESSION_CACHE_MAX_SECONDS
      && entries == Bounded(maxEntries, ops)
    }

    constructor (ttlSeconds: real, maxEntries: nat)
      ensures Valid() && ops == [] && this.maxEntries == maxEntries
      ensures ttl == Min(if ttlSeconds < 0.0 then 0.0 else ttlSeconds, SESSION_CACHE_MAX_SECONDS)
    {
      ttl := Min(if ttlSeconds < 0.0 then 0.0 else ttlSeconds, SESSION_CACHE_MAX_SECONDS);
      this.maxEntries := maxEntries;
      entries, ops := [], [];
    }

    method Get(key: string, mono: real) returns (session: Option<AdminSession>)
      requires Valid()
      modifies this
      ensures Valid() && ops == old(ops) + [Look(key, mono)]
      ensures session == Live(old(entries), key, mono)
      ensures entries == Looked(old(entries), key, mono)
    {
      NoTrim(maxEntries, ops, Look(key, mono));
      ops := ops + [Look(key, mono)];
      var p := Position(entries, key);
      if p == |entries| {
        return None;
      }
      var entry := entries[p];
      if mono >= entry.deadline {
        entries := Remove(entries, key);
        return None;
      }
      return Some(entry.value);
    }

    method Put(key: string, session: AdminSession, mono: real, wall: real)
      requires Valid()
      modifies this
      ensures Valid() && ops == old(ops) + [PutOp(ttl, key, session, mono, wall)]
      ensures entries == Trimmed(Done(old(entries), PutOp(ttl, key, session, mono, wall)), maxEntries)
    {
      ghost var before := entries;
      var lifetime := Min(ttl, session.SecondsLeft(wall));
      if lifetime <= 0.0 {
        entries := Remove(entries, key);
      } else {
        var added := PutLast(entries, Entry(key, mono + lifetime, session));
        entries := TrimOldest(added, maxEntries);
      }
      PutIsDone(ttl, maxEntries, ops, before, key, session, mono, wall);
      ops := ops + [PutOp(ttl, key, session, mono, wall)];
    }

    method Evict(key: string)
      requires Valid()
      modifies this
      ensures Valid() && ops == old(ops) + [Drop(key)]
      ensures entries == Remove(old(entries), key)
    {
      NoTrim(maxEntries, ops, Drop(key));
      ops := ops + [Drop(key)];
      entries := Remove(entries, key);
    }
  }

  class InvalidAnswers {
    const ttl: real
    const maxEntries: nat
    var entries: seq<Entry<()>>
    ghost var ops: seq<Op<()>>

    ghost predicate Valid()
      reads this
    {
      entries == Bounded(maxEntries, ops)
    }

    constructor (ttl: real, maxEntries: nat)
      ensures Valid() && ops == [] && this.ttl == ttl && this.maxEntries == maxEntries
    {
      this.ttl, this.maxEntries := ttl, maxEntries;
      entries, ops := [], [];
    }

    method Holds(key: string, mono: real) returns (held: bool)
      requires Valid()
      modifies this
      ensures Valid() && ops == old(ops) + [Look(key, mono)]
      ensures held == Live(old(entries), key, mono).Some?
      ensures entries == Looked(old(entries), key, mono)
    {
      NoTrim(maxEntries, ops, Look(key, mono));
      ops := ops + [Look(key, mono)];
      var p := Position(entries, key);
      if p == |entries| {
        return false;
      }
      if mono >= entries[p].deadline {
        entries := Remove(entries, key);
        return false;
      }
      return true;
    }

    method Add(key: string, mono: real)
      requires Valid()
      modifies this
      ensures Valid() && ops == old(ops) + [Keep(Entry(key, mono + ttl, ()))]
      ensures entries == Trimmed(PutLast(old(entries), Entry(key, mono + ttl, ())), maxEntries)
    {
      BoundedSnoc(maxEntries, ops, Keep(Entry(key, mono + ttl, ())));
      ops := ops + [Keep(Entry(key, mono + ttl, ()))];
      var added := PutLast(entries, Entry(key, mono + ttl, ()));
      entries := TrimOldest(added, maxEntries);
    }
  }

  /** What a put leaves, in the two cases the cache tells apart. */
  lemma PutIsDone(ttl: real, max: nat, ops: seq<Op<AdminSession>>, d: seq<Entry<AdminSession>>, key: string,
                  session: AdminSession, mono: real, wall: real)
    requires d == Bounded(max, ops)
    ensures var op, lifetime := PutOp(ttl, key, session, mono, wall), Min(ttl, session.SecondsLeft(wall));
            && Bounded(max, ops + [op]) == Trimmed(Done(d, op), max)
            && Trimmed(Done(d, op), max) == if lifetime <= 0.0 then Remove(d, key)
                                            else Trimmed(PutLast(d, Entry(key, mono + lifetime, session)), max)
  {
    BoundedSnoc(max, ops, PutOp(ttl, key, session, mono, wall));
    RemoveFits(d, key, max);
  }

  lemma RemoveFits<V>(d: seq<Entry<V>>, key: string, max: nat)
    requires |d| <= max
    ensures Trimmed(Remove(d, key), max) == Remove(d, key)
  {
  }

  lemma BoundedSnoc<V>(max: nat, ops: seq<Op<V>>, op: Op<V>)
    ensures Bounded(max, ops + [op]) == Trimmed(Done(Bounded(max, ops), op), max)
    ensures |Bounded(max, ops)| <= max
  {
    assert (ops + [op])[..|ops|] == ops;
  }

  /** Only a put can overflow. */
  lemma NoTrim<V>(max: nat, ops: seq<Op<V>>, op: Op<V>)
    requires !op.Keep?
    ensures Bounded(max, ops + [op]) == Done(Bounded(max, ops), op)
  {
    BoundedSnoc(max, ops, op);
  }
}
