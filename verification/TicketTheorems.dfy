/** When a ticket redeems, told from the history of the store's operations. */
module TicketTheorems {
  import opened Wrappers
  import opened Stores
  import opened StoreTheorems

  import opened Tickets

  /** The ticket as issued, unless a redemption or a purge of its bearer has come since. */
  function Outstanding(ttl: real, ops: seq<TicketOp>, ticket: string): Option<Ticket> {
    if ops == [] then None
    else
      var before := Outstanding(ttl, ops[..|ops| - 1], ticket);
      match ops[|ops| - 1]
      case Issue(t, _, _, _, _) => if t == ticket then Some(Minted(ttl, ops[|ops| - 1])) else before
      case Redeem(t, _) => if t == ticket then None else before
      case Purge(bearer) => if before.Some? && before.value.value.bearer == bearer then None else before
  }

  /** The tickets an overflow has ever dropped. */
  function PushedOut(ttl: real, max: nat, ops: seq<TicketOp>): set<string> {
    if ops == [] then {}
    else
      var n := |ops| - 1;
      PushedOut(ttl, max, ops[..n])
      + if ops[n].Issue? then DroppedBy(WithTicket(ttl, Held(ttl, max, ops[..n]), ops[n]), max) else {}
  }

  function DroppedBy(d: seq<Ticket>, max: nat): set<string> {
    set i | 0 <= i < |d| - |Trimmed(d, max)| :: d[i].key
  }

  predicate Issues(op: TicketOp, ticket: string) {
    op.Issue? && op.ticket == ticket
  }

  predicate EverIssued(ops: seq<TicketOp>, ticket: string) {
    exists i :: 0 <= i < |ops| && Issues(ops[i], ticket)
  }

  /** Every ticket is drawn once. */
  ghost predicate AllFresh(ops: seq<TicketOp>) {
    forall i, j, t {:trigger Issues(ops[i], t), Issues(ops[j], t)} ::
      0 <= i < j < |ops| && Issues(ops[i], t) ==> !Issues(ops[j], t)
  }

  /** No operation read the clock later than `now`. */
  ghost predicate ClockBy(ops: seq<TicketOp>, now: real) {
    forall i :: 0 <= i < |ops| ==> (ops[i].Issue? ==> ops[i].mono <= now) && (ops[i].Redeem? ==> ops[i].now <= now)
  }

  // ---------------------------------------------------------------- dictionaries

  lemma {:induction false} FilteredFind<V>(d: seq<Entry<V>>, keep: Entry<V> -> bool, key: string)
    requires Distinct(d)
    ensures Distinct(Filtered(d, keep))
    ensures Find(Filtered(d, keep), key) ==
            match Find(d, key) case Some(e) => if keep(e) then Some(e) else None case None => None
  {
    if d != [] {
      var n := |d| - 1;
      FilteredFind(d[..n], keep, key);
      Missing(d[..n], d[n].key);
      FilteredFind(d[..n], keep, d[n].key);
      assert d == d[..n] + [d[n]];
      AppendFind(d[..n], d[n], key);
      FilteredAppend(d[..n], d[n], keep, key);
    }
  }

  lemma FilteredAppend<V>(d: seq<Entry<V>>, e: Entry<V>, keep: Entry<V> -> bool, key: string)
    requires Distinct(Filtered(d, keep)) && Find(Filtered(d, keep), e.key) == None
    ensures Distinct(Filtered(d + [e], keep))
    ensures Find(Filtered(d + [e], keep), key) == if keep(e) && key == e.key then Some(e)
            else Find(Filtered(d, keep), key)
  {
    assert (d + [e])[..|d|] == d;
    if keep(e) {
      AppendFind(Filtered(d, keep), e, key);
    } else {
      assert Filtered(d + [e], keep) == Filtered(d, keep);
    }
  }

  /** A key appended to a dictionary that lacks it. */
  lemma AppendFind<V>(d: seq<Entry<V>>, e: Entry<V>, key: string)
    requires Distinct(d) && Find(d, e.key) == None
    ensures Distinct(d + [e])
    ensures Find(d + [e], key) == if key == e.key then Some(e) else Find(d, key)
  {
    var all := d + [e];
    if key == e.key {
      PositionIs(all, key, |d|);
    } else if Find(d, key).Some? {
      assert all[Position(d, key)] == d[Position(d, key)];
      PositionIs(all, key, Position(d, key));
    } else {
      Missing(all, key);
    }
  }

  lemma TrimmedFind(d: seq<Ticket>, max: nat, key: string)
    requires Distinct(d)
    ensures Distinct(Trimmed(d, max))
    ensures Find(Trimmed(d, max), key) == if key in DroppedBy(d, max) then None else Find(d, key)
  {
    var t := Trimmed(d, max);
    var off := |d| - |t|;
    assert IsSuffix(t, d);
    if Find(t, key).Some? {
      SuffixFind(t, d, key);
      assert t[Position(t, key)] == d[off + Position(t, key)];
    } else if Find(d, key).Some? {
      LostIsBefore(t, d, key);
      assert d[Position(d, key)].key in DroppedBy(d, max);
    }
  }

  // ---------------------------------------------------------------- the store against its history

  ghost predicate Tracks(ttl: real, max: nat, ops: seq<TicketOp>, ticket: string, now: real) {
    var found := Find(Held(ttl, max, ops), ticket);
    var outstanding := Outstanding(ttl, ops, ticket);
    var pushed := ticket in PushedOut(ttl, max, ops);
    && (found.Some? ==> outstanding == found && !pushed && EverIssued(ops, ticket))
    && (pushed ==> EverIssued(ops, ticket))
    && (outstanding.Some? && now < outstanding.value.deadline && !pushed ==> found == outstanding)
  }

  lemma EverIssuedSnoc(ops: seq<TicketOp>, op: TicketOp, ticket: string)
    ensures EverIssued(ops + [op], ticket) <==> EverIssued(ops, ticket) || Issues(op, ticket)
  {
    var all := ops + [op];
    if EverIssued(ops, ticket) {
      var i :| 0 <= i < |ops| && Issues(ops[i], ticket);
      assert Issues(all[i], ticket);
    }
    if Issues(op, ticket) {
      assert Issues(all[|ops|], ticket);
    }
  }

  lemma IssueTracks(ttl: real, max: nat, ops: seq<TicketOp>, op: TicketOp, ticket: string, now: real)
    requires op.Issue? && op.mono <= now && !EverIssued(ops, op.ticket)
    requires Distinct(Held(ttl, max, ops))
    requires Tracks(ttl, max, ops, ticket, now) && Tracks(ttl, max, ops, op.ticket, now)
    ensures Distinct(Held(ttl, max, ops + [op])) && Tracks(ttl, max, ops + [op], ticket, now)
  {
    var d := Held(ttl, max, ops);
    var live := Pruned(d, op.mono);
    assert (ops + [op])[..|ops|] == ops;
    EverIssuedSnoc(ops, op, ticket);
    FilteredFind(d, (e: Ticket) => op.mono < e.deadline, ticket);
    FilteredFind(d, (e: Ticket) => op.mono < e.deadline, op.ticket);
    AppendFind(live, Minted(ttl, op), ticket);
    TrimmedFind(WithTicket(ttl, d, op), max, ticket);
    DroppedWasThere(WithTicket(ttl, d, op), max, ticket);
  }

  lemma DroppedWasThere(d: seq<Ticket>, max: nat, key: string)
    requires Distinct(d)
    ensures key in DroppedBy(d, max) ==> Find(d, key).Some?
  {
    if i :| 0 <= i < |d| - |Trimmed(d, max)| && d[i].key == key {
      PositionIs(d, key, i);
    }
  }

  lemma OtherTracks(ttl: real, max: nat, ops: seq<TicketOp>, op: TicketOp, ticket: string, now: real)
    requires !op.Issue? && Distinct(Held(ttl, max, ops)) && Tracks(ttl, max, ops, ticket, now)
    ensures Distinct(Held(ttl, max, ops + [op])) && Tracks(ttl, max, ops + [op], ticket, now)
  {
    var d := Held(ttl, max, ops);
    assert (ops + [op])[..|ops|] == ops;
    EverIssuedSnoc(ops, op, ticket);
    if op.Redeem? {
      RemoveKeepsDistinct(d, op.ticket);
      RemoveFind(d, op.ticket, ticket);
    } else {
      FilteredFind(d, (e: Ticket) => e.value.bearer != op.bearer, ticket);
    }
  }

  lemma LastIsFresh(ops: seq<TicketOp>)
    requires ops != [] && AllFresh(ops) && ops[|ops| - 1].Issue?
    ensures !EverIssued(ops[..|ops| - 1], ops[|ops| - 1].ticket)
  {
    var n := |ops| - 1;
    assert Issues(ops[n], ops[n].ticket);
    forall i | 0 <= i < n ensures !Issues(ops[..n][i], ops[n].ticket) {
      assert ops[..n][i] == ops[i];
    }
  }

  lemma {:induction false} StoreTracks(ttl: real, max: nat, ops: seq<TicketOp>, ticket: string, now: real)
    requires AllFresh(ops) && ClockBy(ops, now)
    ensures Distinct(Held(ttl, max, ops)) && Tracks(ttl, max, ops, ticket, now)
  {
    if ops != [] {
      var n := |ops| - 1;
      assert ops == ops[..n] + [ops[n]];
      StoreTracks(ttl, max, ops[..n], ticket, now);
      if ops[n].Issue? {
        StoreTracks(ttl, max, ops[..n], ops[n].ticket, now);
        LastIsFresh(ops);
        IssueTracks(ttl, max, ops[..n], ops[n], ticket, now);
      } else {
        OtherTracks(ttl, max, ops[..n], ops[n], ticket, now);
      }
    }
  }

  /** A ticket redeems exactly when it was issued, never redeemed, purged or pushed out since, and its
  lifetime has not passed; it then proves the session and bearer it was issued for. */
  lemma RedeemsExactlyOnce(ttl: real, max: nat, ops: seq<TicketOp>, ticket: string, now: real)
    requires AllFresh(ops) && ClockBy(ops, now)
    ensures var outstanding := Outstanding(ttl, ops, ticket);
            Live(Held(ttl, max, ops), ticket, now) ==
              if outstanding.Some? && now < outstanding.value.deadline && ticket !in PushedOut(ttl, max, ops)
              then Some(outstanding.value.value) else None
  {
    StoreTracks(ttl, max, ops, ticket, now);
  }

  predicate Ends(op: TicketOp, ticket: string, bearer: string) {
    match op
    case Redeem(t, _) => t == ticket
    case Purge(b) => b == bearer
    case Issue(_, _, _, _, _) => false
  }

  /** Operation `i` issued the ticket, and none since has redeemed it or purged its bearer. */
  ghost predicate Standing(ops: seq<TicketOp>, i: nat, ticket: string) {
    && i < |ops| && Issues(ops[i], ticket)
    && forall j :: i < j < |ops| ==> !Ends(ops[j], ticket, ops[i].bearer)
  }

  lemma StandingSnoc(ops: seq<TicketOp>, op: TicketOp, i: nat, ticket: string)
    requires i < |ops|
    ensures Standing(ops + [op], i, ticket) <==> Standing(ops, i, ticket) && !Ends(op, ticket, ops[i].bearer)
  {
    var all := ops + [op];
    assert all[i] == ops[i] && all[|ops|] == op;
    assert forall j :: i < j < |ops| ==> all[j] == ops[j];
  }

  lemma {:induction false} OutstandingStands(ttl: real, ops: seq<TicketOp>, ticket: string)
    requires AllFresh(ops)
    ensures Outstanding(ttl, ops, ticket).Some? ==> exists i: nat :: Standing(ops, i, ticket)
    ensures forall i: nat :: Standing(ops, i, ticket) ==> Outstanding(ttl, ops, ticket) == Some(Minted(ttl, ops[i]))
  {
    if ops != [] {
      var n := |ops| - 1;
      var init, op := ops[..n], ops[n];
      assert ops == init + [op];
      OutstandingStands(ttl, init, ticket);
      forall i: nat | i < n
        ensures Standing(ops, i, ticket) <==> Standing(init, i, ticket) && !Ends(op, ticket, ops[i].bearer)
      {
        StandingSnoc(init, op, i, ticket);
      }
      if Issues(op, ticket) {
        assert Standing(ops, n, ticket);
        assert forall i: nat :: i < n ==> !Issues(ops[i], ticket);
      } else if Outstanding(ttl, ops, ticket).Some? {
        var i: nat :| Standing(init, i, ticket);
        assert Standing(ops, i, ticket);
      }
    }
  }

  /** Within the TTL of its issue, and before the session it was issued for runs out, by the time left at the
  issue. */
  ghost predicate InTime(ttl: real, op: TicketOp, now: real)
    requires op.Issue?
  {
    now - op.mono < ttl && now - op.mono < op.session.expiresAt - op.wall
  }

  lemma DeadlineIsInTime(ttl: real, op: TicketOp, now: real)
    requires op.Issue? && op.mono <= now
    ensures now < Minted(ttl, op).deadline <==> InTime(ttl, op, now)
  {
  }

  /** A ticket proves a session exactly when it was issued for it within the TTL and within what the session
  had left, and has not been redeemed, purged or pushed out since. */
  lemma RedeemsExactlyInTime(ttl: real, max: nat, ops: seq<TicketOp>, ticket: string, now: real, grant: TicketGrant)
    requires AllFresh(ops) && ClockBy(ops, now)
    ensures Live(Held(ttl, max, ops), ticket, now) == Some(grant) <==>
              && ticket !in PushedOut(ttl, max, ops)
              && exists i: nat :: Standing(ops, i, ticket) && InTime(ttl, ops[i], now)
                             && grant == TicketGrant(ops[i].session, ops[i].bearer)
  {
    RedeemsExactlyOnce(ttl, max, ops, ticket, now);
    OutstandingStands(ttl, ops, ticket);
    if i: nat :| Standing(ops, i, ticket) {
      DeadlineIsInTime(ttl, ops[i], now);
    }
  }

  /** The wall clock is a fixed distance from the monotonic one at every issue. */
  ghost predicate IssuesInStep(ops: seq<TicketOp>, offset: real) {
    forall i :: 0 <= i < |ops| && ops[i].Issue? ==> ops[i].wall == ops[i].mono + offset
  }

  /** With the clocks in step, no ticket outlives the session it proves, nor its TTL; and one that neither has
  overtaken, and nothing has taken out, proves it. */
  lemma RedeemsBeforeExpiry(ttl: real, max: nat, ops: seq<TicketOp>, ticket: string, now: real, offset: real)
    requires AllFresh(ops) && ClockBy(ops, now) && IssuesInStep(ops, offset)
    ensures var grant := Live(Held(ttl, max, ops), ticket, now);
            && (grant.Some? ==>
                  && now + offset < grant.value.session.expiresAt
                  && exists i: nat :: Standing(ops, i, ticket) && now < ops[i].mono + ttl)
            && (forall i: nat :: Standing(ops, i, ticket) && ticket !in PushedOut(ttl, max, ops) ==>
                  now < ops[i].mono + ttl && now + offset < ops[i].session.expiresAt ==>
                    grant == Some(TicketGrant(ops[i].session, ops[i].bearer)))
  {
    var grant := Live(Held(ttl, max, ops), ticket, now);
    if grant.Some? {
      RedeemsExactlyInTime(ttl, max, ops, ticket, now, grant.value);
    }
    forall i: nat | Standing(ops, i, ticket) && ticket !in PushedOut(ttl, max, ops)
               && now < ops[i].mono + ttl && now + offset < ops[i].session.expiresAt
      ensures grant == Some(TicketGrant(ops[i].session, ops[i].bearer))
    {
      RedeemsExactlyInTime(ttl, max, ops, ticket, now, TicketGrant(ops[i].session, ops[i].bearer));
    }
  }

  /** A second redemption of anything, at any time, proves nothing. */
  lemma NoSecondRedemption(ttl: real, max: nat, ops: seq<TicketOp>, later: seq<TicketOp>, ticket: string, at: real,
                           now: real)
    requires AllFresh(ops + [Redeem(ticket, at)] + later) && ClockBy(ops + [Redeem(ticket, at)] + later, now)
    requires EverIssued(ops, ticket)
    ensures Live(Held(ttl, max, ops + [Redeem(ticket, at)] + later), ticket, now) == None
  {
    var all := ops + [Redeem(ticket, at)] + later;
    RedeemsExactlyOnce(ttl, max, all, ticket, now);
    var i :| 0 <= i < |ops| && Issues(ops[i], ticket);
    assert Issues(all[i], ticket);
    forall j | 0 <= j < |later| ensures !Issues(later[j], ticket) {
      assert all[|ops| + 1 + j] == later[j];
    }
    StaysRedeemed(ttl, ops, later, ticket, at);
  }

  lemma {:induction false} StaysRedeemed(ttl: real, ops: seq<TicketOp>, later: seq<TicketOp>, ticket: string, at: real)
    requires forall j :: 0 <= j < |later| ==> !Issues(later[j], ticket)
    ensures Outstanding(ttl, ops + [Redeem(ticket, at)] + later, ticket) == None
  {
    var all := ops + [Redeem(ticket, at)] + later;
    if later == [] {
      assert all[..|all| - 1] == ops;
    } else {
      StaysRedeemed(ttl, ops, later[..|later| - 1], ticket, at);
      assert all[..|all| - 1] == ops + [Redeem(ticket, at)] + later[..|later| - 1];
    }
  }

  // ---------------------------------------------------------------- the bound

  function IssuedAt(ops: seq<TicketOp>, ticket: string): int {
    if ops == [] then -1
    else if Issues(ops[|ops| - 1], ticket) then |ops| - 1
    else IssuedAt(ops[..|ops| - 1], ticket)
  }

  ghost predicate InIssueOrder(ops: seq<TicketOp>, d: seq<Ticket>) {
    forall i, j :: 0 <= i < j < |d| ==> IssuedAt(ops, d[i].key) < IssuedAt(ops, d[j].key)
  }

  lemma {:induction false} IssuedAtRange(ops: seq<TicketOp>, ticket: string)
    ensures IssuedAt(ops, ticket) < |ops|
  {
    if ops != [] {
      IssuedAtRange(ops[..|ops| - 1], ticket);
    }
  }

  lemma {:induction false} FilteredInOrder(ops: seq<TicketOp>, d: seq<Ticket>, keep: Ticket -> bool)
    requires InIssueOrder(ops, d)
    ensures InIssueOrder(ops, Filtered(d, keep))
    ensures forall i :: 0 <= i < |Filtered(d, keep)| ==> Filtered(d, keep)[i] in d
  {
    if d != [] {
      FilteredInOrder(ops, d[..|d| - 1], keep);
    }
  }

  lemma RemovedInOrder(ops: seq<TicketOp>, d: seq<Ticket>, key: string)
    requires InIssueOrder(ops, d)
    ensures InIssueOrder(ops, Remove(d, key))
  {
    var p, r := Position(d, key), Remove(d, key);
    if p < |d| {
      forall i, j | 0 <= i < j < |r| ensures IssuedAt(ops, r[i].key) < IssuedAt(ops, r[j].key) {
        assert r[i] == d[if i < p then i else i + 1] && r[j] == d[if j < p then j else j + 1];
      }
    }
  }

  lemma NewestLast(ops: seq<TicketOp>, op: TicketOp, d: seq<Ticket>, e: Ticket)
    requires Issues(op, e.key) && InIssueOrder(ops, d) && Find(d, e.key) == None
    ensures InIssueOrder(ops + [op], d + [e])
  {
    var ops', all := ops + [op], d + [e];
    assert ops'[..|ops|] == ops;
    forall i, j | 0 <= i < j < |all| ensures IssuedAt(ops', all[i].key) < IssuedAt(ops', all[j].key) {
      assert all[i] == d[i];
      IssuedAtRange(ops, d[i].key);
      if j < |d| {
        assert all[j] == d[j];
      }
    }
  }

  lemma {:induction false} HeldInOrder(ttl: real, max: nat, ops: seq<TicketOp>, now: real)
    requires AllFresh(ops) && ClockBy(ops, now)
    ensures InIssueOrder(ops, Held(ttl, max, ops)) && |Held(ttl, max, ops)| <= max
  {
    if ops != [] {
      var n := |ops| - 1;
      var op, d := ops[n], Held(ttl, max, ops[..n]);
      HeldInOrder(ttl, max, ops[..n], now);
      assert ops[..n] + [op] == ops;
      match op
      case Issue(t, _, _, _, _) =>
        WithTicketInOrder(ttl, max, ops[..n], op, now);
      case Redeem(t, _) =>
        RemovedInOrder(ops[..n], d, t);
        assert forall k :: IssuedAt(ops, k) == IssuedAt(ops[..n], k);
      case Purge(bearer) =>
        FilteredInOrder(ops[..n], d, (e: Ticket) => e.value.bearer != bearer);
        FilteredLength(d, (e: Ticket) => e.value.bearer != bearer);
        assert forall k :: IssuedAt(ops, k) == IssuedAt(ops[..n], k);
    }
  }

  lemma {:induction false} FilteredLength<V>(d: seq<Entry<V>>, keep: Entry<V> -> bool)
    ensures |Filtered(d, keep)| <= |d|
  {
    if d != [] {
      FilteredLength(d[..|d| - 1], keep);
    }
  }

  lemma WithTicketInOrder(ttl: real, max: nat, ops: seq<TicketOp>, op: TicketOp, now: real)
    requires op.Issue? && AllFresh(ops + [op]) && ClockBy(ops + [op], now) && InIssueOrder(ops, Held(ttl, max, ops))
    ensures InIssueOrder(ops + [op], WithTicket(ttl, Held(ttl, max, ops), op))
  {
    var d, all := Held(ttl, max, ops), ops + [op];
    assert forall i :: 0 <= i < |ops| ==> all[i] == ops[i];
    StoreTracks(ttl, max, ops, op.ticket, now);
    if EverIssued(ops, op.ticket) {
      var i :| 0 <= i < |ops| && Issues(ops[i], op.ticket);
      assert Issues(all[i], op.ticket) && Issues(all[|ops|], op.ticket);
    }
    FilteredInOrder(ops, d, (e: Ticket) => op.mono < e.deadline);
    FilteredFind(d, (e: Ticket) => op.mono < e.deadline, op.ticket);
    NewestLast(ops, op, Pruned(d, op.mono), Minted(ttl, op));
  }

  /** At every issue the outstanding tickets stay within the maximum, and any dropped for it were
  issued before every one kept. */
  lemma OverflowDropsOldest(ttl: real, max: nat, ops: seq<TicketOp>, op: TicketOp, now: real, dropped: string,
                            kept: string)
    requires op.Issue? && AllFresh(ops + [op]) && ClockBy(ops + [op], now)
    requires dropped in DroppedBy(WithTicket(ttl, Held(ttl, max, ops), op), max)
    requires Find(Held(ttl, max, ops + [op]), kept).Some?
    ensures IssuedAt(ops + [op], dropped) < IssuedAt(ops + [op], kept)
    ensures |Held(ttl, max, ops + [op])| == max
  {
    var d := WithTicket(ttl, Held(ttl, max, ops), op);
    assert (ops + [op])[..|ops|] == ops;
    assert forall i :: 0 <= i < |ops| ==> (ops + [op])[i] == ops[i];
    HeldInOrder(ttl, max, ops, now);
    WithTicketInOrder(ttl, max, ops, op, now);
    PrefixIsOlder(ops + [op], d, max, dropped, kept);
  }

  lemma PrefixIsOlder(ops: seq<TicketOp>, d: seq<Ticket>, max: nat, dropped: string, kept: string)
    requires InIssueOrder(ops, d) && dropped in DroppedBy(d, max) && Find(Trimmed(d, max), kept).Some?
    ensures IssuedAt(ops, dropped) < IssuedAt(ops, kept) && |Trimmed(d, max)| == max
  {
    var t := Trimmed(d, max);
    var i :| 0 <= i < |d| - |t| && d[i].key == dropped;
    var k := |d| - |t| + Position(t, kept);
    assert t == d[|d| - |t|..] && i < k < |d|;
    assert d[k].key == kept;
  }
}
