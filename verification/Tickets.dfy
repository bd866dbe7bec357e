/** WebSocket tickets: single use, valid for at most thirty seconds, and bounded in number. */
module Tickets {
  import opened Wrappers
  import opened Stores

  /** What a redeemed ticket proves. The bearer is known by its digest. */
  datatype TicketGrant = TicketGrant(session: AdminSession, bearer: string)

  type Ticket = Entry<TicketGrant>

  function Filtered<V>(d: seq<Entry<V>>, keep: Entry<V> -> bool): seq<Entry<V>> {
    if d == [] then []
    else Filtered(d[..|d| - 1], keep) + if keep(d[|d| - 1]) then [d[|d| - 1]] else []
  }

  function Pruned(d: seq<Ticket>, now: real): seq<Ticket> {
    Filtered(d, (e: Ticket) => now < e.deadline)
  }

  function Purged(d: seq<Ticket>, bearer: string): seq<Ticket> {
    Filtered(d, (e: Ticket) => e.value.bearer != bearer)
  }

  /** `d[key] = v`, which keeps the place of a key already there. */
  function SetItem<V>(d: seq<Entry<V>>, e: Entry<V>): seq<Entry<V>> {
    var p := Position(d, e.key);
    if p < |d| then d[p := e] else d + [e]
  }

  function Lifetime(ttl: real, session: AdminSession, wall: real): real {
    var shorter := Min(ttl, session.SecondsLeft(wall));
    if shorter < 0.0 then 0.0 else shorter
  }

  datatype TicketOp =
    | Issue(ticket: string, session: AdminSession, bearer: string, mono: real, wall: real)
    | Redeem(ticket: string, now: real)
    | Purge(bearer: string)

  function Minted(ttl: real, op: TicketOp): Ticket
    requires op.Issue?
  {
    Entry(op.ticket, op.mono + Lifetime(ttl, op.session, op.wall), TicketGrant(op.session, op.bearer))
  }

  /** The store with the new ticket, before the oldest are dropped. */
  function WithTicket(ttl: real, d: seq<Ticket>, op: TicketOp): seq<Ticket>
    requires op.Issue?
  {
    SetItem(Pruned(d, op.mono), Minted(ttl, op))
  }

  function TicketDone(ttl: real, max: nat, d: seq<Ticket>, op: TicketOp): seq<Ticket> {
    match op
    case Issue(_, _, _, _, _) => Trimmed(WithTicket(ttl, d, op), max)
    case Redeem(ticket, _) => Remove(d, ticket)
    case Purge(bearer) => Purged(d, bearer)
  }

  function Held(ttl: real, max: nat, ops: seq<TicketOp>): seq<Ticket> {
    if ops == [] then [] else TicketDone(ttl, max, Held(ttl, max, ops[..|ops| - 1]), ops[|ops| - 1])
  }

  class TicketStore {
    const ttl: real
    const maxOutstanding: nat
    var tickets: seq<Ticket>
    ghost var ops: seq<TicketOp>

    ghost predicate Valid()
      reads this
    {
      tickets == Held(ttl, maxOutstanding, ops)
    }

    constructor (ttl: real, maxOutstanding: nat)
      ensures Valid() && ops == [] && this.ttl == ttl && this.maxOutstanding == maxOutstanding
    {
      this.ttl, this.maxOutstanding := ttl, maxOutstanding;
      tickets, ops := [], [];
    }

    /** Mint `ticket`, drawn by the caller from the system's random source; return its lifetime. */
    method Issue(ticket: string, session: AdminSession, bearer: string, mono: real, wall: real) returns (lifetime: real)
      requires Valid()
      modifies this
      ensures Valid() && ops == old(ops) + [TicketOp.Issue(ticket, session, bearer, mono, wall)]
      ensures lifetime == Lifetime(ttl, session, wall)
      ensures lifetime > 0.0 <==> ttl > 0.0 && wall < session.expiresAt
      ensures lifetime > 0.0 ==> lifetime <= ttl && wall + lifetime <= session.expiresAt
      ensures lifetime == 0.0 || lifetime == ttl || wall + lifetime == session.expiresAt
    {
      ghost var op := TicketOp.Issue(ticket, session, bearer, mono, wall);
      assert (ops + [op])[..|ops|] == ops;
      ops := ops + [op];
      tickets := Prune(mono);
      lifetime := Lifetime(ttl, session, wall);
      var minted := SetItem(tickets, Entry(ticket, mono + lifetime, TicketGrant(session, bearer)));
      tickets := TrimOldest(minted, maxOutstanding);
    }

    method Prune(now: real) returns (live: seq<Ticket>)
      ensures live == Pruned(tickets, now)
    {
      live := [];
      for i := 0 to |tickets|
        invariant live == Pruned(tickets[..i], now)
      {
        assert tickets[..i + 1][..i] == tickets[..i];
        if now < tickets[i].deadline {
          live := live + [tickets[i]];
        }
      }
      assert tickets[..|tickets|] == tickets;
    }

    /** Take the ticket out, and answer what it proves if it has not lapsed. A request without one leaves the
    store as it is. */
    method Redeem(ticket: Option<string>, now: real) returns (grant: Option<TicketGrant>)
      requires Valid()
      modifies this
      ensures Valid()
      ensures ticket.None? ==> grant == None && ops == old(ops)
      ensures ticket.Some? ==>
                grant == Live(old(tickets), ticket.value, now) && ops == old(ops) + [TicketOp.Redeem(ticket.value, now)]
    {
      if ticket.None? {
        return None;
      }
      assert (ops + [TicketOp.Redeem(ticket.value, now)])[..|ops|] == ops;
      ops := ops + [TicketOp.Redeem(ticket.value, now)];
      var p := Position(tickets, ticket.value);
      if p == |tickets| {
        return None;
      }
      var entry := tickets[p];
      tickets := Remove(tickets, ticket.value);
      if now >= entry.deadline {
        return None;
      }
      return Some(entry.value);
    }

    /** Drop every outstanding ticket of one bearer. */
    method Purge(bearer: string)
      requires Valid()
      modifies this
      ensures Valid() && ops == old(ops) + [TicketOp.Purge(bearer)]
    {
      assert (ops + [TicketOp.Purge(bearer)])[..|ops|] == ops;
      ops := ops + [TicketOp.Purge(bearer)];
      var kept: seq<Ticket> := [];
      for i := 0 to |tickets|
        invariant kept == Purged(tickets[..i], bearer)
      {
        assert tickets[..i + 1][..i] == tickets[..i];
        if tickets[i].value.bearer != bearer {
          kept := kept + [tickets[i]];
        }
      }
      assert tickets[..|tickets|] == tickets;
      tickets := kept;
    }
  }
}
