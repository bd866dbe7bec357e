/** The session gate: a bearer is honoured on catalog-api's word, reused for a short while. A validation
is two steps with the upstream call between them, so other validations and logouts may come between. */
module Gate {
  import opened Wrappers
  import opened Stores
  import opened Tickets

  datatype Reason = Invalid | Unavailable

  /** catalog-api's reply; the body is the session it parsed to, if it parsed. */
  datatype Response = NoReply | Reply(status: int, body: Option<AdminSession>)

  datatype Answer = Granted(session: AdminSession) | Refused | Unanswered

  function Fetched(r: Response, wall: real): Answer {
    match r
    case NoReply => Unanswered
    case Reply(status, body) =>
      if status == 401 || status == 403 then Refused
      else if status != 200 || body.None? then Unanswered
      else if body.value.SecondsLeft(wall) <= 0.0 then Refused
      else Granted(body.value)
  }

  /** A session is granted on a parsed 200 reply alone, and only while it has time left; a refusal is a 401, a
  403, or a session already over; everything else answers nothing. */
  lemma FetchedMeans(r: Response, wall: real)
    ensures forall session :: Fetched(r, wall) == Granted(session) <==>
              r == Reply(200, Some(session)) && wall < session.expiresAt
    ensures Fetched(r, wall).Refused? <==>
            r.Reply? && (r.status == 401 || r.status == 403
                         || (r.status == 200 && r.body.Some? && wall >= r.body.value.expiresAt))
  {
  }

  datatype Decision = Accept(session: AdminSession) | Reject | Ask

  /** What the gate holds: live sessions and dead bearers, both by digest. */
  datatype Shelves = Shelves(cache: seq<Entry<AdminSession>>, invalid: seq<Entry<()>>)

  datatype Limits = Limits(ttl: real, maxSessions: nat, maxInvalid: nat)

  function Begun(g: Shelves, key: string, anew: bool, mono: real): (Shelves, Decision) {
    var cached := if anew then None else Live(g.cache, key, mono);
    var cache := if anew then g.cache else Looked(g.cache, key, mono);
    if cached.Some? then (g.(cache := cache), Accept(cached.value))
    else
      (Shelves(cache, Looked(g.invalid, key, mono)), if Live(g.invalid, key, mono).Some? then Reject else Ask)
  }

  function Ended(l: Limits, g: Shelves, key: string, answer: Answer, mono: real, wall: real): Shelves {
    match answer
    case Granted(session) => g.(cache := Trimmed(Done(g.cache, PutOp(l.ttl, key, session, mono, wall)), l.maxSessions))
    case Refused =>
      Shelves(Remove(g.cache, key), Trimmed(PutLast(g.invalid, Entry(key, mono + INVALID_ANSWER_SECONDS, ())),
                                            l.maxInvalid))
    case Unanswered => g
  }

  class SessionGate {
    const cache: SessionCache
    const tickets: TicketStore
    const invalid: InvalidAnswers

    ghost predicate Valid()
      reads this, cache, invalid, tickets
    {
      && cache.Valid() && invalid.Valid() && tickets.Valid()
      && invalid.ttl == INVALID_ANSWER_SECONDS
      && cache as object != invalid && cache as object != tickets && invalid as object != tickets
    }

    function Holds(): Shelves
      reads cache, invalid
    {
      Shelves(cache.entries, invalid.entries)
    }

    function Bounds(): Limits {
      Limits(cache.ttl, cache.maxEntries, invalid.maxEntries)
    }

    constructor (cacheSeconds: real)
      ensures Valid() && fresh(cache) && fresh(invalid) && fresh(tickets)
      ensures Holds() == Shelves([], []) && Bounds().maxSessions == 1024 && Bounds().maxInvalid == 4096
      ensures Bounds().ttl == if cacheSeconds < 0.0 then 0.0 else if cacheSeconds > 30.0 then 30.0 else cacheSeconds
      ensures tickets.ttl == 30.0 && tickets.maxOutstanding == 4096 && invalid.ttl == 10.0
    {
      cache := new SessionCache(cacheSeconds, MAX_CACHED_SESSIONS);
      tickets := new TicketStore(WS_TICKET_SECONDS, MAX_OUTSTANDING_TICKETS);
      invalid := new InvalidAnswers(INVALID_ANSWER_SECONDS, MAX_INVALID_ANSWERS);
    }

    /** A validation up to the upstream call; `anew` skips the positive cache. */
    method Begin(key: string, anew: bool, mono: real) returns (decision: Decision)
      requires Valid()
      modifies cache, invalid
      ensures Valid()
      ensures (Holds(), decision) == Begun(old(Holds()), key, anew, mono)
    {
      if !anew {
        var cached := cache.Get(key, mono);
        if cached.Some? {
          return Accept(cached.value);
        }
      }
      var held := invalid.Holds(key, mono);
      decision := if held then Reject else Ask;
    }

    /** A validation from the upstream call's reply on. */
    method End(key: string, response: Response, mono: real, wall: real) returns (answer: Answer)
      requires Valid()
      modifies cache, invalid
      ensures Valid() && answer == Fetched(response, wall)
      ensures Holds() == Ended(Bounds(), old(Holds()), key, answer, mono, wall)
    {
      answer := Fetched(response, wall);
      match answer
      case Granted(session) => Honour(key, session, mono, wall);
      case Refused => Refuse(key, mono);
      case Unanswered =>
    }

    method Honour(key: string, session: AdminSession, mono: real, wall: real)
      requires Valid()
      modifies cache
      ensures Valid()
      ensures Holds() == Shelves(Trimmed(Done(old(Holds()).cache, PutOp(cache.ttl, key, session, mono, wall)),
                                         cache.maxEntries),
                                 old(Holds()).invalid)
    {
      cache.Put(key, session, mono, wall);
    }

    method Refuse(key: string, mono: real)
      requires Valid()
      modifies cache, invalid
      ensures Valid()
      ensures Holds() == Shelves(Remove(old(Holds()).cache, key),
                                 Trimmed(PutLast(old(Holds()).invalid, Entry(key, mono + INVALID_ANSWER_SECONDS, ())),
                                         invalid.maxEntries))
    {
      cache.Evict(key);
      invalid.Add(key, mono);
    }

    /** A logout: nothing of the bearer stays but a refusal, if one is remembered. */
    method Forget(key: string)
      requires Valid()
      modifies cache, tickets
      ensures Valid()
      ensures Holds() == Shelves(Remove(old(Holds()).cache, key), old(Holds()).invalid)
      ensures tickets.ops == old(tickets.ops) + [Purge(key)]
    {
      cache.Evict(key);
      tickets.Purge(key);
    }
  }

  // ---------------------------------------------------------------- every interleaving

  datatype Record =
    | Answered(key: string, answer: Answer, mono: real, wall: real)
    | Forgot(key: string)
    | Accepted(key: string, anew: bool, session: AdminSession, mono: real)
    | Rejected(key: string, reason: Reason, mono: real)

  /** The gate, the validations waiting for a reply, and everything that has happened, in order. */
  datatype State = State(shelves: Shelves, pending: map<nat, (string, bool)>, asked: nat, log: seq<Record>)

  const START := State(Shelves([], []), map[], 0, [])

  datatype Call =
    | Validate(key: string, anew: bool, mono: real)
    | Settle(id: nat, response: Response, mono: real, wall: real)
    | Logout(key: string)

  function Outcome(key: string, anew: bool, answer: Answer, mono: real): Record {
    match answer
    case Granted(session) => Accepted(key, anew, session, mono)
    case Refused => Rejected(key, Invalid, mono)
    case Unanswered => Rejected(key, Unavailable, mono)
  }

  function Step(l: Limits, s: State, c: Call): State {
    match c
    case Validate(key, anew, mono) =>
      var (shelves, decision) := Begun(s.shelves, key, anew, mono);
      (match decision
       case Accept(session) => s.(shelves := shelves, log := s.log + [Accepted(key, anew, session, mono)])
       case Reject => s.(shelves := shelves, log := s.log + [Rejected(key, Invalid, mono)])
       case Ask => s.(shelves := shelves, pending := s.pending[s.asked := (key, anew)], asked := s.asked + 1))
    case Settle(id, response, mono, wall) =>
      if id !in s.pending then s
      else
        var (key, anew) := s.pending[id];
        var answer := Fetched(response, wall);
        s.(shelves := Ended(l, s.shelves, key, answer, mono, wall), pending := s.pending - {id},
           log := s.log + [Answered(key, answer, mono, wall), Outcome(key, anew, answer, mono)])
    case Logout(key) =>
      s.(shelves := s.shelves.(cache := Remove(s.shelves.cache, key)), log := s.log + [Forgot(key)])
  }

  function Run(l: Limits, calls: seq<Call>): State {
    if calls == [] then START else Step(l, Run(l, calls[..|calls| - 1]), calls[|calls| - 1])
  }
}
