/** What an accepted or rejected validation rests on, whatever else the gate was doing. */
module GateTheorems {
  import opened Wrappers
  import opened Stores
  import opened StoreTheorems
  import opened Gate

  /** A logout, or catalog-api's refusal, of this bearer. */
  predicate Ends(r: Record, key: string) {
    r == Forgot(key) || (r.Answered? && r.key == key && r.answer.Refused?)
  }

  /** `log[i]` is a 200 answer for this session, with nothing since that ends it. */
  ghost predicate StandsOn(log: seq<Record>, i: nat, key: string, session: AdminSession) {
    && i < |log|
    && log[i].Answered? && log[i].key == key && log[i].answer == Granted(session)
    && forall j :: i < j < |log| ==> !Ends(log[j], key)
  }

  /** How long the answer at `log[i]` may be reused. */
  function Reuse(l: Limits, log: seq<Record>, i: nat): real
    requires i < |log| && log[i].Answered? && log[i].answer.Granted?
  {
    Min(l.ttl, log[i].answer.session.SecondsLeft(log[i].wall))
  }

  /** A cached session was answered for, and is kept exactly as long as that answer may be reused. */
  ghost predicate EntryOk(l: Limits, log: seq<Record>, e: Entry<AdminSession>) {
    exists i: nat :: StandsOn(log, i, e.key, e.value) && e.deadline == log[i].mono + Reuse(l, log, i)
  }

  /** A remembered refusal was answered, ten seconds before it lapses. */
  ghost predicate RefusalOk(log: seq<Record>, e: Entry<()>) {
    exists i: nat :: RefusedAt(log, i, e.key) && e.deadline == log[i].mono + INVALID_ANSWER_SECONDS
  }

  predicate RefusedAt(log: seq<Record>, i: nat, key: string) {
    i < |log| && log[i].Answered? && log[i].key == key && log[i].answer.Refused?
  }

  /** This call's own reply, just before the record at `t`, told the gate nothing. */
  predicate UnansweredBefore(log: seq<Record>, t: nat, key: string)
    requires t < |log|
  {
    t > 0 && log[t - 1].Answered? && log[t - 1].key == key && log[t - 1].answer.Unanswered?
  }

  /** The record at `t`, made at `mono`, is the outcome of the answer at `i`. */
  predicate OwnAnswer(log: seq<Record>, i: nat, t: nat, mono: real)
    requires i < |log|
  {
    i + 1 == t && log[i].Answered? && log[i].mono == mono
  }

  /** What the record at `t` rests on in the log before it; and a session is granted only while it lasts. */
  ghost predicate RecordOk(l: Limits, log: seq<Record>, t: nat)
    requires t < |log|
  {
    match log[t]
    case Accepted(key, anew, session, mono) =>
      exists i: nat :: StandsOn(log[..t], i, key, session)
        && (OwnAnswer(log, i, t, mono) || (!anew && mono < log[i].mono + Reuse(l, log, i)))
    case Rejected(key, reason, mono) =>
      if reason.Unavailable? then UnansweredBefore(log, t, key)
      else exists i: nat ::
        RefusedAt(log[..t], i, key) && (OwnAnswer(log, i, t, mono) || mono < log[i].mono + INVALID_ANSWER_SECONDS)
    case Answered(_, answer, _, wall) => answer.Granted? ==> answer.session.SecondsLeft(wall) > 0.0
    case Forgot(_) => true
  }

  ghost predicate Inv(l: Limits, s: State) {
    && Distinct(s.shelves.cache) && Distinct(s.shelves.invalid)
    && (forall e :: e in s.shelves.cache ==> EntryOk(l, s.log, e))
    && (forall e :: e in s.shelves.invalid ==> RefusalOk(s.log, e))
    && (forall t :: 0 <= t < |s.log| ==> RecordOk(l, s.log, t))
  }

  // ---------------------------------------------------------------- the log only grows

  lemma EntryStaysOk(l: Limits, log: seq<Record>, more: seq<Record>, e: Entry<AdminSession>)
    requires EntryOk(l, log, e)
    requires forall j :: 0 <= j < |more| ==> !Ends(more[j], e.key)
    ensures EntryOk(l, log + more, e)
  {
    var i: nat :| StandsOn(log, i, e.key, e.value) && e.deadline == log[i].mono + Reuse(l, log, i);
    assert (log + more)[i] == log[i];
    assert StandsOn(log + more, i, e.key, e.value);
  }

  lemma RefusalStaysOk(log: seq<Record>, more: seq<Record>, e: Entry<()>)
    requires RefusalOk(log, e)
    ensures RefusalOk(log + more, e)
  {
    var i: nat :| RefusedAt(log, i, e.key) && e.deadline == log[i].mono + INVALID_ANSWER_SECONDS;
    assert RefusedAt(log + more, i, e.key);
  }

  lemma RecordStaysOk(l: Limits, log: seq<Record>, more: seq<Record>, t: nat)
    requires t < |log| && RecordOk(l, log, t)
    ensures RecordOk(l, log + more, t)
  {
    var all := log + more;
    assert all[..t] == log[..t] && all[t] == log[t];
    match log[t]
    case Accepted(key, anew, session, mono) =>
      var i: nat :| StandsOn(log[..t], i, key, session)
          && (OwnAnswer(log, i, t, mono) || (!anew && mono < log[i].mono + Reuse(l, log, i)));
      assert all[i] == log[i];
      assert StandsOn(all[..t], i, key, session);
    case Rejected(key, reason, mono) =>
      if reason.Invalid? {
        var i: nat :| RefusedAt(log[..t], i, key)
            && (OwnAnswer(log, i, t, mono) || mono < log[i].mono + INVALID_ANSWER_SECONDS);
        assert all[i] == log[i] && RefusedAt(all[..t], i, key);
      }
    case _ =>
  }

  lemma RecordsStayOk(l: Limits, log: seq<Record>, more: seq<Record>)
    requires forall t :: 0 <= t < |log| ==> RecordOk(l, log, t)
    ensures forall t :: 0 <= t < |log| ==> RecordOk(l, log + more, t)
  {
    forall t | 0 <= t < |log| ensures RecordOk(l, log + more, t) {
      RecordStaysOk(l, log, more, t);
    }
  }

  // ---------------------------------------------------------------- what the stores keep

  lemma RemoveIsPart<V>(d: seq<Entry<V>>, key: string)
    requires Distinct(d)
    ensures Distinct(Remove(d, key))
    ensures forall e :: e in Remove(d, key) ==> e in d && e.key != key
  {
    RemoveKeepsDistinct(d, key);
  }

  lemma LookedIsPart<V>(d: seq<Entry<V>>, key: string, now: real)
    requires Distinct(d)
    ensures Distinct(Looked(d, key, now))
    ensures forall e :: e in Looked(d, key, now) ==> e in d
  {
    RemoveIsPart(d, key);
  }

  lemma TrimmedIsPart<V>(d: seq<Entry<V>>, max: nat)
    requires Distinct(d)
    ensures Distinct(Trimmed(d, max))
    ensures forall x :: x in Trimmed(d, max) ==> x in d
  {
  }

  lemma PutLastIsPart<V>(d: seq<Entry<V>>, e: Entry<V>)
    requires Distinct(d)
    ensures Distinct(PutLast(d, e))
    ensures forall x :: x in PutLast(d, e) ==> x == e || (x in d && x.key != e.key)
  {
    RemoveIsPart(d, e.key);
  }

  lemma KeptIsPart<V>(d: seq<Entry<V>>, e: Entry<V>, max: nat)
    requires Distinct(d)
    ensures Distinct(Trimmed(PutLast(d, e), max))
    ensures forall x :: x in Trimmed(PutLast(d, e), max) ==> x == e || (x in d && x.key != e.key)
  {
    PutLastIsPart(d, e);
    TrimmedIsPart(PutLast(d, e), max);
  }

  lemma LiveIsEntry<V>(d: seq<Entry<V>>, key: string, now: real) returns (e: Entry<V>)
    requires Live(d, key, now).Some?
    ensures e in d && e.key == key && now < e.deadline && Live(d, key, now) == Some(e.value)
  {
    e := d[Position(d, key)];
  }

  // ---------------------------------------------------------------- every step

  lemma ValidateKeeps(l: Limits, s: State, key: string, anew: bool, mono: real)
    requires Inv(l, s)
    ensures Inv(l, Step(l, s, Validate(key, anew, mono)))
  {
    var g := s.shelves;
    var s' := Step(l, s, Validate(key, anew, mono));
    LookedIsPart(g.cache, key, mono);
    LookedIsPart(g.invalid, key, mono);
    if s'.log != s.log {
      var r := s'.log[|s.log|];
      assert s'.log == s.log + [r];
      RecordsStayOk(l, s.log, [r]);
      assert s'.log[..|s.log|] == s.log;
      if r.Accepted? {
        var e := LiveIsEntry(g.cache, key, mono);
        var i: nat :| StandsOn(s.log, i, e.key, e.value) && e.deadline == s.log[i].mono + Reuse(l, s.log, i);
        assert s'.log[i] == s.log[i];
      } else {
        var e := LiveIsEntry(g.invalid, key, mono);
        var i: nat :| RefusedAt(s.log, i, e.key) && e.deadline == s.log[i].mono + INVALID_ANSWER_SECONDS;
        assert s'.log[i] == s.log[i];
      }
      StoresStayOk(l, s, [r]);
    }
  }

  lemma StoresStayOk(l: Limits, s: State, more: seq<Record>)
    requires Inv(l, s)
    ensures forall e :: e in s.shelves.cache && (forall j :: 0 <= j < |more| ==> !Ends(more[j], e.key)) ==>
            EntryOk(l, s.log + more, e)
    ensures forall e :: e in s.shelves.invalid ==> RefusalOk(s.log + more, e)
  {
    forall e | e in s.shelves.cache && (forall j :: 0 <= j < |more| ==> !Ends(more[j], e.key))
      ensures EntryOk(l, s.log + more, e)
    {
      EntryStaysOk(l, s.log, more, e);
    }
    forall e | e in s.shelves.invalid ensures RefusalOk(s.log + more, e) {
      RefusalStaysOk(s.log, more, e);
    }
  }

  lemma LogoutKeeps(l: Limits, s: State, key: string)
    requires Inv(l, s)
    ensures Inv(l, Step(l, s, Logout(key)))
  {
    RemoveIsPart(s.shelves.cache, key);
    RecordsStayOk(l, s.log, [Forgot(key)]);
    StoresStayOk(l, s, [Forgot(key)]);
  }

  lemma OutcomeRecordsOk(l: Limits, s: State, key: string, anew: bool, answer: Answer, mono: real, wall: real)
    requires Inv(l, s) && (answer.Granted? ==> answer.session.SecondsLeft(wall) > 0.0)
    ensures var log := s.log + [Answered(key, answer, mono, wall), Outcome(key, anew, answer, mono)];
            forall t :: 0 <= t < |log| ==> RecordOk(l, log, t)
  {
    var more := [Answered(key, answer, mono, wall), Outcome(key, anew, answer, mono)];
    var log, n := s.log + more, |s.log|;
    RecordsStayOk(l, s.log, more);
    assert log[..n + 1] == s.log + [more[0]] && log[n] == more[0] && log[n + 1] == more[1];
    match answer
    case Granted(session) => assert StandsOn(log[..n + 1], n, key, session);
    case Refused => assert RefusedAt(log[..n + 1], n, key);
    case Unanswered =>
  }

  lemma RefusalKeeps(l: Limits, s: State, key: string, after: Record, mono: real, wall: real)
    requires Inv(l, s) && !after.Answered? && !after.Forgot?
    ensures var log := s.log + [Answered(key, Refused, mono, wall), after];
            var g := Ended(l, s.shelves, key, Refused, mono, wall);
            && Distinct(g.cache) && Distinct(g.invalid)
            && (forall e :: e in g.cache ==> EntryOk(l, log, e)) && (forall e :: e in g.invalid ==> RefusalOk(log, e))
  {
    var more := [Answered(key, Refused, mono, wall), after];
    var entry := Entry(key, mono + INVALID_ANSWER_SECONDS, ());
    StoresStayOk(l, s, more);
    RemoveIsPart(s.shelves.cache, key);
    KeptIsPart(s.shelves.invalid, entry, l.maxInvalid);
    assert (s.log + more)[|s.log|] == more[0];
    assert RefusedAt(s.log + more, |s.log|, key);
  }

  lemma SettleKeeps(l: Limits, s: State, id: nat, response: Response, mono: real, wall: real)
    requires Inv(l, s) && id in s.pending
    ensures Inv(l, Step(l, s, Settle(id, response, mono, wall)))
  {
    var (key, anew) := s.pending[id];
    var answer := Fetched(response, wall);
    OutcomeRecordsOk(l, s, key, anew, answer, mono, wall);
    match answer
    case Granted(session) =>
      GrantKeeps(l, s, key, anew, session, mono, wall);
      StoresStayOk(l, s, [Answered(key, answer, mono, wall), Outcome(key, anew, answer, mono)]);
    case Refused => RefusalKeeps(l, s, key, Outcome(key, anew, answer, mono), mono, wall);
    case Unanswered => StoresStayOk(l, s, [Answered(key, answer, mono, wall), Outcome(key, anew, answer, mono)]);
  }

  lemma NewEntryOk(l: Limits, log: seq<Record>, after: Record, key: string, session: AdminSession, mono: real,
                   wall: real)
    requires PutOp(l.ttl, key, session, mono, wall).Keep? && !Ends(after, key)
    ensures EntryOk(l, log + [Answered(key, Granted(session), mono, wall), after],
                    PutOp(l.ttl, key, session, mono, wall).entry)
  {
    var all := log + [Answered(key, Granted(session), mono, wall), after];
    assert all[|log|] == Answered(key, Granted(session), mono, wall) && all[|log| + 1] == after;
    assert StandsOn(all, |log|, key, session);
  }

  /** What an answer caches is the new entry, or was there before and is of another bearer. */
  lemma GrantedEntries(l: Limits, g: Shelves, key: string, session: AdminSession, mono: real, wall: real)
    requires Distinct(g.cache)
    ensures var op, cache := PutOp(l.ttl, key, session, mono, wall),
            Ended(l, g, key, Granted(session), mono, wall).cache;
            && Distinct(cache)
            && forall e :: e in cache ==> (op.Keep? && e == op.entry) || (e in g.cache && e.key != key)
  {
    var op := PutOp(l.ttl, key, session, mono, wall);
    if op.Keep? {
      KeptIsPart(g.cache, op.entry, l.maxSessions);
    } else {
      RemoveIsPart(g.cache, key);
    }
  }

  lemma GrantKeeps(l: Limits, s: State, key: string, anew: bool, session: AdminSession, mono: real, wall: real)
    requires Inv(l, s)
    ensures var log := s.log + [Answered(key, Granted(session), mono, wall), Accepted(key, anew, session, mono)];
            var cache := Ended(l, s.shelves, key, Granted(session), mono, wall).cache;
            Distinct(cache) && forall e :: e in cache ==> EntryOk(l, log, e)
  {
    var op := PutOp(l.ttl, key, session, mono, wall);
    var after := Accepted(key, anew, session, mono);
    var more := [Answered(key, Granted(session), mono, wall), after];
    var cache := Ended(l, s.shelves, key, Granted(session), mono, wall).cache;
    GrantedEntries(l, s.shelves, key, session, mono, wall);
    forall e | e in cache ensures EntryOk(l, s.log + more, e) {
      if op.Keep? && e == op.entry {
        NewEntryOk(l, s.log, after, key, session, mono, wall);
      } else {
        EntryStaysOk(l, s.log, more, e);
      }
    }
  }

  lemma {:induction false} RunKeeps(l: Limits, calls: seq<Call>)
    ensures Inv(l, Run(l, calls))
  {
    if calls != [] {
      var s, c := Run(l, calls[..|calls| - 1]), calls[|calls| - 1];
      RunKeeps(l, calls[..|calls| - 1]);
      match c
      case Validate(key, anew, mono) => ValidateKeeps(l, s, key, anew, mono);
      case Settle(id, response, mono, wall) => if id in s.pending { SettleKeeps(l, s, id, response, mono, wall); }
      case Logout(key) => LogoutKeeps(l, s, key);
    }
  }

  /** In any run, with any overlap of validations and logouts: an accepted validation rests on a 200
  answer for that very session, with no logout or refusal of the bearer after it; the answer is this
  call's own, or (never for a fresh validation) younger than the TTL and than the life the session had
  left when it was given. */
  lemma AcceptsRestOnAnAnswer(l: Limits, calls: seq<Call>, t: nat)
    requires t < |Run(l, calls).log| && Run(l, calls).log[t].Accepted? && l.ttl <= SESSION_CACHE_MAX_SECONDS
    ensures var log := Run(l, calls).log;
            var r := log[t];
            exists i: nat :: StandsOn(log[..t], i, r.key, r.session)
              && (OwnAnswer(log, i, t, r.mono)
                  || (!r.anew && r.mono - log[i].mono < Reuse(l, log, i) <= 30.0))
  {
    RunKeeps(l, calls);
    var log := Run(l, calls).log;
    var r := log[t];
    assert RecordOk(l, log, t);
    var i: nat :| StandsOn(log[..t], i, r.key, r.session)
                  && (OwnAnswer(log, i, t, r.mono) || (!r.anew && r.mono < log[i].mono + Reuse(l, log, i)));
    assert StandsOn(log[..t], i, r.key, r.session);
  }

  /** The two clocks stand `offset` apart at every answer. */
  ghost predicate ClocksInStep(log: seq<Record>, offset: real) {
    forall i :: 0 <= i < |log| && log[i].Answered? ==> log[i].wall == log[i].mono + offset
  }

  /** With the clocks in step at every answer, nothing is accepted past its session's expiry, on whatever
  answer it rests. */
  lemma AcceptsBeforeExpiry(l: Limits, calls: seq<Call>, t: nat, offset: real)
    requires t < |Run(l, calls).log| && Run(l, calls).log[t].Accepted? && ClocksInStep(Run(l, calls).log, offset)
    ensures var r := Run(l, calls).log[t]; r.mono + offset < r.session.expiresAt
  {
    RunKeeps(l, calls);
    var log := Run(l, calls).log;
    var r := log[t];
    assert RecordOk(l, log, t);
    var i: nat :| StandsOn(log[..t], i, r.key, r.session)
                  && (OwnAnswer(log, i, t, r.mono) || (!r.anew && r.mono < log[i].mono + Reuse(l, log, i)));
    assert RecordOk(l, log, i);
    assert log[..t][i] == log[i];
  }

  /** A rejection rests on this call's own answer, or, for an invalid bearer only, on a refusal less
  than ten seconds old: an unavailable answer is never reused. */
  lemma RejectionsRestOnAnAnswer(l: Limits, calls: seq<Call>, t: nat)
    requires t < |Run(l, calls).log| && Run(l, calls).log[t].Rejected?
    ensures var log := Run(l, calls).log;
            var r := log[t];
            if r.reason.Unavailable? then UnansweredBefore(log, t, r.key)
            else exists i: nat ::
              RefusedAt(log[..t], i, r.key)
              && (OwnAnswer(log, i, t, r.mono) || r.mono - log[i].mono < 10.0)
  {
    RunKeeps(l, calls);
    var log := Run(l, calls).log;
    var r := log[t];
    assert RecordOk(l, log, t);
    if r.reason.Invalid? {
      var i: nat :| RefusedAt(log[..t], i, r.key)
          && (OwnAnswer(log, i, t, r.mono) || r.mono < log[i].mono + INVALID_ANSWER_SECONDS);
      assert RefusedAt(log[..t], i, r.key);
    }
  }

  // ---------------------------------------------------------------- the bounds

  /** The stores as they would be without their bounds, after the same lookups, answers and logouts. */
  function Unbound(l: Limits, calls: seq<Call>): Shelves {
    if calls == [] then Shelves([], [])
    else UnboundStep(l, Run(l, calls[..|calls| - 1]), Unbound(l, calls[..|calls| - 1]), calls[|calls| - 1])
  }

  function UnboundStep(l: Limits, s: State, u: Shelves, c: Call): Shelves {
    match c
    case Validate(key, anew, mono) =>
      var cache := if anew then u.cache else Looked(u.cache, key, mono);
      Shelves(cache, if !anew && Live(s.shelves.cache, key, mono).Some? then u.invalid
              else Looked(u.invalid, key, mono))
    case Settle(id, response, mono, wall) =>
      if id in s.pending then UnboundEnded(l, u, s.pending[id].0, Fetched(response, wall), mono, wall) else u
    case Logout(key) => u.(cache := Remove(u.cache, key))
  }

  function UnboundEnded(l: Limits, u: Shelves, key: string, answer: Answer, mono: real, wall: real): Shelves {
    match answer
    case Granted(session) => u.(cache := Done(u.cache, PutOp(l.ttl, key, session, mono, wall)))
    case Refused => Shelves(Remove(u.cache, key), PutLast(u.invalid, Entry(key, mono + INVALID_ANSWER_SECONDS, ())))
    case Unanswered => u
  }

  ghost predicate Extends(u: Shelves, b: Shelves) {
    Distinct(u.cache) && Distinct(u.invalid) && IsSuffix(b.cache, u.cache) && IsSuffix(b.invalid, u.invalid)
  }

  lemma TrimmedPutKeepsSuffix<V>(b: seq<Entry<V>>, u: seq<Entry<V>>, e: Entry<V>, max: nat)
    requires Distinct(u) && IsSuffix(b, u)
    ensures Distinct(PutLast(u, e)) && IsSuffix(Trimmed(PutLast(b, e), max), PutLast(u, e))
  {
    DoneKeepsSuffix(b, u, Keep(e));
    TrimKeepsSuffix(max, PutLast(b, e), PutLast(u, e));
  }

  lemma EndedExtends(l: Limits, u: Shelves, b: Shelves, key: string, answer: Answer, mono: real, wall: real)
    requires Extends(u, b)
    ensures Extends(UnboundEnded(l, u, key, answer, mono, wall), Ended(l, b, key, answer, mono, wall))
  {
    match answer
    case Granted(session) =>
      var op := PutOp(l.ttl, key, session, mono, wall);
      DoneKeepsSuffix(b.cache, u.cache, op);
      TrimKeepsSuffix(l.maxSessions, Done(b.cache, op), Done(u.cache, op));
    case Refused =>
      DoneKeepsSuffix(b.cache, u.cache, Drop(key));
      TrimmedPutKeepsSuffix(b.invalid, u.invalid, Entry(key, mono + INVALID_ANSWER_SECONDS, ()), l.maxInvalid);
    case Unanswered =>
  }

  lemma LookedExtends<V>(b: seq<Entry<V>>, u: seq<Entry<V>>, key: string, now: real)
    requires Distinct(u) && IsSuffix(b, u)
    ensures Distinct(Looked(u, key, now)) && IsSuffix(Looked(b, key, now), Looked(u, key, now))
  {
    DoneKeepsSuffix(b, u, Look(key, now));
  }

  lemma ValidateShelves(l: Limits, s: State, key: string, anew: bool, mono: real)
    ensures var g := s.shelves;
            Step(l, s, Validate(key, anew, mono)).shelves ==
              Shelves(if anew then g.cache else Looked(g.cache, key, mono),
                      if !anew && Live(g.cache, key, mono).Some? then g.invalid else Looked(g.invalid, key, mono))
  {
  }

  lemma ValidateExtends(l: Limits, s: State, u: Shelves, key: string, anew: bool, mono: real)
    requires Extends(u, s.shelves)
    ensures var c := Validate(key, anew, mono); Extends(UnboundStep(l, s, u, c), Step(l, s, c).shelves)
  {
    var g := s.shelves;
    ValidateShelves(l, s, key, anew, mono);
    LookedExtends(g.cache, u.cache, key, mono);
    LookedExtends(g.invalid, u.invalid, key, mono);
  }

  lemma StepExtends(l: Limits, s: State, u: Shelves, c: Call)
    requires Extends(u, s.shelves)
    ensures Extends(UnboundStep(l, s, u, c), Step(l, s, c).shelves)
  {
    match c
    case Validate(key, anew, mono) => ValidateExtends(l, s, u, key, anew, mono);
    case Settle(id, response, mono, wall) =>
      if id in s.pending {
        EndedExtends(l, u, s.shelves, s.pending[id].0, Fetched(response, wall), mono, wall);
      }
    case Logout(key) => DoneKeepsSuffix(s.shelves.cache, u.cache, Drop(key));
  }

  lemma {:induction false} UnboundExtends(l: Limits, calls: seq<Call>)
    ensures Extends(Unbound(l, calls), Run(l, calls).shelves)
  {
    if calls != [] {
      UnboundExtends(l, calls[..|calls| - 1]);
      StepExtends(l, Run(l, calls[..|calls| - 1]), Unbound(l, calls[..|calls| - 1]), calls[|calls| - 1]);
    }
  }

  /** The larger stores would honour the bearer, and the smaller ones have lost its session but not a refusal
  of it. */
  predicate LostSessionOnly(b: Shelves, u: Shelves, key: string, anew: bool, mono: real) {
    !anew && Live(u.cache, key, mono).Some? && Live(b.cache, key, mono).None? && Live(b.invalid, key, mono).Some?
  }

  lemma FewerAsksMore(b: Shelves, u: Shelves, key: string, anew: bool, mono: real)
    requires Extends(u, b)
    ensures var small, large := Begun(b, key, anew, mono).1, Begun(u, key, anew, mono).1;
            (small == large || small.Ask?) <==> !LostSessionOnly(b, u, key, anew, mono)
  {
    if Find(b.cache, key).Some? {
      SuffixFind(b.cache, u.cache, key);
    }
    if Find(b.invalid, key).Some? {
      SuffixFind(b.invalid, u.invalid, key);
    }
  }

  /** At any point of any run, losing entries to the bounds does no more than make the gate ask catalog-api
  again, compared with stores without bounds after the same lookups, answers and logouts, exactly unless
  those would honour a session that the bounded ones lost while keeping a refusal of its bearer: then the
  gate rejects what they accept. */
  lemma EvictionAsksMoreUnless(l: Limits, calls: seq<Call>, key: string, anew: bool, mono: real)
    ensures var b, u := Run(l, calls).shelves, Unbound(l, calls);
            var small, large := Begun(b, key, anew, mono).1, Begun(u, key, anew, mono).1;
            && ((small == large || small.Ask?) <==> !LostSessionOnly(b, u, key, anew, mono))
            && (LostSessionOnly(b, u, key, anew, mono) ==> small.Reject? && large.Accept?)
  {
    UnboundExtends(l, calls);
    FewerAsksMore(Run(l, calls).shelves, Unbound(l, calls), key, anew, mono);
  }

  // ---------------------------------------------------------------- no bearer on both shelves

  predicate Apart(g: Shelves) {
    forall i, j :: 0 <= i < |g.cache| && 0 <= j < |g.invalid| ==> g.cache[i].key != g.invalid[j].key
  }

  lemma ApartByMembers(g: Shelves)
    requires forall c, x :: c in g.cache && x in g.invalid ==> c.key != x.key
    ensures Apart(g)
  {
    forall i, j | 0 <= i < |g.cache| && 0 <= j < |g.invalid| ensures g.cache[i].key != g.invalid[j].key {
      assert g.cache[i] in g.cache && g.invalid[j] in g.invalid;
    }
  }

  lemma NotHeldAfterMiss<V>(d: seq<Entry<V>>, key: string, now: real)
    requires Distinct(d) && Live(d, key, now).None?
    ensures Find(Looked(d, key, now), key).None?
  {
    RemoveFind(d, key, key);
  }

  lemma RefusalKeepsApart(l: Limits, g: Shelves, key: string, mono: real, wall: real)
    requires Distinct(g.cache) && Distinct(g.invalid) && Apart(g)
    ensures var g' := Ended(l, g, key, Refused, mono, wall);
            Distinct(g'.cache) && Distinct(g'.invalid) && Apart(g')
  {
    RemoveIsPart(g.cache, key);
    KeptIsPart(g.invalid, Entry(key, mono + INVALID_ANSWER_SECONDS, ()), l.maxInvalid);
    ApartByMembers(Ended(l, g, key, Refused, mono, wall));
  }

  lemma MemberIsFound<V>(d: seq<Entry<V>>, e: Entry<V>)
    requires Distinct(d) && e in d
    ensures Find(d, e.key).Some?
  {
    var i: nat :| i < |d| && d[i] == e;
    PositionIs(d, e.key, i);
  }

  lemma ApartFromOneMore(g: Shelves, cache: seq<Entry<AdminSession>>, key: string)
    requires Distinct(cache) && Distinct(g.invalid) && Apart(g)
    requires forall c :: c in cache ==> c.key == key || c in g.cache
    ensures Apart(g.(cache := cache)) <==> !(Find(g.invalid, key).Some? && Find(cache, key).Some?)
  {
    if Find(g.invalid, key).Some? && Find(cache, key).Some? {
      assert cache[Position(cache, key)].key == g.invalid[Position(g.invalid, key)].key;
    } else {
      forall c, x | c in cache && x in g.invalid ensures c.key != x.key {
        if c.key == key {
          MemberIsFound(cache, c);
          if x.key == key {
            MemberIsFound(g.invalid, x);
          }
        }
      }
      ApartByMembers(g.(cache := cache));
    }
  }

  /** What an answer caches is there afterwards exactly when it has a lifetime and there is room for it. */
  lemma CachedWhenGranted(l: Limits, g: Shelves, key: string, session: AdminSession, mono: real, wall: real)
    requires Distinct(g.cache)
    ensures Find(Ended(l, g, key, Granted(session), mono, wall).cache, key).Some? <==>
            l.ttl > 0.0 && session.SecondsLeft(wall) > 0.0 && l.maxSessions > 0
  {
    var op := PutOp(l.ttl, key, session, mono, wall);
    RemoveIsPart(g.cache, key);
    if op.Keep? {
      LastIsTrimmedTo(g.cache, op.entry, l.maxSessions);
    } else {
      RemoveFind(g.cache, key, key);
    }
  }

  lemma LastIsTrimmedTo<V>(d: seq<Entry<V>>, e: Entry<V>, max: nat)
    requires Distinct(d)
    ensures Find(Trimmed(PutLast(d, e), max), e.key).Some? <==> max > 0
  {
    var kept := Trimmed(PutLast(d, e), max);
    KeptIsPart(d, e, max);
    if max > 0 {
      assert kept[|kept| - 1] == e;
      MemberIsFound(kept, e);
    }
  }

  /** An answer keeps the shelves apart, unless it grants a session with time left, where sessions are kept at
  all, to a bearer the other shelf still holds as dead, as it can when another validation of that bearer
  was refused meanwhile. */
  lemma AnswerKeepsApart(l: Limits, g: Shelves, key: string, answer: Answer, mono: real, wall: real)
    requires Distinct(g.cache) && Distinct(g.invalid) && Apart(g)
    ensures var g' := Ended(l, g, key, answer, mono, wall);
            && Distinct(g'.cache) && Distinct(g'.invalid)
            && (Apart(g') <==>
                 !(answer.Granted? && Find(g.invalid, key).Some?
                   && l.ttl > 0.0 && answer.session.SecondsLeft(wall) > 0.0 && l.maxSessions > 0))
  {
    match answer
    case Unanswered =>
    case Refused => RefusalKeepsApart(l, g, key, mono, wall);
    case Granted(session) =>
      GrantedEntries(l, g, key, session, mono, wall);
      ApartFromOneMore(g, Ended(l, g, key, answer, mono, wall).cache, key);
      CachedWhenGranted(l, g, key, session, mono, wall);
  }

  // ---------------------------------------------------------------- validations one at a time

  /** No validation is called while another waits for its reply. Logouts may come at any time. */
  ghost predicate OneAtATime(l: Limits, calls: seq<Call>) {
    forall i :: 0 <= i < |calls| && calls[i].Validate? ==> Run(l, calls[..i]).pending == map[]
  }

  /** No bearer's session on the larger shelf and refusal on the smaller one; and none of either for a bearer
  being asked about. */
  ghost predicate Solo(s: State, u: Shelves) {
    && Extends(u, s.shelves) && Distinct(s.shelves.invalid) && Apart(Shelves(u.cache, s.shelves.invalid))
    && (forall i, j :: i in s.pending && j in s.pending ==> i == j)
    && (forall i :: i in s.pending ==> Find(s.shelves.invalid, s.pending[i].0).None?)
  }

  lemma SoloValidate(l: Limits, s: State, u: Shelves, key: string, anew: bool, mono: real)
    requires Solo(s, u) && s.pending == map[]
    ensures var c := Validate(key, anew, mono); Solo(Step(l, s, c), UnboundStep(l, s, u, c))
  {
    var c := Validate(key, anew, mono);
    StepExtends(l, s, u, c);
    LookedIsPart(u.cache, key, mono);
    LookedIsPart(s.shelves.invalid, key, mono);
    ApartByMembers(Shelves(UnboundStep(l, s, u, c).cache, Step(l, s, c).shelves.invalid));
    if Live(s.shelves.invalid, key, mono).None? {
      NotHeldAfterMiss(s.shelves.invalid, key, mono);
    }
  }

  lemma SoloSettle(l: Limits, s: State, u: Shelves, id: nat, response: Response, mono: real, wall: real)
    requires Solo(s, u) && id in s.pending
    ensures var c := Settle(id, response, mono, wall); Solo(Step(l, s, c), UnboundStep(l, s, u, c))
  {
    var c := Settle(id, response, mono, wall);
    var key := s.pending[id].0;
    StepExtends(l, s, u, c);
    match Fetched(response, wall)
    case Granted(session) =>
      var op := PutOp(l.ttl, key, session, mono, wall);
      DoneIsPart(u.cache, op, key);
      ApartFromOneMore(Shelves(u.cache, s.shelves.invalid), Done(u.cache, op), key);
    case Refused =>
      RemoveIsPart(u.cache, key);
      KeptIsPart(s.shelves.invalid, Entry(key, mono + INVALID_ANSWER_SECONDS, ()), l.maxInvalid);
      ApartByMembers(Shelves(UnboundStep(l, s, u, c).cache, Step(l, s, c).shelves.invalid));
    case Unanswered =>
  }

  lemma DoneIsPart(d: seq<Entry<AdminSession>>, op: Op<AdminSession>, key: string)
    requires Distinct(d) && !op.Look? && (op.Keep? ==> op.entry.key == key) && (op.Drop? ==> op.key == key)
    ensures Distinct(Done(d, op)) && forall e :: e in Done(d, op) ==> e.key == key || e in d
  {
    DoneKeepsDistinct(d, op);
    RemoveIsPart(d, key);
  }

  lemma SoloLogout(l: Limits, s: State, u: Shelves, key: string)
    requires Solo(s, u)
    ensures Solo(Step(l, s, Logout(key)), UnboundStep(l, s, u, Logout(key)))
  {
    StepExtends(l, s, u, Logout(key));
    RemoveIsPart(u.cache, key);
    ApartByMembers(Shelves(Remove(u.cache, key), s.shelves.invalid));
  }

  lemma {:induction false} RunIsSolo(l: Limits, calls: seq<Call>)
    requires OneAtATime(l, calls)
    ensures Solo(Run(l, calls), Unbound(l, calls))
  {
    if calls != [] {
      var n := |calls| - 1;
      var s, u := Run(l, calls[..n]), Unbound(l, calls[..n]);
      assert forall i :: 0 <= i < n ==> calls[..n][i] == calls[i] && calls[..n][..i] == calls[..i];
      RunIsSolo(l, calls[..n]);
      match calls[n]
      case Validate(key, anew, mono) => SoloValidate(l, s, u, key, anew, mono);
      case Settle(id, response, mono, wall) => if id in s.pending { SoloSettle(l, s, u, id, response, mono, wall); }
      case Logout(key) => SoloLogout(l, s, u, key);
    }
  }

  /** In any run whose validations do not overlap, with logouts anywhere, no bearer is held both live and
  dead. */
  lemma AloneKeepsApart(l: Limits, calls: seq<Call>)
    requires OneAtATime(l, calls)
    ensures Apart(Run(l, calls).shelves)
  {
    RunIsSolo(l, calls);
    ApartOfPart(Run(l, calls).shelves, Unbound(l, calls).cache);
  }

  lemma ApartOfPart(g: Shelves, cache: seq<Entry<AdminSession>>)
    requires IsSuffix(g.cache, cache) && Apart(Shelves(cache, g.invalid))
    ensures Apart(g)
  {
    forall i, j | 0 <= i < |g.cache| && 0 <= j < |g.invalid| ensures g.cache[i].key != g.invalid[j].key {
      assert g.cache[i] == cache[|cache| - |g.cache| + i];
    }
  }

  /** And in such a run losing entries to the bounds only ever makes the gate ask again. */
  lemma AloneEvictionOnlyAsksMore(l: Limits, calls: seq<Call>, key: string, anew: bool, mono: real)
    requires OneAtATime(l, calls)
    ensures var small := Begun(Run(l, calls).shelves, key, anew, mono).1;
            small == Begun(Unbound(l, calls), key, anew, mono).1 || small.Ask?
  {
    RunIsSolo(l, calls);
    var b, u := Run(l, calls).shelves, Unbound(l, calls);
    EvictionAsksMoreUnless(l, calls, key, anew, mono);
    if Find(u.cache, key).Some? && Find(b.invalid, key).Some? {
      assert u.cache[Position(u.cache, key)].key == b.invalid[Position(b.invalid, key)].key;
    }
  }

  // ---------------------------------------------------------------- what a logout ends

  function From(l: Limits, s: State, calls: seq<Call>): State {
    if calls == [] then s else Step(l, From(l, s, calls[..|calls| - 1]), calls[|calls| - 1])
  }

  predicate Pending(s: State, key: string) {
    exists id :: id in s.pending && s.pending[id].0 == key
  }

  ghost predicate NoneCalled(calls: seq<Call>, key: string) {
    forall i :: 0 <= i < |calls| && calls[i].Validate? ==> calls[i].key != key
  }

  /** Nothing of the bearer is cached, nor asked for. */
  ghost predicate LoggedOut(s: State, key: string) {
    && Distinct(s.shelves.cache) && Distinct(s.shelves.invalid) && !Pending(s, key)
    && forall e :: e in s.shelves.cache ==> e.key != key
  }

  lemma OutAfterLogout(l: Limits, s: State, key: string)
    requires Distinct(s.shelves.cache) && Distinct(s.shelves.invalid) && !Pending(s, key)
    ensures LoggedOut(Step(l, s, Logout(key)), key)
  {
    RemoveIsPart(s.shelves.cache, key);
    var t := Step(l, s, Logout(key));
    assert t.pending == s.pending;
  }

  lemma OutThroughValidate(l: Limits, s: State, key: string, other: string, anew: bool, mono: real)
    requires LoggedOut(s, key) && other != key
    ensures LoggedOut(Step(l, s, Validate(other, anew, mono)), key)
  {
    ValidateShelves(l, s, other, anew, mono);
    LookedIsPart(s.shelves.cache, other, mono);
    LookedIsPart(s.shelves.invalid, other, mono);
  }

  lemma OutThroughSettle(l: Limits, s: State, key: string, id: nat, response: Response, mono: real, wall: real)
    requires LoggedOut(s, key) && id in s.pending
    ensures LoggedOut(Step(l, s, Settle(id, response, mono, wall)), key)
  {
    var other := s.pending[id].0;
    assert other != key;
    match Fetched(response, wall)
    case Granted(session) => GrantedEntries(l, s.shelves, other, session, mono, wall);
    case Refused =>
      RemoveIsPart(s.shelves.cache, other);
      KeptIsPart(s.shelves.invalid, Entry(other, mono + INVALID_ANSWER_SECONDS, ()), l.maxInvalid);
    case Unanswered =>
  }

  lemma {:induction false} StaysOut(l: Limits, s: State, key: string, more: seq<Call>)
    requires LoggedOut(s, key) && NoneCalled(more, key)
    ensures LoggedOut(From(l, s, more), key)
  {
    if more != [] {
      var t, c := From(l, s, more[..|more| - 1]), more[|more| - 1];
      StaysOut(l, s, key, more[..|more| - 1]);
      match c
      case Validate(other, anew, mono) => OutThroughValidate(l, t, key, other, anew, mono);
      case Settle(id, response, mono, wall) =>
        if id in t.pending {
          OutThroughSettle(l, t, key, id, response, mono, wall);
        }
      case Logout(other) => RemoveIsPart(t.shelves.cache, other);
    }
  }

  lemma OutIsNotAccepted(g: Shelves, key: string, anew: bool, mono: real)
    requires forall e :: e in g.cache ==> e.key != key
    ensures Find(g.cache, key).None? && !Begun(g, key, anew, mono).1.Accept?
  {
    forall i | 0 <= i < |g.cache| ensures g.cache[i].key != key {
      assert g.cache[i] in g.cache;
    }
  }

  /** In any run, after a logout with no validation of the bearer waiting, and until one is called, whatever
  else comes and goes, the bearer is not cached and the gate does not honour it without asking. */
  lemma LogoutHolds(l: Limits, calls: seq<Call>, key: string, more: seq<Call>, anew: bool, mono: real)
    requires !Pending(Run(l, calls), key) && NoneCalled(more, key)
    ensures var g := From(l, Step(l, Run(l, calls), Logout(key)), more).shelves;
            Find(g.cache, key).None? && !Begun(g, key, anew, mono).1.Accept?
  {
    RunKeeps(l, calls);
    OutAfterLogout(l, Run(l, calls), key);
    StaysOut(l, Step(l, Run(l, calls), Logout(key)), key, more);
    OutIsNotAccepted(From(l, Step(l, Run(l, calls), Logout(key)), more).shelves, key, anew, mono);
  }

  lemma KeptIsFound<V>(d: seq<Entry<V>>, e: Entry<V>, max: nat)
    requires Distinct(d) && max > 0
    ensures Find(Trimmed(PutLast(d, e), max), e.key) == Some(e)
  {
    var kept := Trimmed(PutLast(d, e), max);
    KeptIsPart(d, e, max);
    assert kept[|kept| - 1] == e;
    PositionIs(kept, e.key, |kept| - 1);
  }

  lemma GrantIsLive(l: Limits, g: Shelves, key: string, session: AdminSession, mono: real, wall: real, now: real)
    requires Distinct(g.cache) && l.maxSessions > 0
    requires Min(l.ttl, session.SecondsLeft(wall)) > 0.0 && now < mono + Min(l.ttl, session.SecondsLeft(wall))
    ensures Live(Ended(l, g, key, Granted(session), mono, wall).cache, key, now) == Some(session)
  {
    KeptIsFound(g.cache, Entry(key, mono + Min(l.ttl, session.SecondsLeft(wall)), session), l.maxSessions);
  }

  /** A validation that a logout overtook is honoured from the cache once it settles well, for as long as its
  answer may be reused, wherever sessions are kept at all. */
  lemma OvertakenIsHonoured(l: Limits, calls: seq<Call>, id: nat, response: Response, mono: real, wall: real, now: real)
    requires id in Run(l, calls).pending && Fetched(response, wall).Granted? && l.ttl > 0.0 && l.maxSessions > 0
    requires now < mono + Min(l.ttl, Fetched(response, wall).session.SecondsLeft(wall))
    ensures var key := Run(l, calls).pending[id].0;
            var s := Step(l, Run(l, calls), Logout(key));
            Begun(Step(l, s, Settle(id, response, mono, wall)).shelves, key, false, now).1
              == Accept(Fetched(response, wall).session)
  {
    RunKeeps(l, calls);
    var key := Run(l, calls).pending[id].0;
    var s := Step(l, Run(l, calls), Logout(key));
    RemoveIsPart(Run(l, calls).shelves.cache, key);
    GrantIsLive(l, s.shelves, key, Fetched(response, wall).session, mono, wall, now);
  }

  /** A validation that settles as a refusal has the bearer rejected without asking again for ten seconds, the
  positive cache used or not, wherever refusals are kept at all. */
  lemma RefusalIsRemembered(l: Limits, calls: seq<Call>, id: nat, response: Response, mono: real, wall: real,
                            anew: bool, now: real)
    requires id in Run(l, calls).pending && l.maxInvalid > 0 && now < mono + 10.0
    requires Fetched(response, wall).Refused?
    ensures var key := Run(l, calls).pending[id].0;
            var t := Step(l, Run(l, calls), Settle(id, response, mono, wall));
            Begun(t.shelves, key, anew, now).1 == Reject
  {
    RunKeeps(l, calls);
    var s := Run(l, calls);
    var key := s.pending[id].0;
    RemoveIsPart(s.shelves.cache, key);
    OutIsNotAccepted(Shelves(Remove(s.shelves.cache, key), []), key, anew, now);
    KeptIsFound(s.shelves.invalid, Entry(key, mono + 10.0, ()), l.maxInvalid);
  }

  /** The bearer can come to be honoured without being asked for again. */
  ghost predicate CanReturn(l: Limits, s: State, key: string) {
    exists more, mono :: NoneCalled(more, key) && Begun(From(l, s, more).shelves, key, false, mono).1.Accept?
  }

  /** Where sessions are kept at all, a logout ends what the gate honours of a bearer, whatever happens next
  short of a new validation of it, exactly when no validation of it waits for its reply. */
  lemma LogoutHoldsExactly(l: Limits, calls: seq<Call>, key: string)
    requires l.ttl > 0.0 && l.maxSessions > 0
    ensures !CanReturn(l, Step(l, Run(l, calls), Logout(key)), key) <==> !Pending(Run(l, calls), key)
  {
    var s := Step(l, Run(l, calls), Logout(key));
    if id :| id in Run(l, calls).pending && Run(l, calls).pending[id].0 == key {
      var response := Reply(200, Some(AdminSession("", "", 1.0)));
      var more := [Settle(id, response, 0.0, 0.0)];
      OvertakenIsHonoured(l, calls, id, response, 0.0, 0.0, 0.0);
      assert more[..0] == [] && From(l, s, more) == Step(l, s, more[0]);
      assert NoneCalled(more, key);
    } else {
      forall more, mono | NoneCalled(more, key) ensures !Begun(From(l, s, more).shelves, key, false, mono).1.Accept? {
        LogoutHolds(l, calls, key, more, false, mono);
      }
    }
  }

  /** A logout between a validation's request and its reply: the session is cached after it, and honoured. */
  lemma CachedAfterLogout(key: string, session: AdminSession)
    requires session.expiresAt == 100.0
    ensures var calls := [Validate(key, false, 0.0)] + [Logout(key)] + [Settle(0, Reply(200, Some(session)), 1.0, 1.0)];
            Begun(Run(Limits(30.0, 1024, 4096), calls).shelves, key, false, 2.0).1 == Accept(session)
  {
    var l, asks, reply := Limits(30.0, 1024, 4096), [Validate(key, false, 0.0)], Reply(200, Some(session));
    RunSnoc(l, [], asks[0]);
    AskFromEmpty(l, START, key, false);
    assert [] + [asks[0]] == asks;
    RunSnoc(l, asks, Logout(key));
    RunSnoc(l, asks + [Logout(key)], Settle(0, reply, 1.0, 1.0));
    OvertakenIsHonoured(l, asks, 0, reply, 1.0, 1.0, 2.0);
  }

  // ---------------------------------------------------------------- examples

  const NO_SHELVES := Shelves([], [])

  lemma RunSnoc(l: Limits, calls: seq<Call>, c: Call)
    ensures Run(l, calls + [c]) == Step(l, Run(l, calls), c)
    ensures Unbound(l, calls + [c]) == UnboundStep(l, Run(l, calls), Unbound(l, calls), c)
  {
    assert (calls + [c])[..|calls|] == calls;
  }

  /** Two validations of one bearer that overlap, and the refusal settles first. */
  function Overlapping(key: string, session: AdminSession): seq<Call> {
    [Validate(key, false, 0.0), Validate(key, true, 0.0), Settle(1, Reply(401, None), 1.0, 1.0),
     Settle(0, Reply(200, Some(session)), 1.0, 1.0)]
  }

  lemma AskFromEmpty(l: Limits, s: State, key: string, anew: bool)
    requires s.shelves == NO_SHELVES
    ensures var c := Validate(key, anew, 0.0);
            && Step(l, s, c).shelves == NO_SHELVES == UnboundStep(l, s, NO_SHELVES, c)
            && Step(l, s, c).pending == s.pending[s.asked := (key, anew)] && Step(l, s, c).asked == s.asked + 1
  {
  }

  lemma AfterTwoAsks(l: Limits, key: string)
    ensures var calls := [Validate(key, false, 0.0), Validate(key, true, 0.0)];
            var s := Run(l, calls);
            && s.pending == map[0 := (key, false), 1 := (key, true)] && s.asked == 2
            && s.shelves == NO_SHELVES == Unbound(l, calls)
  {
    var a, b := Validate(key, false, 0.0), Validate(key, true, 0.0);
    RunSnoc(l, [], a);
    AskFromEmpty(l, START, key, false);
    assert [] + [a] == [a] && [a] + [b] == [a, b];
    RunSnoc(l, [a], b);
    AskFromEmpty(l, Run(l, [a]), key, true);
  }

  lemma RefusedFirst(l: Limits, s: State, key: string)
    requires l.maxInvalid > 0 && s.shelves == NO_SHELVES && s.pending == map[0 := (key, false), 1 := (key, true)]
    ensures var c, dead := Settle(1, Reply(401, None), 1.0, 1.0), Shelves([], [Entry(key, 11.0, ())]);
            && Step(l, s, c).shelves == dead == UnboundStep(l, s, NO_SHELVES, c)
            && Step(l, s, c).pending == map[0 := (key, false)] && Step(l, s, c).asked == s.asked
  {
  }

  lemma GrantedSecond(l: Limits, s: State, key: string, session: AdminSession)
    requires session.expiresAt == 100.0 && l.ttl == 30.0 && l.maxSessions > 0
    requires s.shelves == Shelves([], [Entry(key, 11.0, ())]) && s.pending == map[0 := (key, false)]
    ensures var c := Settle(0, Reply(200, Some(session)), 1.0, 1.0);
            var both := Shelves([Entry(key, 31.0, session)], [Entry(key, 11.0, ())]);
            && Step(l, s, c).shelves == both == UnboundStep(l, s, s.shelves, c)
            && Step(l, s, c).pending == map[] && Step(l, s, c).asked == s.asked
  {
  }

  lemma AfterOverlap(l: Limits, key: string, session: AdminSession)
    requires session.expiresAt == 100.0 && l.ttl == 30.0 && l.maxSessions > 0 && l.maxInvalid > 0
    ensures var s := Run(l, Overlapping(key, session));
            && s.shelves == Shelves([Entry(key, 31.0, session)], [Entry(key, 11.0, ())])
            && Unbound(l, Overlapping(key, session)) == s.shelves
            && s.pending == map[] && s.asked == 2
  {
    var asks := [Validate(key, false, 0.0), Validate(key, true, 0.0)];
    var refusal, grant := Settle(1, Reply(401, None), 1.0, 1.0), Settle(0, Reply(200, Some(session)), 1.0, 1.0);
    AfterTwoAsks(l, key);
    RunSnoc(l, asks, refusal);
    RefusedFirst(l, Run(l, asks), key);
    RunSnoc(l, asks + [refusal], grant);
    GrantedSecond(l, Run(l, asks + [refusal]), key, session);
    assert asks + [refusal] + [grant] == Overlapping(key, session);
  }

  /** It is then held both live and dead, and the cached session is honoured. */
  lemma OverlapHoldsBoth(key: string, session: AdminSession)
    requires session.expiresAt == 100.0
    ensures var s := Run(Limits(30.0, 1024, 4096), Overlapping(key, session));
            !Apart(s.shelves) && Begun(s.shelves, key, false, 2.0).1 == Accept(session)
  {
    AfterOverlap(Limits(30.0, 1024, 4096), key, session);
    var g := Run(Limits(30.0, 1024, 4096), Overlapping(key, session)).shelves;
    assert g.cache[0].key == g.invalid[0].key;
  }

  /** Then another bearer is validated. */
  function OtherValidated(key: string, other: string, session: AdminSession): seq<Call> {
    Overlapping(key, session) + [Validate(other, false, 2.0)] + [Settle(2, Reply(200, Some(session)), 2.0, 2.0)]
  }

  lemma OtherAsks(l: Limits, s: State, g: Shelves, mine: Entry<AdminSession>, dead: Entry<()>, other: string)
    requires g == Shelves([mine], [dead]) && s.shelves == g && s.pending == map[] && s.asked == 2
    requires mine.key != other && dead.key != other
    ensures var c := Validate(other, false, 2.0);
            && Step(l, s, c).shelves == g && UnboundStep(l, s, g, c) == g
               && Step(l, s, c).pending == map[2 := (other, false)]
  {
  }

  lemma OtherGranted(l: Limits, s: State, g: Shelves, mine: Entry<AdminSession>, dead: Entry<()>, other: string,
                     session: AdminSession)
    requires l == Limits(30.0, 1, 4096) && session.expiresAt == 100.0 && mine.key != other
    requires g == Shelves([mine], [dead]) && s.shelves == g && s.pending == map[2 := (other, false)]
    ensures var c, theirs := Settle(2, Reply(200, Some(session)), 2.0, 2.0), Entry(other, 32.0, session);
            && Step(l, s, c).shelves == Shelves([theirs], [dead])
            && UnboundStep(l, s, g, c) == Shelves([mine, theirs], [dead])
  {
    assert Remove([mine], other) == [mine];
  }

  lemma AfterOther(key: string, other: string, session: AdminSession)
    requires session.expiresAt == 100.0 && other != key
    ensures var l, calls := Limits(30.0, 1, 4096), OtherValidated(key, other, session);
            var mine, theirs, dead := Entry(key, 31.0, session), Entry(other, 32.0, session), Entry(key, 11.0, ());
            Run(l, calls).shelves == Shelves([theirs], [dead]) && Unbound(l, calls) == Shelves([mine, theirs], [dead])
  {
    var l, calls := Limits(30.0, 1, 4096), Overlapping(key, session);
    var mine, dead := Entry(key, 31.0, session), Entry(key, 11.0, ());
    var more := calls + [Validate(other, false, 2.0)];
    assert Run(l, more).shelves == Shelves([mine], [dead]) == Unbound(l, more)
           && Run(l, more).pending == map[2 := (other, false)] by {
      AfterOverlap(l, key, session);
      RunSnoc(l, calls, Validate(other, false, 2.0));
      OtherAsks(l, Run(l, calls), Shelves([mine], [dead]), mine, dead, other);
    }
    RunSnoc(l, more, Settle(2, Reply(200, Some(session)), 2.0, 2.0));
    OtherGranted(l, Run(l, more), Shelves([mine], [dead]), mine, dead, other, session);
  }

  /** With room for one session, that pushes the cached session out: the gate rejects a bearer that stores
  without bounds would accept. */
  lemma EvictionCanReject(key: string, other: string, session: AdminSession)
    requires session.expiresAt == 100.0 && other != key
    ensures var l, calls := Limits(30.0, 1, 4096), OtherValidated(key, other, session);
            && Begun(Run(l, calls).shelves, key, false, 3.0).1 == Reject
            && Begun(Unbound(l, calls), key, false, 3.0).1 == Accept(session)
  {
    var theirs, mine, dead := Entry(other, 32.0, session), Entry(key, 31.0, session), Entry(key, 11.0, ());
    AfterOther(key, other, session);
    assert Find([theirs], key).None? && Find([dead], key) == Some(dead);
    assert Find([mine, theirs], key) == Some(mine);
  }
}
