/** An open WebSocket's own loop: it re-checks its session against catalog-api on a schedule, and waits
for client frames, which it discards, in between. */
module SocketLoop {
  import opened Stores
  import opened Gate

  const RECHECK_SECONDS := 30.0
  const CLOSE_UNAUTHENTICATED := 4401
  const CLOSE_UNAVAILABLE := 4503

  function CloseCode(reason: Reason): int {
    if reason.Unavailable? then CLOSE_UNAVAILABLE else CLOSE_UNAUTHENTICATED
  }

  datatype Verdict = Honoured(session: AdminSession) | Rejected(reason: Reason)

  /** How a wait for a client frame ends, once it has begun. */
  datatype Frame = Discardable | TimedOut | Disconnected | Failed

  /** What the world does in one turn of the loop: the clocks when the turn begins; the answer a fresh
  validation would get and when it would be in; the clocks when the wait is worked out; and what comes. */
  datatype Turn = Turn(mono: real, wall: real, verdict: Verdict, answered: real,
                       waitMono: real, waitWall: real, frame: Frame)

  /** What the loop does. `Receive` is a wait for a frame that really begins. */
  datatype Act = Recheck | Receive(wait: real) | Discard | Close(code: int)

  /** A session the socket holds, and when the re-check schedule was last set. */
  datatype Grant = Grant(at: real, session: AdminSession)

  /** The last session catalog-api vouched for before turn `n`. */
  function Holding(first: Grant, script: seq<Turn>, trace: seq<seq<Act>>, n: nat): Grant
    requires n <= |script| && n <= |trace|
  {
    if n == 0 then first
    else if Recheck in trace[n - 1] && script[n - 1].verdict.Honoured?
    then Grant(script[n - 1].answered, script[n - 1].verdict.session)
    else Holding(first, script, trace, n - 1)
  }

  /** The schedule has come round, or the session has run out. */
  predicate Due(g: Grant, t: Turn) {
    t.mono >= g.at + RECHECK_SECONDS || t.wall >= g.session.expiresAt
  }

  /** Neither has happened when the wait is worked out. */
  predicate Open(g: Grant, t: Turn) {
    t.waitMono < g.at + RECHECK_SECONDS && t.waitWall < g.session.expiresAt
  }

  /** How long to wait for a frame: to the schedule or the session's end, whichever is nearer. */
  function Wait(g: Grant, t: Turn): real {
    var nearer := Min(g.at + RECHECK_SECONDS - t.waitMono, g.session.SecondsLeft(t.waitWall));
    if nearer < 0.0 then 0.0 else nearer
  }

  /** A re-check fell due in turn `n` and catalog-api, or the record of its last refusal, said no. */
  predicate RefusedAt(first: Grant, script: seq<Turn>, trace: seq<seq<Act>>, n: nat)
    requires n < |script| && n <= |trace|
  {
    Due(Holding(first, script, trace, n), script[n]) && script[n].verdict.Rejected?
  }

  /** What a turn does that finds the loop holding `g` and leaves it holding `after`. */
  ghost predicate TurnActs(g: Grant, after: Grant, t: Turn, acts: seq<Act>) {
    && (Recheck in acts <==> Due(g, t))
    && acts == (if Due(g, t) && t.verdict.Rejected? then [Recheck, Discard, Close(CloseCode(t.verdict.reason))]
                else (if Due(g, t) then [Recheck] else [])
                     + (if !Open(after, t) then []
                        else [Receive(Wait(after, t))] + if t.frame.Disconnected? || t.frame.Failed? then [Discard]
                            else []))
  }

  /** Turn `n` did what it should. */
  ghost predicate TurnOk(first: Grant, script: seq<Turn>, trace: seq<seq<Act>>, n: nat)
    requires n < |script| && n < |trace|
  {
    TurnActs(Holding(first, script, trace, n), Holding(first, script, trace, n + 1), script[n], trace[n])
  }

  /** The loop ran turn by turn until one discarded the socket, or as far as the script goes. */
  ghost predicate Attended(first: Grant, script: seq<Turn>, trace: seq<seq<Act>>, ended: bool) {
    && |trace| <= |script| && (!ended ==> |trace| == |script|)
    && (ended ==> trace != [] && Discard in trace[|trace| - 1])
    && (forall n :: 0 <= n < |trace| ==> TurnOk(first, script, trace, n))
    && (forall n :: 0 <= n < |trace| - (if ended then 1 else 0) ==> Discard !in trace[n])
  }

  lemma HoldingMore(first: Grant, script: seq<Turn>, trace: seq<seq<Act>>, acts: seq<Act>, n: nat)
    requires n <= |trace| && |trace| < |script|
    ensures Holding(first, script, trace + [acts], n) == Holding(first, script, trace, n)
  {
    if n > 0 {
      HoldingMore(first, script, trace, acts, n - 1);
      assert (trace + [acts])[n - 1] == trace[n - 1];
    }
  }

  lemma TurnsStayOk(first: Grant, script: seq<Turn>, trace: seq<seq<Act>>, acts: seq<Act>)
    requires |trace| < |script|
    requires forall n :: 0 <= n < |trace| ==> TurnOk(first, script, trace, n)
    ensures forall n :: 0 <= n < |trace| ==> TurnOk(first, script, trace + [acts], n)
  {
    forall n | 0 <= n < |trace| ensures TurnOk(first, script, trace + [acts], n) {
      HoldingMore(first, script, trace, acts, n);
      HoldingMore(first, script, trace, acts, n + 1);
      assert (trace + [acts])[n] == trace[n];
      assert TurnOk(first, script, trace, n);
    }
  }

  lemma OneMoreTurn(first: Grant, script: seq<Turn>, trace: seq<seq<Act>>, acts: seq<Act>, g: Grant, after: Grant)
    requires |trace| < |script| && g == Holding(first, script, trace, |trace|)
    requires forall n :: 0 <= n < |trace| ==> TurnOk(first, script, trace, n)
    requires after == var t := script[|trace|];
                      if Recheck in acts && t.verdict.Honoured? then Grant(t.answered, t.verdict.session) else g
    requires TurnActs(g, after, script[|trace|], acts)
    ensures Holding(first, script, trace + [acts], |trace| + 1) == after
    ensures forall n :: 0 <= n < |trace| + 1 ==> TurnOk(first, script, trace + [acts], n)
  {
    HoldingMore(first, script, trace, acts, |trace|);
    TurnsStayOk(first, script, trace, acts);
  }

  /** The loop's own two variables. */
  datatype Schedule = Schedule(nextCheck: real, session: AdminSession)

  function Set(g: Grant): Schedule {
    Schedule(g.at + RECHECK_SECONDS, g.session)
  }

  /** What the loop held before each turn and after the last: turn `n` moves it exactly when it re-checks and
  the session is honoured. */
  ghost predicate Scheduled(first: Grant, script: seq<Turn>, trace: seq<seq<Act>>, held: seq<Schedule>) {
    && |trace| <= |script| && |held| == |trace| + 1 && held[0] == Set(first)
    && forall n :: 0 <= n < |trace| ==>
         held[n + 1] == if Recheck in trace[n] && script[n].verdict.Honoured?
                        then Set(Grant(script[n].answered, script[n].verdict.session)) else held[n]
  }

  lemma ScheduledMore(first: Grant, script: seq<Turn>, trace: seq<seq<Act>>, held: seq<Schedule>,
                      acts: seq<Act>, next: Schedule)
    requires Scheduled(first, script, trace, held) && |trace| < |script|
    requires next == if Recheck in acts && script[|trace|].verdict.Honoured?
                     then Set(Grant(script[|trace|].answered, script[|trace|].verdict.session)) else held[|trace|]
    ensures Scheduled(first, script, trace + [acts], held + [next])
  {
    var trace', held' := trace + [acts], held + [next];
    forall n | 0 <= n < |trace'|
      ensures held'[n + 1] == if Recheck in trace'[n] && script[n].verdict.Honoured?
                              then Set(Grant(script[n].answered, script[n].verdict.session)) else held'[n]
    {
      if n < |trace| {
        assert trace'[n] == trace[n] && held'[n + 1] == held[n + 1] && held'[n] == held[n];
      }
    }
  }

  /** The loop closed the socket with `code`, in whatever turn. */
  ghost predicate Closed(trace: seq<seq<Act>>, code: int) {
    exists n :: 0 <= n < |trace| && Close(code) in trace[n]
  }

  /** The last turn re-checked the session, and was answered with `reason`. */
  ghost predicate LastRejected(script: seq<Turn>, trace: seq<seq<Act>>, reason: Reason)
    requires |trace| <= |script|
  {
    trace != [] && Recheck in trace[|trace| - 1] && script[|trace| - 1].verdict == Verdict.Rejected(reason)
  }

  /** A socket is closed with 4401 exactly when its last re-check found the session invalid, with 4503 exactly
  when it could not be checked, and with no other code. */
  lemma ClosesAsRejected(first: Grant, script: seq<Turn>, trace: seq<seq<Act>>, ended: bool)
    requires Attended(first, script, trace, ended)
    ensures Closed(trace, 4401) <==> LastRejected(script, trace, Invalid)
    ensures Closed(trace, 4503) <==> LastRejected(script, trace, Unavailable)
    ensures forall code :: Closed(trace, code) ==> code == 4401 || code == 4503
  {
    forall code | Closed(trace, code)
      ensures (code == 4401 || code == 4503)
              && LastRejected(script, trace, if code == 4401 then Invalid else Unavailable)
    {
      var n :| 0 <= n < |trace| && Close(code) in trace[n];
      ClosesLast(first, script, trace, ended, n, code);
    }
    if LastRejected(script, trace, Invalid) {
      RejectedCloses(first, script, trace, ended, Invalid);
    }
    if LastRejected(script, trace, Unavailable) {
      RejectedCloses(first, script, trace, ended, Unavailable);
    }
  }

  lemma ClosesLast(first: Grant, script: seq<Turn>, trace: seq<seq<Act>>, ended: bool, n: nat, code: int)
    requires Attended(first, script, trace, ended) && n < |trace| && Close(code) in trace[n]
    ensures code == 4401 || code == 4503
    ensures LastRejected(script, trace, if code == 4401 then Invalid else Unavailable)
  {
    assert TurnOk(first, script, trace, n);
    assert trace[n] == [Recheck, Discard, trace[n][2]];
    assert Discard in trace[n];
  }

  lemma RejectedCloses(first: Grant, script: seq<Turn>, trace: seq<seq<Act>>, ended: bool, reason: Reason)
    requires Attended(first, script, trace, ended) && LastRejected(script, trace, reason)
    ensures Closed(trace, if reason.Invalid? then 4401 else 4503)
  {
    var n := |trace| - 1;
    assert TurnOk(first, script, trace, n);
    assert trace[n][2] == Close(if reason.Invalid? then 4401 else 4503);
  }

  /** The loop itself, from the moment the schedule is first set. A wait of zero starts no receive: it
  times out at once. `held` is what its variables held before each turn and after the last. */
  method Attend(first: Grant, script: seq<Turn>) returns (trace: seq<seq<Act>>, ended: bool, held: seq<Schedule>)
    ensures Attended(first, script, trace, ended)
    ensures Scheduled(first, script, trace, held)
    ensures Closed(trace, 4401) <==> LastRejected(script, trace, Invalid)
    ensures Closed(trace, 4503) <==> LastRejected(script, trace, Unavailable)
    ensures forall code :: Closed(trace, code) ==> code == 4401 || code == 4503
  {
    var session, nextCheck := first.session, first.at + RECHECK_SECONDS;
    trace, ended, held := [], false, [Schedule(nextCheck, session)];
    while |trace| < |script| && !ended
      invariant |trace| <= |script| && (ended ==> trace != [] && Discard in trace[|trace| - 1])
      invariant Scheduled(first, script, trace, held) && held[|trace|] == Schedule(nextCheck, session)
      invariant Holding(first, script, trace, |trace|) == Grant(nextCheck - RECHECK_SECONDS, session)
      invariant forall n :: 0 <= n < |trace| ==> TurnOk(first, script, trace, n)
      invariant forall n :: 0 <= n < |trace| - (if ended then 1 else 0) ==> Discard !in trace[n]
      decreases |script| - |trace|
    {
      var t := script[|trace|];
      ghost var g := Grant(nextCheck - RECHECK_SECONDS, session);
      var acts: seq<Act> := [];
      if t.mono >= nextCheck || session.SecondsLeft(t.wall) <= 0.0 {
        acts := [Recheck];
        match t.verdict
        case Rejected(reason) =>
          acts := acts + [Discard, Close(CloseCode(reason))];
          ended := true;
        case Honoured(s) =>
          session := s;
          nextCheck := t.answered + RECHECK_SECONDS;
      }
      if !ended {
        var nearer := Min(nextCheck - t.waitMono, session.SecondsLeft(t.waitWall));
        var wait := if nearer < 0.0 then 0.0 else nearer;
        if wait > 0.0 {
          acts := acts + [Receive(wait)];
          if t.frame.Disconnected? || t.frame.Failed? {
            acts := acts + [Discard];
            ended := true;
          }
        }
      }
      OneMoreTurn(first, script, trace, acts, g, Grant(nextCheck - RECHECK_SECONDS, session));
      ScheduledMore(first, script, trace, held, acts, Schedule(nextCheck, session));
      trace, held := trace + [acts], held + [Schedule(nextCheck, session)];
    }
    ClosesAsRejected(first, script, trace, ended);
  }

  // ---------------------------------------------------------------- what frames cannot do

  /** Whatever the client sends, a wait for a frame begins only before the schedule comes round and
  before the session expires, and never outlasts either; and it begins whenever there is time to wait. */
  lemma ReceivesOnlyInTime(first: Grant, script: seq<Turn>, trace: seq<seq<Act>>, ended: bool, n: nat)
    requires Attended(first, script, trace, ended) && n < |trace|
    ensures var g, t := Holding(first, script, trace, n + 1), script[n];
            && (forall wait :: Receive(wait) in trace[n] ==>
                  && 0.0 < wait && t.waitMono < g.at + RECHECK_SECONDS && t.waitWall < g.session.expiresAt
                  && t.waitMono + wait <= g.at + RECHECK_SECONDS && t.waitWall + wait <= g.session.expiresAt
                  && (t.waitMono + wait == g.at + RECHECK_SECONDS || t.waitWall + wait == g.session.expiresAt))
            && (Receive(Wait(g, t)) in trace[n] <==> Open(g, t) && !RefusedAt(first, script, trace, n))
  {
    assert TurnOk(first, script, trace, n);
  }

  /** A turn re-checks the session exactly when it begins with the schedule, thirty seconds after it was last set,
  come round, or with the session over. It discards the socket exactly when the session was rejected, or the
  client went away, or its socket failed, while the loop waited for a frame. */
  lemma TurnsAsItShould(first: Grant, script: seq<Turn>, trace: seq<seq<Act>>, ended: bool, n: nat)
    requires Attended(first, script, trace, ended) && n < |trace|
    ensures var g, t := Holding(first, script, trace, n), script[n];
            Recheck in trace[n] <==> t.mono >= g.at + 30.0 || t.wall >= g.session.expiresAt
    ensures Discard in trace[n] <==>
            || (Recheck in trace[n] && script[n].verdict.Rejected?)
            || (script[n].frame in {Disconnected, Failed} && exists wait :: Receive(wait) in trace[n])
  {
    assert TurnOk(first, script, trace, n);
    var after, t := Holding(first, script, trace, n + 1), script[n];
    if Open(after, t) && !RefusedAt(first, script, trace, n) {
      assert Receive(Wait(after, t)) in trace[n];
    }
  }

  /** Turn `n` got an answer that honours the session. */
  predicate Vouches(script: seq<Turn>, trace: seq<seq<Act>>, n: nat)
    requires n < |trace| <= |script|
  {
    Recheck in trace[n] && script[n].verdict.Honoured?
  }

  /** Turn `m` was the last before `n` to do so. */
  ghost predicate LastVouch(script: seq<Turn>, trace: seq<seq<Act>>, m: nat, n: nat)
    requires m < n <= |trace| <= |script|
  {
    Vouches(script, trace, m) && forall k :: m < k < n ==> !Vouches(script, trace, k)
  }

  /** So before every turn the loop holds the schedule and session the socket opened with, while no re-check
  has honoured it, and from then on those the last such answer set; and this is the grant that the other
  results speak of. */
  lemma {:induction false} ScheduleIsVouched(first: Grant, script: seq<Turn>, trace: seq<seq<Act>>,
                                             held: seq<Schedule>, n: nat)
    requires Scheduled(first, script, trace, held) && n <= |trace|
    ensures held[n] == Set(Holding(first, script, trace, n))
    ensures (forall m :: 0 <= m < n ==> !Vouches(script, trace, m)) ==> held[n] == Set(first)
    ensures forall m :: 0 <= m < n && LastVouch(script, trace, m, n) ==>
              held[n] == Schedule(script[m].answered + RECHECK_SECONDS, script[m].verdict.session)
  {
    if n > 0 {
      ScheduleIsVouched(first, script, trace, held, n - 1);
      assert Vouches(script, trace, n - 1) <==> Recheck in trace[n - 1] && script[n - 1].verdict.Honoured?;
    }
  }

  /** Nothing but the waits themselves takes longer than `slack`. */
  ghost predicate Prompt(first: Grant, script: seq<Turn>, trace: seq<seq<Act>>, slack: real)
    requires |trace| <= |script|
  {
    && slack >= 0.0
    && (|trace| > 0 ==> script[0].mono <= first.at + slack)
    && (forall n :: 0 <= n < |trace| ==>
          script[n].waitMono <= (if Recheck in trace[n] then script[n].answered else script[n].mono) + slack)
    && (forall n :: 0 <= n < |trace| - 1 ==> script[n + 1].mono <= script[n].waitMono + Waited(trace[n]) + slack)
  }

  /** How long a turn's wait may take. */
  function Waited(acts: seq<Act>): real {
    if acts == [] then 0.0
    else if acts[|acts| - 1].Receive? then acts[|acts| - 1].wait
    else 0.0
  }

  /** However many frames the client sends, every turn begins within thirty seconds, and twice the
  scheduling slack, of the last answer that vouched for the session. */
  lemma TurnsStartInTime(first: Grant, script: seq<Turn>, trace: seq<seq<Act>>, ended: bool, slack: real, n: nat)
    requires Attended(first, script, trace, ended) && Prompt(first, script, trace, slack) && n < |trace|
    ensures script[n].mono <= Holding(first, script, trace, n).at + RECHECK_SECONDS + slack + slack
  {
    if n > 0 {
      assert TurnOk(first, script, trace, n - 1);
    }
  }

  /** Turn `n` re-checks, and the last turn before it to do so was `m`. */
  ghost predicate NextRecheck(trace: seq<seq<Act>>, m: nat, n: nat) {
    && m < n < |trace| && Recheck in trace[m] && Recheck in trace[n]
    && forall k :: m < k < n ==> Recheck !in trace[k]
  }

  /** A re-check starts only when due, and at most thirty seconds and twice the slack after the answer to the
  one before it; so the time that answer took comes on top, start to start. */
  lemma RechecksAreClose(first: Grant, script: seq<Turn>, trace: seq<seq<Act>>, ended: bool, slack: real, m: nat,
                         n: nat)
    requires Attended(first, script, trace, ended) && Prompt(first, script, trace, slack) && NextRecheck(trace, m, n)
    ensures script[m].verdict.Honoured?
    ensures script[n].mono - script[m].mono <= RECHECK_SECONDS + (script[m].answered - script[m].mono) + slack + slack
    ensures script[n].wall < script[m].verdict.session.expiresAt ==>
              script[n].mono - script[m].mono >= RECHECK_SECONDS + (script[m].answered - script[m].mono)
  {
    assert TurnOk(first, script, trace, m);
    HoldingBetween(first, script, trace, m, n);
    TurnsStartInTime(first, script, trace, ended, slack, n);
    assert TurnOk(first, script, trace, n);
  }

  /** The two clocks advance together. */
  ghost predicate InStep(script: seq<Turn>, trace: seq<seq<Act>>, offset: real)
    requires |trace| <= |script|
  {
    forall n :: 0 <= n < |trace| ==>
      script[n].wall == script[n].mono + offset && script[n].waitWall == script[n].waitMono + offset
  }

  /** When what turn `m` was granted falls due, on the monotonic clock. */
  function DueAt(t: Turn, offset: real): real
    requires t.verdict.Honoured?
  {
    Min(t.answered + RECHECK_SECONDS, t.verdict.session.expiresAt - offset)
  }

  lemma TurnsStartWhenDue(first: Grant, script: seq<Turn>, trace: seq<seq<Act>>, ended: bool, slack: real, offset: real,
                          m: nat, n: nat)
    requires Attended(first, script, trace, ended) && Prompt(first, script, trace, slack)
    requires InStep(script, trace, offset)
    requires m < n < |trace| && Vouches(script, trace, m) && forall k :: m < k < n ==> Recheck !in trace[k]
    requires script[m].answered + offset < script[m].verdict.session.expiresAt
    ensures script[n].mono <= DueAt(script[m], offset) + slack + slack
  {
    HoldingBetween(first, script, trace, m, n);
    assert TurnOk(first, script, trace, n - 1);
    if n > m + 1 {
      HoldingBetween(first, script, trace, m, n - 1);
    }
  }

  /** While the clocks advance together, the next re-check starts when the schedule comes round or the session
  runs out, whichever is first, and no later than twice the slack after it. Without slack, two starts are
  at most thirty seconds apart exactly when the first was answered at once, or granted a session that
  runs out within thirty seconds of that start. */
  lemma RechecksOnTime(first: Grant, script: seq<Turn>, trace: seq<seq<Act>>, ended: bool, slack: real, offset: real,
                       m: nat, n: nat)
    requires Attended(first, script, trace, ended) && Prompt(first, script, trace, slack)
    requires InStep(script, trace, offset)
    requires NextRecheck(trace, m, n) && script[m].verdict.Honoured?
    requires script[m].answered + offset < script[m].verdict.session.expiresAt
    ensures DueAt(script[m], offset) <= script[n].mono <= DueAt(script[m], offset) + slack + slack
    ensures slack == 0.0 ==>
              (script[n].mono - script[m].mono <= RECHECK_SECONDS <==>
                script[m].answered <= script[m].mono
                    || script[m].verdict.session.expiresAt <= script[m].wall + RECHECK_SECONDS)
  {
    TurnsStartWhenDue(first, script, trace, ended, slack, offset, m, n);
    HoldingBetween(first, script, trace, m, n);
    assert TurnOk(first, script, trace, n);
  }

  /** A session that lasts, read without any slack; each wait times out. Its re-check at 30 takes five seconds,
  as long as the console waits for catalog-api, and the next starts at 65. */
  function SlowAnswer(session: AdminSession): seq<Turn> {
    [Turn(0.0, 0.0, Honoured(session), 0.0, 0.0, 0.0, TimedOut),
     Turn(30.0, 30.0, Honoured(session), 35.0, 35.0, 35.0, TimedOut),
     Turn(65.0, 65.0, Honoured(session), 65.0, 65.0, 65.0, TimedOut)]
  }

  lemma RechecksCanBeFurtherApart(session: AdminSession)
    requires session.expiresAt == 1000.0
    ensures var trace := [[Receive(30.0)], [Recheck, Receive(30.0)], [Recheck, Receive(30.0)]];
            && Attended(Grant(0.0, session), SlowAnswer(session), trace, false)
            && Prompt(Grant(0.0, session), SlowAnswer(session), trace, 0.0)
            && NextRecheck(trace, 1, 2) && SlowAnswer(session)[2].mono - SlowAnswer(session)[1].mono == 35.0
  {
    var trace := [[Receive(30.0)], [Recheck, Receive(30.0)], [Recheck, Receive(30.0)]];
    var first, script := Grant(0.0, session), SlowAnswer(session);
    assert Holding(first, script, trace, 1) == first;
    assert Holding(first, script, trace, 2) == Grant(35.0, session);
    assert Holding(first, script, trace, 3) == Grant(65.0, session);
    assert TurnOk(first, script, trace, 0) && TurnOk(first, script, trace, 1) && TurnOk(first, script, trace, 2);
  }

  lemma {:induction false} HoldingBetween(first: Grant, script: seq<Turn>, trace: seq<seq<Act>>, m: nat, n: nat)
    requires m < n <= |trace| <= |script|
    requires forall k :: m < k < n ==> Recheck !in trace[k]
    ensures Holding(first, script, trace, n) == Holding(first, script, trace, m + 1)
  {
    if n > m + 1 {
      HoldingBetween(first, script, trace, m, n - 1);
    }
  }

  /** Everything the loop did, in order. */
  function Flat(trace: seq<seq<Act>>): seq<Act> {
    if trace == [] then [] else Flat(trace[..|trace| - 1]) + trace[|trace| - 1]
  }

  lemma {:induction false} NoDiscardBefore(first: Grant, script: seq<Turn>, trace: seq<seq<Act>>, ended: bool, n: nat)
    requires Attended(first, script, trace, ended) && n <= |trace| && (ended ==> n < |trace|)
    ensures forall a :: a in Flat(trace[..n]) ==> a.Recheck? || a.Receive?
  {
    if n > 0 {
      NoDiscardBefore(first, script, trace, ended, n - 1);
      assert TurnOk(first, script, trace, n - 1);
      assert trace[..n][..n - 1] == trace[..n - 1];
    }
  }

  lemma LastTurnEnds(first: Grant, script: seq<Turn>, trace: seq<seq<Act>>)
    requires Attended(first, script, trace, true)
    ensures var n := |trace| - 1;
            var acts, t := trace[n], script[n];
            if RefusedAt(first, script, trace, n) then acts == [Recheck, Discard, Close(CloseCode(t.verdict.reason))]
            else
              && acts != [] && acts[|acts| - 1] == Discard
              && forall k :: 0 <= k < |acts| - 1 ==> acts[k].Recheck? || acts[k].Receive?
  {
    assert TurnOk(first, script, trace, |trace| - 1);
  }

  lemma FlatSnoc(trace: seq<seq<Act>>)
    requires trace != []
    ensures Flat(trace) == Flat(trace[..|trace| - 1]) + trace[|trace| - 1]
  {
  }

  /** The socket leaves the broadcast set exactly when its loop ends, as the last thing the loop does
  except, for a session no longer honoured, to close it: the close comes after the discard. */
  lemma DiscardedBeforeClosed(first: Grant, script: seq<Turn>, trace: seq<seq<Act>>, ended: bool)
    requires Attended(first, script, trace, ended)
    ensures var done := Flat(trace);
            if !ended then forall a :: a in done ==> a.Recheck? || a.Receive?
            else
              var t := script[|trace| - 1];
              var tail := [Discard] + if RefusedAt(first, script, trace, |trace| - 1)
                  then [Close(CloseCode(t.verdict.reason))] else [];
              && |tail| <= |done| && done[|done| - |tail|..] == tail
              && forall k :: 0 <= k < |done| - |tail| ==> done[k].Recheck? || done[k].Receive?
  {
    if ended {
      var n := |trace| - 1;
      NoDiscardBefore(first, script, trace, ended, n);
      LastTurnEnds(first, script, trace);
      FlatSnoc(trace);
    } else {
      NoDiscardBefore(first, script, trace, ended, |trace|);
      assert trace[..|trace|] == trace;
    }
  }
}
