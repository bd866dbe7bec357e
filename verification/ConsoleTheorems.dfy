/** Whatever the order the answers come in, a stale one does nothing to a later session. */
module ConsoleTheorems {
  import opened Wrappers
  import opened ConsoleSession

  /** The generation when `i` answers were in. */
  function GenAt(log: seq<Entry>, i: nat): nat
    requires i <= |log|
  {
    if i == 0 then 1 else log[i - 1].after.generation
  }

  /** The `k`th answer began a session or discarded one. */
  predicate Turned(log: seq<Entry>, k: nat)
    requires k < |log|
  {
    log[k].after.generation != log[k].before.generation
  }

  predicate EntryOk(log: seq<Entry>, k: nat)
    requires k < |log|
  {
    var e := log[k];
    && e.before.generation == GenAt(log, k)
    && e.task.at <= k && e.task.generation == GenAt(log, e.task.at)
    && Fits(e.task.kind, e.answer) && e.after == Effect(e.before, e.task, e.answer)
  }

  ghost predicate Inv(s: State) {
    && s.page.generation == GenAt(s.log, |s.log|)
    && (forall id :: id in s.tasks ==>
        id < s.next && s.tasks[id].at <= |s.log| && s.tasks[id].generation == GenAt(s.log, s.tasks[id].at))
    && (forall k :: 0 <= k < |s.log| ==> EntryOk(s.log, k))
  }

  lemma GenAtMore(log: seq<Entry>, e: Entry, i: nat)
    requires i <= |log|
    ensures GenAt(log + [e], i) == GenAt(log, i)
  {
  }

  lemma EntriesStayOk(log: seq<Entry>, e: Entry)
    requires forall k :: 0 <= k < |log| ==> EntryOk(log, k)
    ensures forall k :: 0 <= k < |log| ==> EntryOk(log + [e], k)
  {
    forall k | 0 <= k < |log| ensures EntryOk(log + [e], k) {
      assert EntryOk(log, k) && (log + [e])[k] == log[k];
      GenAtMore(log, e, k);
      GenAtMore(log, e, log[k].task.at);
    }
  }

  lemma BegunKeeps(s: State, kind: Kind)
    requires Inv(s)
    ensures Inv(Begun(s, kind))
  {
  }

  lemma AnsweredKeeps(s: State, id: nat, answer: Answer)
    requires Inv(s) && id in s.tasks && Fits(s.tasks[id].kind, answer)
    ensures var after := Effect(s.page, s.tasks[id], answer);
            Inv(State(after, s.tasks - {id}, s.next, s.log + [Entry(s.tasks[id], answer, s.page, after)]))
  {
    var e := Entry(s.tasks[id], answer, s.page, Effect(s.page, s.tasks[id], answer));
    EntriesStayOk(s.log, e);
    GenAtMore(s.log, e, |s.log|);
    GenAtMore(s.log, e, s.tasks[id].at);
    forall i | i in s.tasks - {id} ensures s.tasks[i].generation == GenAt(s.log + [e], s.tasks[i].at) {
      GenAtMore(s.log, e, s.tasks[i].at);
    }
  }

  lemma {:induction false} RunKeeps(pending: bool, moves: seq<Move>)
    ensures Inv(Run(pending, moves))
  {
    if moves != [] {
      var s, m := Run(pending, moves[..|moves| - 1]), moves[|moves| - 1];
      RunKeeps(pending, moves[..|moves| - 1]);
      match m
      case Begin(kind) => BegunKeeps(s, kind);
      case Settle(id, answer) =>
        if id in s.tasks && Fits(s.tasks[id].kind, answer) {
          AnsweredKeeps(s, id, answer);
          var task := s.tasks[id];
          var after := Effect(s.page, task, answer);
          BegunKeeps(State(after, s.tasks - {id}, s.next, s.log + [Entry(task, answer, s.page, after)]), Resume(false));
        }
    }
  }

  // ---------------------------------------------------------------- generations

  /** The answer begins a session, or discards one: an accepted sign-in; any sign-out; a resume, heeded, that
  finds no session, except at load; a check or a request, heeded, that finds the session over. */
  predicate Turns(p: Page, t: Task, a: Answer)
    requires Fits(t.kind, a)
  {
    match t.kind
    case Login => a.accepted
    case Logout => true
    case Resume(initial) =>
      && t.generation == p.generation
      && a.result.Not? && a.result.reason in {SignedOut, SignedOutUnconfirmed, Missing, Invalid}
      && !(initial && a.result.reason == Missing)
    case Verify =>
      && t.generation == p.generation && p.signedIn && !p.signingOut
      && a.result.Not? && a.result.reason in {SignedOut, SignedOutUnconfirmed, Missing, Invalid}
    case Fetch => t.generation == p.generation && p.signedIn && !p.signingOut && a.unauthorized
  }

  function Once(b: bool): nat {
    if b then 1 else 0
  }

  lemma EffectTurns(p: Page, t: Task, a: Answer)
    requires Fits(t.kind, a)
    ensures Effect(p, t, a).generation == p.generation + Once(Turns(p, t, a))
  {
  }

  /** What the sign-in form says after an answer: of a sign-out, whether it is certain that the session can no
  longer be used; of a check or request that is heeded, why the session is over; and otherwise what it
  said before. */
  function Said(p: Page, t: Task, a: Answer): Option<Reason>
    requires Fits(t.kind, a)
  {
    var current := t.generation == p.generation;
    match t.kind
    case Login => p.told
    case Logout =>
      if a.status.None? || (a.status.value / 100 != 2 && a.status.value != 401) then Some(SignedOutUnconfirmed)
      else Some(SignedOut)
    case Resume(initial) =>
      if !current || a.result.Live? then p.told
      else if initial && a.result == Not(Missing) then None
      else Some(a.result.reason)
    case Verify =>
      if !current || !p.signedIn || p.signingOut || a.result.Live? then p.told
      else if a.result == Not(Missing) then Some(Invalid)
      else Some(a.result.reason)
    case Fetch => if current && p.signedIn && !p.signingOut && a.unauthorized then Some(Invalid) else p.told
  }

  lemma EffectSays(p: Page, t: Task, a: Answer)
    requires Fits(t.kind, a)
    ensures Effect(p, t, a).told == Said(p, t, a)
  {
    match t.kind
    case _ =>
  }

  /** In any run, every ending is explained as it should be, and nothing else changes what the form says. */
  lemma EndingsAreExplained(pending: bool, moves: seq<Move>, k: nat)
    requires k < |Run(pending, moves).log|
    ensures var e := Run(pending, moves).log[k];
            Fits(e.task.kind, e.answer) && e.after.told == Said(e.before, e.task, e.answer)
  {
    RunKeeps(pending, moves);
    var log := Run(pending, moves).log;
    assert EntryOk(log, k);
    EffectSays(log[k].before, log[k].task, log[k].answer);
  }

  predicate AllFit(log: seq<Entry>) {
    forall k :: 0 <= k < |log| ==> Fits(log[k].task.kind, log[k].answer)
  }

  /** How many of the answers from the `i`th up to the `j`th begin or discard a session. */
  function TurnsIn(log: seq<Entry>, i: nat, j: nat): nat
    requires i <= j <= |log| && AllFit(log)
    decreases j
  {
    if i == j then 0
    else TurnsIn(log, i, j - 1) + Once(Turns(log[j - 1].before, log[j - 1].task, log[j - 1].answer))
  }

  lemma {:induction false} GenerationCounts(log: seq<Entry>, i: nat, j: nat)
    requires i <= j <= |log| && AllFit(log) && forall k :: 0 <= k < |log| ==> EntryOk(log, k)
    ensures GenAt(log, j) == GenAt(log, i) + TurnsIn(log, i, j)
    decreases j
  {
    if i < j {
      GenerationCounts(log, i, j - 1);
      assert EntryOk(log, j - 1);
      EffectTurns(log[j - 1].before, log[j - 1].task, log[j - 1].answer);
    }
  }

  /** In any run, from any answer to any later one, the generation rises by exactly the number of answers
  between them that begin a session or discard one: it never falls, and nothing else moves it. */
  lemma GenerationTurns(pending: bool, moves: seq<Move>, i: nat, j: nat)
    requires i <= j <= |Run(pending, moves).log|
    ensures var log := Run(pending, moves).log;
            && AllFit(log)
            && GenAt(log, j) == GenAt(log, i) + TurnsIn(log, i, j)
            && Run(pending, moves).page.generation == 1 + TurnsIn(log, 0, |log|)
  {
    RunKeeps(pending, moves);
    var log := Run(pending, moves).log;
    forall k | 0 <= k < |log| ensures Fits(log[k].task.kind, log[k].answer) {
      assert EntryOk(log, k);
    }
    GenerationCounts(log, i, j);
    GenerationCounts(log, 0, |log|);
  }

  lemma {:induction false} GenerationGrows(log: seq<Entry>, i: nat, j: nat)
    requires i <= j <= |log| && forall k :: 0 <= k < |log| ==> EntryOk(log, k)
    ensures GenAt(log, i) <= GenAt(log, j)
    ensures GenAt(log, i) == GenAt(log, j) <==> forall k :: i <= k < j ==> !Turned(log, k)
    decreases j
  {
    if i < j {
      GenerationGrows(log, i, j - 1);
      assert EntryOk(log, j - 1);
      EffectGrows(log[j - 1]);
      assert Turned(log, j - 1) <==> GenAt(log, j) > GenAt(log, j - 1);
    }
  }

  lemma EffectGrows(e: Entry)
    requires Fits(e.task.kind, e.answer) && e.after == Effect(e.before, e.task, e.answer)
    ensures e.before.generation <= e.after.generation
  {
  }

  // ---------------------------------------------------------------- stale answers

  /** In any run: a check or request that changes the page at all was asked for in the session it
  changes. No sign-in was accepted and no session discarded between its asking and its answer, and
  the page was signed in and not signing out. */
  lemma StaleAnswersAreInert(pending: bool, moves: seq<Move>, k: nat)
    requires k < |Run(pending, moves).log|
    requires Run(pending, moves).log[k].task.kind.Verify? || Run(pending, moves).log[k].task.kind.Fetch?
    requires Run(pending, moves).log[k].after != Run(pending, moves).log[k].before
    ensures var log := Run(pending, moves).log;
            && log[k].before.signedIn && !log[k].before.signingOut && !log[k].after.signedIn
            && log[k].task.at <= k && forall j :: log[k].task.at <= j < k ==> !Turned(log, j)
  {
    RunKeeps(pending, moves);
    var log := Run(pending, moves).log;
    assert EntryOk(log, k);
    GenerationGrows(log, log[k].task.at, k);
  }

  /** The same of resuming: an answer asked for before the last turn opens and ends nothing. */
  lemma StaleResumesAreInert(pending: bool, moves: seq<Move>, k: nat)
    requires k < |Run(pending, moves).log| && Run(pending, moves).log[k].task.kind.Resume?
    requires Run(pending, moves).log[k].after != Run(pending, moves).log[k].before
    ensures var log := Run(pending, moves).log;
            log[k].task.at <= k && forall j :: log[k].task.at <= j < k ==> !Turned(log, j)
  {
    RunKeeps(pending, moves);
    var log := Run(pending, moves).log;
    assert EntryOk(log, k);
    GenerationGrows(log, log[k].task.at, k);
  }

  // ---------------------------------------------------------------- signing out

  predicate SignOutIn(log: seq<Entry>, i: nat, j: nat)
    requires i <= j <= |log|
  {
    exists k :: i <= k < j && log[k].task.kind.Logout?
  }

  /** Since `at` the page has been signing out, or a sign-out has been answered. */
  ghost predicate SigningSince(log: seq<Entry>, at: nat, j: nat)
    requires j <= |log|
  {
    forall i :: at <= i < j ==> log[i].before.signingOut || SignOutIn(log, at, i)
  }

  /** A sign-out leaves the page signing out until one is answered. */
  ghost predicate Signing(s: State) {
    && (forall id :: id in s.tasks && s.tasks[id].kind.Logout? ==>
          && s.tasks[id].at <= |s.log| && SigningSince(s.log, s.tasks[id].at, |s.log|)
          && (s.page.signingOut || SignOutIn(s.log, s.tasks[id].at, |s.log|)))
    && (forall k :: 0 <= k < |s.log| && s.log[k].task.kind.Logout? ==>
          s.log[k].task.at <= k && SigningSince(s.log, s.log[k].task.at, k))
  }

  lemma SigningMore(log: seq<Entry>, e: Entry, at: nat, j: nat)
    requires at <= j <= |log|
    ensures SignOutIn(log + [e], at, j) <==> SignOutIn(log, at, j)
    ensures SigningSince(log + [e], at, j) <==> SigningSince(log, at, j)
  {
    var log' := log + [e];
    assert forall k :: 0 <= k < |log| ==> log'[k] == log[k];
    forall i | at <= i <= j ensures SignOutIn(log', at, i) <==> SignOutIn(log, at, i) {
      if SignOutIn(log, at, i) {
        var k :| at <= k < i && log[k].task.kind.Logout?;
        assert log'[k].task.kind.Logout?;
      }
      if SignOutIn(log', at, i) {
        var k :| at <= k < i && log'[k].task.kind.Logout?;
        assert log[k].task.kind.Logout?;
      }
    }
  }

  lemma SignOutInMore(log: seq<Entry>, e: Entry, at: nat)
    requires at <= |log|
    ensures SignOutIn(log + [e], at, |log| + 1) <==> SignOutIn(log, at, |log|) || e.task.kind.Logout?
  {
    var log' := log + [e];
    SigningMore(log, e, at, |log|);
    if SignOutIn(log, at, |log|) {
      var k :| at <= k < |log| && log'[k].task.kind.Logout?;
    } else if e.task.kind.Logout? {
      assert log'[|log|].task.kind.Logout?;
    }
  }

  lemma SigningSinceMore(log: seq<Entry>, e: Entry, at: nat)
    requires at <= |log| && SigningSince(log, at, |log|) && (e.before.signingOut || SignOutIn(log, at, |log|))
    ensures SigningSince(log + [e], at, |log| + 1)
  {
    var log' := log + [e];
    forall i | at <= i < |log| + 1 ensures log'[i].before.signingOut || SignOutIn(log', at, i) {
      SigningMore(log, e, at, i);
      assert i < |log| ==> log'[i] == log[i];
    }
  }

  lemma AnsweredSigning(s: State, id: nat, answer: Answer)
    requires Signing(s) && id in s.tasks && Fits(s.tasks[id].kind, answer)
    ensures var after := Effect(s.page, s.tasks[id], answer);
            Signing(State(after, s.tasks - {id}, s.next, s.log + [Entry(s.tasks[id], answer, s.page, after)]))
  {
    var e := Entry(s.tasks[id], answer, s.page, Effect(s.page, s.tasks[id], answer));
    var log := s.log + [e];
    forall i | i in s.tasks - {id} && s.tasks[i].kind.Logout?
      ensures SigningSince(log, s.tasks[i].at, |log|)
      ensures e.after.signingOut || SignOutIn(log, s.tasks[i].at, |log|)
    {
      SigningSinceMore(s.log, e, s.tasks[i].at);
      SignOutInMore(s.log, e, s.tasks[i].at);
    }
    forall k | 0 <= k < |log| && log[k].task.kind.Logout?
      ensures log[k].task.at <= k && SigningSince(log, log[k].task.at, k)
    {
      SigningMore(s.log, e, log[k].task.at, k);
      assert k < |s.log| ==> log[k] == s.log[k];
    }
  }

  lemma BegunSigning(s: State, kind: Kind)
    requires Signing(s) && forall id :: id in s.tasks ==> id < s.next
    ensures Signing(Begun(s, kind))
  {
  }

  lemma {:induction false} RunSigning(pending: bool, moves: seq<Move>)
    ensures Signing(Run(pending, moves))
  {
    if moves != [] {
      var s, m := Run(pending, moves[..|moves| - 1]), moves[|moves| - 1];
      RunSigning(pending, moves[..|moves| - 1]);
      RunKeeps(pending, moves[..|moves| - 1]);
      match m
      case Begin(kind) => BegunSigning(s, kind);
      case Settle(id, answer) =>
        if id in s.tasks && Fits(s.tasks[id].kind, answer) {
          AnsweredSigning(s, id, answer);
          AnsweredKeeps(s, id, answer);
          var after := Effect(s.page, s.tasks[id], answer);
          var e := Entry(s.tasks[id], answer, s.page, after);
          BegunSigning(State(after, s.tasks - {id}, s.next, s.log + [e]), Resume(false));
        }
    }
  }

  /** What can come between a sign-out and its answer and turn the generation. */
  predicate Intervenes(e: Entry) {
    || e.task.kind.Logout?
    || (e.task.kind.Login? && e.answer.Accepted? && e.answer.accepted)
    || (e.task.kind.Resume? && e.answer.Checked? && e.task.generation == e.before.generation
        && e.answer.result.Not? && Discards(e.answer.result.reason)
        && !(e.task.kind.initial && e.answer.result.reason.Missing?))
  }

  lemma IntervenesWhenTurned(log: seq<Entry>, at: nat, k: nat, j: nat)
    requires at <= j < k <= |log| && EntryOk(log, j) && SigningSince(log, at, k)
    ensures Intervenes(log[j]) ==> Turned(log, j)
    ensures Turned(log, j) ==> exists i :: at <= i < k && Intervenes(log[i])
  {
    var e := log[j];
    EffectTurns(e.before, e.task, e.answer);
    if Turned(log, j) && !Intervenes(e) {
      assert !e.before.signingOut;
      var i :| at <= i < j && log[i].task.kind.Logout?;
      assert Intervenes(log[i]);
    }
  }

  /** A sign-out's answer, though, ends whatever is shown when it comes, and turns the generation. What it ends
  is the session it was asked in exactly when, between the two, no other sign-out was answered, no sign-in
  was accepted, and no resume found the session gone. */
  lemma SignOutEndsWhatIsShown(pending: bool, moves: seq<Move>, k: nat)
    requires k < |Run(pending, moves).log| && Run(pending, moves).log[k].task.kind.Logout?
    ensures var log := Run(pending, moves).log;
            && !log[k].after.signedIn && Turned(log, k) && log[k].task.at <= k
            && (log[k].task.generation == log[k].before.generation <==>
                  forall j :: log[k].task.at <= j < k ==> !Intervenes(log[j]))
  {
    RunKeeps(pending, moves);
    RunSigning(pending, moves);
    var log := Run(pending, moves).log;
    assert EntryOk(log, k);
    var at := log[k].task.at;
    GenerationGrows(log, at, k);
    forall j | at <= j < k
      ensures Intervenes(log[j]) ==> Turned(log, j)
      ensures Turned(log, j) ==> exists i :: at <= i < k && Intervenes(log[i])
    {
      assert EntryOk(log, j);
      IntervenesWhenTurned(log, at, k, j);
    }
  }

  /** Neither a sign-in, a sign-out nor a resume. */
  predicate Quiet(kind: Kind) {
    kind.Verify? || kind.Fetch?
  }

  ghost predicate OnlySigningOut(s: State, id: nat, t: Task, page: Page) {
    && id in s.tasks && s.tasks[id] == t && t.kind.Logout? && s.page == page.(signingOut := true)
    && (forall i :: i in s.tasks && i != id ==> Quiet(s.tasks[i].kind)) && id < s.next
  }

  /** The moves after a sign-out is asked for, up to its answer: no sign-in and no other sign-out begins. */
  predicate Undisturbed(m: Move, id: nat) {
    match m
    case Begin(kind) => kind.Resume? || Quiet(kind)
    case Settle(i, _) => i != id
  }

  function From(s: State, moves: seq<Move>): State {
    if moves == [] then s else Step(From(s, moves[..|moves| - 1]), moves[|moves| - 1])
  }

  lemma {:induction false} StaysSigningOut(s: State, moves: seq<Move>, id: nat, t: Task, page: Page)
    requires OnlySigningOut(s, id, t, page) && forall k :: 0 <= k < |moves| ==> Undisturbed(moves[k], id)
    ensures OnlySigningOut(From(s, moves), id, t, page)
  {
    if moves != [] {
      StaysSigningOut(s, moves[..|moves| - 1], id, t, page);
      assert Undisturbed(moves[|moves| - 1], id);
    }
  }

  /** What a caller can see to: with no sign-in, sign-out or resume in flight when a sign-out is asked for, and
  none begun before its answer, the page is as it was all along, whatever checks and requests come and
  go, and the session the answer ends is the one it was asked in. */
  lemma AloneSignOutEndsItsOwn(pending: bool, moves: seq<Move>, more: seq<Move>, status: Option<int>)
    requires var s := Run(pending, moves);
             AllQuiet(s) && forall k :: 0 <= k < |more| ==> Undisturbed(more[k], s.next)
    ensures var s := Run(pending, moves);
            var t := From(Begun(s, Logout), more);
            && t.page == s.page.(signingOut := true)
            && s.next in t.tasks && t.tasks[s.next].kind.Logout? && t.tasks[s.next].generation == s.page.generation
            && var page := Step(t, Settle(s.next, LogoutStatus(status))).page;
               page.generation == s.page.generation + 1 && !page.signedIn && !page.signingOut
  {
    var s := Run(pending, moves);
    RunKeeps(pending, moves);
    BegunAlone(s);
    StaysSigningOut(Begun(s, Logout), more, s.next, Task(Logout, s.page.generation, |s.log|), s.page);
  }

  ghost predicate AllQuiet(s: State) {
    forall i :: i in s.tasks ==> Quiet(s.tasks[i].kind)
  }

  lemma BegunAlone(s: State)
    requires Inv(s) && AllQuiet(s)
    ensures OnlySigningOut(Begun(s, Logout), s.next, Task(Logout, s.page.generation, |s.log|), s.page)
  {
    forall i | i in Begun(s, Logout).tasks && i != s.next ensures Quiet(Begun(s, Logout).tasks[i].kind) {
      assert i in s.tasks;
    }
  }

  // ---------------------------------------------------------------- each session is shown once

  /** The answer showed the console. */
  predicate Opens(e: Entry) {
    e.task.kind.Resume? && e.answer.Checked? && e.answer.result.Live? && e.task.generation == e.before.generation
  }

  /** Every generation is resumed at most once: by a task still in flight, or by an answer already in. */
  ghost predicate ResumedOnce(s: State) {
    && (forall i, j :: i in s.tasks && j in s.tasks && i != j && s.tasks[i].kind.Resume? && s.tasks[j].kind.Resume? ==>
          s.tasks[i].generation != s.tasks[j].generation)
    && (forall i, k :: i in s.tasks && s.tasks[i].kind.Resume? && 0 <= k < |s.log| && s.log[k].task.kind.Resume? ==>
          s.tasks[i].generation != s.log[k].task.generation)
    && (forall j, k :: 0 <= j < k < |s.log| && s.log[j].task.kind.Resume? && s.log[k].task.kind.Resume? ==>
          s.log[j].task.generation != s.log[k].task.generation)
    && (forall i :: i in s.tasks ==> i < s.next && s.tasks[i].generation <= s.page.generation)
    && (forall k :: 0 <= k < |s.log| ==> s.log[k].task.generation <= s.page.generation)
  }

  lemma AnsweredOnce(s: State, id: nat, answer: Answer)
    requires ResumedOnce(s) && id in s.tasks && Fits(s.tasks[id].kind, answer)
    ensures var after := Effect(s.page, s.tasks[id], answer);
            ResumedOnce(State(after, s.tasks - {id}, s.next, s.log + [Entry(s.tasks[id], answer, s.page, after)]))
  {
    var e := Entry(s.tasks[id], answer, s.page, Effect(s.page, s.tasks[id], answer));
    EffectGrows(e);
    var log := s.log + [e];
    forall j, k | 0 <= j < k < |log| && log[j].task.kind.Resume? && log[k].task.kind.Resume?
      ensures log[j].task.generation != log[k].task.generation
    {
      if k == |s.log| {
        assert log[j] == s.log[j];
      }
    }
  }

  lemma ResumeBegunOnce(s: State)
    requires ResumedOnce(s)
    requires forall i :: i in s.tasks ==> s.tasks[i].generation < s.page.generation
    requires forall k :: 0 <= k < |s.log| ==> s.log[k].task.generation < s.page.generation
    ensures ResumedOnce(Begun(s, Resume(false)))
  {
  }

  lemma {:induction false} RunResumesOnce(pending: bool, moves: seq<Move>)
    ensures ResumedOnce(Run(pending, moves))
  {
    if moves != [] {
      var s, m := Run(pending, moves[..|moves| - 1]), moves[|moves| - 1];
      RunResumesOnce(pending, moves[..|moves| - 1]);
      if m.Settle? && m.id in s.tasks && Fits(s.tasks[m.id].kind, m.answer) {
        AnsweredOnce(s, m.id, m.answer);
        if s.tasks[m.id].kind.Login? && m.answer.accepted {
          var after := Effect(s.page, s.tasks[m.id], m.answer);
          var e := Entry(s.tasks[m.id], m.answer, s.page, after);
          ResumeBegunOnce(State(after, s.tasks - {m.id}, s.next, s.log + [e]));
        }
      }
    }
  }

  /** Between two openings of the console the generation has turned: no session is shown twice, and none
  is shown again once it has ended. */
  lemma OpensOncePerSession(pending: bool, moves: seq<Move>, j: nat, k: nat)
    requires j < k < |Run(pending, moves).log|
    requires Opens(Run(pending, moves).log[j]) && Opens(Run(pending, moves).log[k])
    ensures var log := Run(pending, moves).log;
            exists i :: j <= i < k && Turned(log, i)
  {
    RunKeeps(pending, moves);
    RunResumesOnce(pending, moves);
    var log := Run(pending, moves).log;
    assert EntryOk(log, j) && EntryOk(log, k);
    GenerationGrows(log, j, k);
  }

  lemma RunSnoc(pending: bool, moves: seq<Move>, m: Move)
    ensures Run(pending, moves + [m]) == Step(Run(pending, moves), m)
  {
    assert (moves + [m])[..|moves|] == moves;
  }

  const TWO_SIGN_OUTS := [Settle(0, Checked(Live)), Begin(Logout), Begin(Logout)]
  const THEN_SIGN_IN := [Settle(1, LogoutStatus(Some(204))), Begin(Login), Settle(3, Accepted(true)),
                         Settle(4, Checked(Live))]

  lemma AfterTwoSignOuts()
    ensures var s := Run(false, TWO_SIGN_OUTS);
            && s.page == Page(1, true, true, None) && s.next == 3 && |s.log| == 1
            && s.tasks == map[1 := Task(Logout, 1, 1), 2 := Task(Logout, 1, 1)]
  {
    var moves := TWO_SIGN_OUTS;
    RunSnoc(false, [], moves[0]);
    RunSnoc(false, [moves[0]], moves[1]);
    RunSnoc(false, [moves[0], moves[1]], moves[2]);
    assert [] + [moves[0]] == [moves[0]] && [moves[0]] + [moves[1]] == [moves[0], moves[1]];
    assert [moves[0], moves[1]] + [moves[2]] == moves;
  }

  lemma AfterSignIn()
    ensures var s := Run(false, TWO_SIGN_OUTS + THEN_SIGN_IN);
            s.page == Page(3, true, false, Some(SignedOut)) && |s.log| == 4 && s.tasks == map[2 := Task(Logout, 1, 1)]
  {
    AfterTwoSignOuts();
    var a, b := TWO_SIGN_OUTS, THEN_SIGN_IN;
    RunSnoc(false, a, b[0]);
    var s1 := Run(false, a + [b[0]]);
    assert s1.page == Page(2, false, false, Some(SignedOut)) && s1.tasks == map[2 := Task(Logout, 1, 1)] && s1.next == 3
           && |s1.log| == 2;
    RunSnoc(false, a + [b[0]], b[1]);
    var s2 := Run(false, a + [b[0]] + [b[1]]);
    assert s2.tasks == map[2 := Task(Logout, 1, 1), 3 := Task(Login, 2, 2)] && s2.next == 4;
    RunSnoc(false, a + [b[0]] + [b[1]], b[2]);
    var s3 := Run(false, a + [b[0]] + [b[1]] + [b[2]]);
    assert s3.tasks == map[2 := Task(Logout, 1, 1), 4 := Task(Resume(false), 3, 3)]
           && s3.page == Page(3, false, false, Some(SignedOut)) && |s3.log| == 3;
    RunSnoc(false, a + [b[0]] + [b[1]] + [b[2]], b[3]);
    assert a + [b[0]] + [b[1]] + [b[2]] + [b[3]] == a + b;
  }

  /** Two sign-outs asked for at once, with a sign-in between their answers: the second ends the session
  that sign-in began. */
  lemma SecondSignOutEndsALaterSession()
    ensures var log := Run(false, TWO_SIGN_OUTS + THEN_SIGN_IN + [Settle(2, LogoutStatus(Some(401)))]).log;
            |log| == 5 && log[4].before.signedIn && !log[4].after.signedIn
            && log[4].task.generation == 1 && log[4].before.generation == 3
  {
    AfterSignIn();
    RunSnoc(false, TWO_SIGN_OUTS + THEN_SIGN_IN, Settle(2, LogoutStatus(Some(401))));
  }
}
