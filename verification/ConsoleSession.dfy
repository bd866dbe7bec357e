/** The page's side of an admin session: what it shows, and which of the answers still in flight it heeds. */
module ConsoleSession {
  import opened Wrappers

  datatype Reason = SignedOut | SignedOutUnconfirmed | Missing | Invalid | Unavailable | Unreachable | Other

  /** The reasons after which the session cannot be used again. */
  predicate Discards(reason: Reason) {
    reason.SignedOut? || reason.SignedOutUnconfirmed? || reason.Missing? || reason.Invalid?
  }

  /** The console's answer on whether the cookie carries a live session. */
  datatype Result = Live | Not(reason: Reason)

  /** `told` is the reason the sign-in form gives, if any. */
  datatype Page = Page(generation: nat, signedIn: bool, signingOut: bool, told: Option<Reason>)

  function Ended(p: Page, reason: Reason): Page {
    p.(generation := if Discards(reason) then p.generation + 1 else p.generation, signedIn := false,
       told := Some(reason))
  }

  /** Which answers count: those asked for in this very generation, while the console is shown and stays. */
  predicate Owns(p: Page, generation: nat) {
    generation == p.generation && p.signedIn && !p.signingOut
  }

  function Resumed(p: Page, generation: nat, initial: bool, result: Result): Page {
    if generation != p.generation then p
    else match result
      case Live => p.(signedIn := true)
      case Not(reason) => if initial && reason.Missing? then p.(signedIn := false, told := None) else Ended(p, reason)
  }

  function Verified(p: Page, generation: nat, result: Result): Page {
    if !Owns(p, generation) || result.Live? then p
    else Ended(p, if result.reason.Missing? then Invalid else result.reason)
  }

  function Fetched(p: Page, generation: nat, unauthorized: bool): Page {
    if unauthorized && Owns(p, generation) then Ended(p, Invalid) else p
  }

  function LoginAnswered(p: Page, accepted: bool): Page {
    if accepted then p.(generation := p.generation + 1) else p
  }

  /** The sign-out did its work: accepted, or there was nothing left to sign out. */
  predicate Confirmed(status: Option<int>) {
    status.Some? && (200 <= status.value < 300 || status.value == 401)
  }

  function LogoutAnswered(p: Page, status: Option<int>): Page {
    Ended(p.(signingOut := false), if Confirmed(status) then SignedOut else SignedOutUnconfirmed)
  }

  class AdminSession {
    var sessionGeneration: nat
    var signedIn: bool
    var signingOut: bool
    var told: Option<Reason>

    function Now(): Page
      reads this
    {
      Page(sessionGeneration, signedIn, signingOut, told)
    }

    constructor ()
      ensures Now() == Page(1, false, false, None)
    {
      sessionGeneration, signedIn, signingOut, told := 1, false, false, None;
    }

    method ShowLogin(reason: Option<Reason>)
      modifies this
      ensures Now() == old(Now()).(signedIn := false, told := reason)
    {
      signedIn := false;
      told := reason;
    }

    method ShowPanel()
      modifies this
      ensures Now() == old(Now()).(signedIn := true)
    {
      signedIn := true;
    }

    method EndSession(reason: Reason)
      modifies this
      ensures Now() == Ended(old(Now()), reason)
    {
      if Discards(reason) {
        sessionGeneration := sessionGeneration + 1;
      }
      ShowLogin(Some(reason));
    }

    predicate OwnsSession(generation: nat)
      reads this
    {
      generation == sessionGeneration && signedIn && !signingOut
    }

    /** Resuming, from the check's answer on; `generation` is the one it began in. */
    method ResumeAnswered(generation: nat, initial: bool, result: Result)
      modifies this
      ensures Now() == Resumed(old(Now()), generation, initial, result)
    {
      if generation != sessionGeneration {
        return;
      }
      if result.Live? {
        ShowPanel();
      } else if initial && result.reason.Missing? {
        ShowLogin(None);
      } else {
        EndSession(result.reason);
      }
    }

    /** Verifying, from the check's answer on. */
    method VerifyAnswered(generation: nat, result: Result)
      modifies this
      ensures Now() == Verified(old(Now()), generation, result)
    {
      if !OwnsSession(generation) {
        return;
      }
      if !result.Live? {
        EndSession(if result.reason.Missing? then Invalid else result.reason);
      }
    }

    /** Any authenticated request, from its answer on. */
    method FetchAnswered(generation: nat, status: int)
      modifies this
      ensures Now() == Fetched(old(Now()), generation, status == 401)
    {
      if status == 401 {
        if OwnsSession(generation) {
          EndSession(Invalid);
        }
      }
    }

    /** Signing in, from the answer on; when it was accepted the page resumes in the new generation. */
    method LoginDone(accepted: bool) returns (resume: Option<nat>)
      modifies this
      ensures Now() == LoginAnswered(old(Now()), accepted)
      ensures resume == if accepted then Some(sessionGeneration) else None
    {
      if accepted {
        sessionGeneration := sessionGeneration + 1;
        return Some(sessionGeneration);
      }
      resume := None;
    }

    method LogoutBegins()
      modifies this
      ensures Now() == old(Now()).(signingOut := true)
    {
      signingOut := true;
    }

    /** Signing out, from the answer on; no answer at all is no status. */
    method LogoutDone(status: Option<int>)
      modifies this
      ensures Now() == LogoutAnswered(old(Now()), status)
    {
      signingOut := false;
      var confirmed := status.Some? && ((status.value >= 200 && status.value < 300) || status.value == 401);
      EndSession(if confirmed then SignedOut else SignedOutUnconfirmed);
    }
  }

  // ---------------------------------------------------------------- every ordering

  datatype Kind = Resume(initial: bool) | Verify | Fetch | Login | Logout

  /** Something asked for and not answered yet: the generation it was asked in, and how much had been
  answered by then. */
  datatype Task = Task(kind: Kind, generation: nat, at: nat)

  datatype Answer =
    | Checked(result: Result)
    | Status(unauthorized: bool)
    | Accepted(accepted: bool)
    | LogoutStatus(status: Option<int>)

  predicate Fits(kind: Kind, answer: Answer) {
    match kind
    case Resume(_) => answer.Checked?
    case Verify => answer.Checked?
    case Fetch => answer.Status?
    case Login => answer.Accepted?
    case Logout => answer.LogoutStatus?
  }

  function Effect(p: Page, t: Task, a: Answer): Page
    requires Fits(t.kind, a)
  {
    match t.kind
    case Resume(initial) => Resumed(p, t.generation, initial, a.result)
    case Verify => Verified(p, t.generation, a.result)
    case Fetch => Fetched(p, t.generation, a.unauthorized)
    case Login => LoginAnswered(p, a.accepted)
    case Logout => LogoutAnswered(p, a.status)
  }

  /** One answer, and what it made of the page. */
  datatype Entry = Entry(task: Task, answer: Answer, before: Page, after: Page)

  datatype State = State(page: Page, tasks: map<nat, Task>, next: nat, log: seq<Entry>)

  /** What a page load begins: the sign-out that an earlier page could not deliver, or else a resume. */
  function Start(signOutPending: bool): State {
    if signOutPending then State(Page(1, false, true, None), map[0 := Task(Logout, 1, 0)], 1, [])
    else State(Page(1, false, false, None), map[0 := Task(Resume(true), 1, 0)], 1, [])
  }

  datatype Move = Begin(kind: Kind) | Settle(id: nat, answer: Answer)

  function Begun(s: State, kind: Kind): State {
    s.(page := if kind.Logout? then s.page.(signingOut := true) else s.page,
       tasks := s.tasks[s.next := Task(kind, s.page.generation, |s.log|)], next := s.next + 1)
  }

  function Settled(s: State, id: nat, answer: Answer): State
    requires id in s.tasks && Fits(s.tasks[id].kind, answer)
  {
    var task := s.tasks[id];
    var after := Effect(s.page, task, answer);
    var settled := State(after, s.tasks - {id}, s.next, s.log + [Entry(task, answer, s.page, after)]);
    if task.kind.Login? && answer.accepted then Begun(settled, Resume(false)) else settled
  }

  /** A page only resumes on load and after signing in. */
  function Step(s: State, m: Move): State {
    match m
    case Begin(kind) => if kind.Resume? then s else Begun(s, kind)
    case Settle(id, answer) => if id in s.tasks && Fits(s.tasks[id].kind, answer) then Settled(s, id, answer) else s
  }

  function Run(signOutPending: bool, moves: seq<Move>): State {
    if moves == [] then Start(signOutPending)
    else Step(Run(signOutPending, moves[..|moves| - 1]), moves[|moves| - 1])
  }
}
