/** One panel of the ledger tab. Reads of it may overlap; an answer superseded by a newer read is dropped. */
module LedgerReads {
  import opened Wrappers

  datatype Kind = Density | Works | Work

  datatype Answer = Data(rows: int) | NotRefreshed | Failed

  /** What the panel shows: the last rows drawn (none while the ledger is being built), and its notices. */
  datatype Panel = Panel(generation: nat, rows: Option<int>, loading: bool, error: bool, building: bool, retry: bool)

  const EMPTY := Panel(0, None, false, false, false, false)

  function Asked(p: Panel): Panel {
    p.(generation := p.generation + 1, loading := true, error := false, retry := false)
  }

  /** A single work is never "not yet refreshed": that answer is an error like any other. */
  function Answered(kind: Kind, p: Panel, generation: nat, answer: Answer): Panel {
    if generation != p.generation then p
    else match answer
      case Data(rows) => p.(rows := Some(rows), building := false, loading := false)
      case NotRefreshed =>
        if kind.Work? then p.(building := false, error := true, loading := false)
        else p.(rows := None, building := true, retry := true, loading := false)
      case Failed => p.(building := false, error := true, loading := false)
  }

  /** What going back to the login form leaves of the panel. */
  function Cleared(p: Panel): Panel {
    p.(building := false, retry := false)
  }

  class LedgerPanel {
    const kind: Kind
    var generation: nat
    var rows: Option<int>
    var loading: bool
    var error: bool
    var building: bool
    var retry: bool

    function Now(): Panel
      reads this
    {
      Panel(generation, rows, loading, error, building, retry)
    }

    constructor (kind: Kind)
      ensures Now() == EMPTY && this.kind == kind
    {
      this.kind := kind;
      generation, rows, loading, error, building, retry := 0, None, false, false, false, false;
    }

    /** A read, up to its request. */
    method Ask() returns (asked: nat)
      modifies this
      ensures Now() == Asked(old(Now())) && asked == generation
    {
      generation := generation + 1;
      retry := false;
      loading := true;
      error := false;
      asked := generation;
    }

    /** A read, from its answer on. */
    method Heed(asked: nat, answer: Answer)
      modifies this
      ensures Now() == Answered(kind, old(Now()), asked, answer)
    {
      match answer {
        case Data(drawn) =>
          if generation == asked {
            building := false;
            rows := Some(drawn);
          }
        case NotRefreshed =>
          if kind.Work? {
            Fail(asked);
          } else if generation == asked {
            building := true;
            rows := None;
            retry := true;
          }
        case Failed =>
          Fail(asked);
      }
      if generation == asked {
        loading := false;
      }
    }

    method Fail(asked: nat)
      modifies this
      ensures Now() == if asked == generation then old(Now()).(building := false, error := true) else old(Now())
    {
      if generation == asked {
        building := false;
        error := true;
      }
    }

    /** The console goes back to its login form: no retry is left, and nothing is shown as being built. */
    method SignedOut()
      modifies this
      ensures Now() == Cleared(old(Now()))
    {
      retry := false;
      building := false;
    }
  }

  // ---------------------------------------------------------------- every ordering

  /** The panel, the reads not answered yet, the reads whose answers were heeded, in order, and whether the
  console has signed out since the last of those. */
  datatype State = State(panel: Panel, pending: set<nat>, heeded: seq<(nat, Answer)>, left: bool)

  datatype Move = Read | Settle(asked: nat, answer: Answer) | SignOut

  function Step(kind: Kind, s: State, m: Move): State {
    match m
    case Read => s.(panel := Asked(s.panel), pending := s.pending + {s.panel.generation + 1})
    case Settle(asked, answer) =>
      if asked !in s.pending then s
      else
        var panel := Answered(kind, s.panel, asked, answer);
        if panel == s.panel then s.(pending := s.pending - {asked})
        else State(panel, s.pending - {asked}, s.heeded + [(asked, answer)], false)
    case SignOut => s.(panel := Cleared(s.panel), left := true)
  }

  function Run(kind: Kind, moves: seq<Move>): State {
    if moves == [] then State(EMPTY, {}, [], false)
    else Step(kind, Run(kind, moves[..|moves| - 1]), moves[|moves| - 1])
  }

  ghost predicate InOrder(heeded: seq<(nat, Answer)>) {
    forall j, k :: 0 <= j < k < |heeded| ==> heeded[j].0 < heeded[k].0
  }

  /** A list that catalog-api has not built yet. */
  predicate IsBuilding(kind: Kind, answer: Answer) {
    answer.NotRefreshed? && !kind.Work?
  }

  predicate IsFailure(kind: Kind, answer: Answer) {
    answer.Failed? || (answer.NotRefreshed? && kind.Work?)
  }

  /** The rows last answered, none since a list was said to be being built: a failure leaves them. */
  function LastDrawn(kind: Kind, heeded: seq<(nat, Answer)>): Option<int> {
    if heeded == [] then None
    else
      var answer := heeded[|heeded| - 1].1;
      if answer.Data? then Some(answer.rows)
      else if IsBuilding(kind, answer) then None
      else LastDrawn(kind, heeded[..|heeded| - 1])
  }

  /** The last read heeded, or zero, which is no read. */
  function LastAsked(heeded: seq<(nat, Answer)>): nat {
    if heeded == [] then 0 else heeded[|heeded| - 1].0
  }

  ghost predicate Inv(kind: Kind, s: State) {
    && (forall n :: n in s.pending ==> 0 < n <= s.panel.generation)
    && (forall k :: 0 <= k < |s.heeded| ==> 0 < s.heeded[k].0 <= s.panel.generation && s.heeded[k].0 !in s.pending)
    && InOrder(s.heeded)
    && Shows(kind, s)
  }

  /** What each part of the panel shows, told from the reads alone. */
  ghost predicate Shows(kind: Kind, s: State) {
    var p := s.panel;
    var last := if s.heeded == [] then None else Some(s.heeded[|s.heeded| - 1].1);
    var newest := last.Some? && LastAsked(s.heeded) == p.generation;
    && (p.loading <==> p.generation in s.pending)
    && p.rows == LastDrawn(kind, s.heeded)
    && (p.building <==> last.Some? && IsBuilding(kind, last.value) && !s.left)
    && (p.retry <==> newest && IsBuilding(kind, last.value) && !s.left)
    && (p.error <==> newest && IsFailure(kind, last.value))
  }

  /** The newest read's answer: it is the next one heeded. */
  lemma HeededKeeps(kind: Kind, s: State, asked: nat, answer: Answer)
    requires Inv(kind, s) && asked in s.pending && asked == s.panel.generation
    ensures Inv(kind, Step(kind, s, Settle(asked, answer)))
    ensures Step(kind, s, Settle(asked, answer)).heeded == s.heeded + [(asked, answer)]
  {
    assert Answered(kind, s.panel, asked, answer).loading != s.panel.loading;
    assert (s.heeded + [(asked, answer)])[..|s.heeded|] == s.heeded;
  }

  lemma StepKeeps(kind: Kind, s: State, m: Move)
    requires Inv(kind, s)
    ensures Inv(kind, Step(kind, s, m))
  {
    if m.Settle? && m.asked in s.pending && m.asked == s.panel.generation {
      HeededKeeps(kind, s, m.asked, m.answer);
    }
  }

  /** In any run the reads heeded are ever newer ones. The spinner shows exactly while the newest read is
  unanswered; the rows are those of the last data answered, through failures, and none while a list is
  being built; the notices and the retry are what the last answer heeded says, an error and a retry only
  while it is the newest read's, and "being built" and its retry only until a sign-out. */
  lemma {:induction false} PanelShowsNewest(kind: Kind, moves: seq<Move>)
    ensures Inv(kind, Run(kind, moves))
  {
    if moves != [] {
      PanelShowsNewest(kind, moves[..|moves| - 1]);
      StepKeeps(kind, Run(kind, moves[..|moves| - 1]), moves[|moves| - 1]);
    }
  }

  /** An answer is heeded exactly when no newer read had been asked for by then; a superseded one changes
  nothing at all. */
  lemma SupersededReadsAreDropped(kind: Kind, moves: seq<Move>, asked: nat, answer: Answer)
    requires asked in Run(kind, moves).pending
    ensures var s := Run(kind, moves);
            var t := Step(kind, s, Settle(asked, answer));
            && (asked == s.panel.generation ==> t.heeded == s.heeded + [(asked, answer)])
            && (asked < s.panel.generation ==> t.panel == s.panel && t.heeded == s.heeded)
  {
    PanelShowsNewest(kind, moves);
    if asked == Run(kind, moves).panel.generation {
      HeededKeeps(kind, Run(kind, moves), asked, answer);
    }
  }
}
