/** One work queue's story: what the detector decides and announces about it over a whole run,
told from that queue's own readings and nothing else. */
module QueueWatch {
  import opened Wrappers
  import opened Events
  import opened EventTheorems

  /** A reading of the queue, or a failed scrape of its pipeline. */
  datatype Glance = Lost | Seen(q: Queue, lists: bool, at: real)

  function GlanceOf(o: Obs, key: Key): Option<Glance> {
    match o
    case LostQueues(pid) => if pid == key.0 then Some(Lost) else None
    case SeenQueue(pid, q, lists, at) => if (pid, q.name) == key then Some(Seen(q, lists, at)) else None
    case _ => None
  }

  function Glances(obs: seq<Obs>, key: Key): seq<Glance> {
    if obs == [] then []
    else
      var n := |obs| - 1;
      Glances(obs[..n], key) + match GlanceOf(obs[n], key) case Some(g) => [g] case None => []
  }

  lemma {:induction false} GlancesConcat(a: seq<Obs>, b: seq<Obs>, key: Key)
    ensures Glances(a + b, key) == Glances(a, key) + Glances(b, key)
  {
    if b == [] {
      assert a + b == a;
    } else {
      GlancesConcat(a, b[..|b| - 1], key);
      assert (a + b)[..|a + b| - 1] == a + b[..|b| - 1];
    }
  }

  function Next(bound: real, w: Watch, g: Glance): Watch {
    match g
    case Lost => UNWATCHED
    case Seen(q, lists, at) => WatchAfter(bound, w, q, lists, at)
  }

  function After(bound: real, gs: seq<Glance>): Watch {
    if gs == [] then UNWATCHED else Next(bound, After(bound, gs[..|gs| - 1]), gs[|gs| - 1])
  }

  /** The condition decided at the last of the glances. */
  function VerdictOf(bound: real, gs: seq<Glance>): Option<ConditionKind>
    requires gs != [] && gs[|gs| - 1].Seen?
  {
    var g := gs[|gs| - 1];
    Decided(bound, After(bound, gs[..|gs| - 1]), g.q, g.lists, g.at)
  }

  /** The events announced at the last of the glances. */
  function AnnouncedAt(bound: real, gs: seq<Glance>): seq<Found>
    requires gs != []
  {
    match gs[|gs| - 1]
    case Lost => []
    case Seen(q, _, _) => ConditionChange(After(bound, gs[..|gs| - 1]).known, VerdictOf(bound, gs), q.name)
  }

  // ---------------------------------------------------------------- the detector tells this story

  lemma {:induction false} DetectorWatches(cfg: Config, obs: seq<Obs>, key: Key)
    requires key.1 in cfg.work
    ensures WatchOf(Run(cfg, FRESH, obs).memory, key) == After(cfg.bound, Glances(obs, key))
  {
    if obs != [] {
      var n := |obs| - 1;
      DetectorWatches(cfg, obs[..n], key);
      SliceStep(cfg, Run(cfg, FRESH, obs[..n]).memory, obs[n], key);
      var before, g := Glances(obs[..n], key), GlanceOf(obs[n], key);
      if g.Some? {
        assert (before + [g.value])[..|before|] == before;
      } else {
        assert Glances(obs, key) == before;
      }
    }
  }

  /** Whatever else the run reads, the verdict and the events of a work queue's reading are those of
  the queue's own story. */
  lemma QueueReading(cfg: Config, obs: seq<Obs>, pid: string, q: Queue, lists: bool, at: real)
    requires q.name in cfg.work
    ensures var gs := Glances(obs, (pid, q.name)) + [Seen(q, lists, at)];
            var e := Observed(cfg, Run(cfg, FRESH, obs).memory, SeenQueue(pid, q, lists, at));
            && e.verdicts == [Verdict(pid, q.name, VerdictOf(cfg.bound, gs))]
            && e.found == AnnouncedAt(cfg.bound, gs)
  {
    DetectorWatches(cfg, obs, (pid, q.name));
    var before := Glances(obs, (pid, q.name));
    assert (before + [Seen(q, lists, at)])[..|before|] == before;
  }

  // ---------------------------------------------------------------- events are changes of kind

  /** The kind a queue's reading is compared with: that of its last reading, unless the scrape has
  failed since or there was none. */
  function Compared(bound: real, gs: seq<Glance>): Option<Option<ConditionKind>> {
    if gs == [] || gs[|gs| - 1].Lost? then None else Some(Remembered(VerdictOf(bound, gs)))
  }

  lemma KnownIsCompared(bound: real, gs: seq<Glance>)
    ensures After(bound, gs).known == Compared(bound, gs)
  {
  }

  /** A work-queue event occurs exactly when the kind remembered of the queue's previous reading
  differs from this one's; it is then the only one, and names what the queue is now. */
  lemma EventsAreChanges(bound: real, gs: seq<Glance>, g: Glance)
    requires g.Seen?
    ensures var now := VerdictOf(bound, gs + [g]);
            var before := Compared(bound, gs);
            var announced := AnnouncedAt(bound, gs + [g]);
            && (announced != [] <==> before.Some? && before.value != Remembered(now))
            && (announced != [] ==> announced == [match now
                  case None => Found(Info, QueueRecovered, g.q.name)
                  case Some(NoConsumer) => Found(Error, QueueProblem(Some(NoConsumer)), g.q.name)
                  case Some(Stalled) => Found(Error, QueueProblem(Some(Stalled)), g.q.name)
                  case Some(AwaitingMarker) => Found(Error, QueueProblem(None), g.q.name)])
  {
    assert (gs + [g])[..|gs|] == gs;
    KnownIsCompared(bound, gs);
  }

  // ---------------------------------------------------------------- the expected wait

  predicate Waits(g: Glance) {
    g.Seen? && g.lists && g.q.messages > 0 && g.q.consumers == 0
  }

  /** The readings from `j` on are one maximal run of backlog without a consumer, listed by the owner. */
  ghost predicate WaitRun(gs: seq<Glance>, j: nat) {
    && j < |gs|
    && (forall i :: j <= i < |gs| ==> Waits(gs[i]))
    && (j == 0 || !Waits(gs[j - 1]))
  }

  lemma {:induction false} NotWaiting(bound: real, gs: seq<Glance>)
    requires gs == [] || !Waits(gs[|gs| - 1])
    ensures After(bound, gs).awaiting == None
  {
  }

  lemma {:induction false} WaitBegan(bound: real, gs: seq<Glance>, j: nat)
    requires WaitRun(gs, j)
    ensures After(bound, gs).awaiting == Some(gs[j].at)
  {
    var n := |gs| - 1;
    if j == n {
      NotWaiting(bound, gs[..n]);
    } else {
      WaitBegan(bound, gs[..n], j);
    }
    assert Waits(gs[n]);
  }

  /** In a run of expected waiting the verdict depends on the run's age alone. */
  lemma WaitIsBounded(bound: real, gs: seq<Glance>, j: nat)
    requires WaitRun(gs, j)
    ensures var age := gs[|gs| - 1].at - gs[j].at;
            VerdictOf(bound, gs) == Some(if age < bound then AwaitingMarker else NoConsumer)
  {
    WaitBegan(bound, gs, j);
    assert Waits(gs[|gs| - 1]);
  }

  lemma WaitHasBeginning(gs: seq<Glance>) returns (j: nat)
    requires gs != [] && Waits(gs[|gs| - 1])
    ensures WaitRun(gs, j)
  {
    j := |gs| - 1;
    while j > 0 && Waits(gs[j - 1])
      invariant j < |gs| && forall i :: j <= i < |gs| ==> Waits(gs[i])
    {
      j := j - 1;
    }
  }

  ghost predicate YoungWait(bound: real, gs: seq<Glance>, j: nat) {
    WaitRun(gs, j) && gs[|gs| - 1].at - gs[j].at < bound
  }

  /** What is decided at any reading of a queue: it waits for its marker exactly while a run of expected waiting
  is younger than the bound; it has no consumer exactly when that is so, with a backlog, outside such a
  run; it can be stalled only with a backlog and consumers; and nothing is wrong with an empty queue. */
  lemma WhatIsDecided(bound: real, gs: seq<Glance>)
    requires gs != [] && gs[|gs| - 1].Seen?
    ensures var q, verdict := gs[|gs| - 1].q, VerdictOf(bound, gs);
            var young := exists j: nat :: YoungWait(bound, gs, j);
            && (verdict == Some(AwaitingMarker) <==> young)
            && (verdict == Some(NoConsumer) <==> q.messages > 0 && q.consumers == 0 && !young)
            && (verdict == Some(Stalled) ==> q.messages > 0 && q.consumers > 0)
            && (q.messages <= 0 ==> verdict == None)
  {
    if Waits(gs[|gs| - 1]) {
      var j := WaitHasBeginning(gs);
      WaitIsBounded(bound, gs, j);
      assert gs[|gs| - 1].at - gs[j].at < bound ==> YoungWait(bound, gs, j);
      forall i: nat | YoungWait(bound, gs, i) ensures VerdictOf(bound, gs) == Some(AwaitingMarker) {
        WaitIsBounded(bound, gs, i);
      }
    } else {
      NotWaiting(bound, gs);
      assert forall j: nat :: !WaitRun(gs, j);
    }
  }

  /** Everything announced at the glances after index `j`. */
  function AnnouncedAfter(bound: real, gs: seq<Glance>, j: nat): seq<Found> {
    if |gs| <= j + 1 then [] else AnnouncedAfter(bound, gs[..|gs| - 1], j) + AnnouncedAt(bound, gs)
  }

  /** From one reading of a wait to the next, the verdict announces something only by crossing the bound. */
  lemma WaitStep(bound: real, gs: seq<Glance>, j: nat)
    requires WaitRun(gs, j) && j < |gs| - 1
    ensures var n := |gs| - 1;
            WaitRun(gs[..n], j)
            && AnnouncedAt(bound, gs) == if (gs[n - 1].at - gs[j].at < bound) == (gs[n].at - gs[j].at < bound) then []
                                         else [Found(Error, QueueProblem(if gs[n].at - gs[j].at < bound then None
                                                                         else Some(NoConsumer)), gs[n].q.name)]
  {
    var n := |gs| - 1;
    assert WaitRun(gs[..n], j);
    WaitIsBounded(bound, gs[..n], j);
    WaitIsBounded(bound, gs, j);
    assert gs[..n] + [gs[n]] == gs;
    assert Waits(gs[n - 1]) && Waits(gs[n]);
    EventsAreChanges(bound, gs[..n], gs[n]);
  }

  /** Over a whole run of waiting, on a clock that does not go back, the console is told once, when the
  bound is crossed, and not at all before it. (A bound of zero is crossed at the first reading.) */
  lemma {:induction false} CrossingAnnouncedOnce(bound: real, gs: seq<Glance>, j: nat)
    requires WaitRun(gs, j)
    requires forall i, k :: j <= i <= k < |gs| ==> gs[i].at <= gs[k].at
    requires forall i :: j <= i < |gs| ==> gs[i].q.name == gs[j].q.name
    ensures AnnouncedAfter(bound, gs, j) ==
            if bound <= 0.0 || gs[|gs| - 1].at - gs[j].at < bound then []
               else [Found(Error, QueueProblem(Some(NoConsumer)), gs[j].q.name)]
  {
    var n := |gs| - 1;
    if j < n {
      WaitStep(bound, gs, j);
      CrossingAnnouncedOnce(bound, gs[..n], j);
      assert gs[j].at <= gs[n - 1].at <= gs[n].at;
    }
  }

  /** When an expected wait ends well, nothing is announced. */
  lemma EndOfWaitIsQuiet(bound: real, gs: seq<Glance>, g: Glance)
    requires gs != [] && gs[|gs| - 1].Seen? && VerdictOf(bound, gs) == Some(AwaitingMarker)
    requires g.Seen? && VerdictOf(bound, gs + [g]) == None
    ensures AnnouncedAt(bound, gs + [g]) == []
  {
    EventsAreChanges(bound, gs, g);
  }

  /** An expected wait should raise no alarm. That holds
  exactly when the reading before it was not itself remembered as a problem: otherwise the wait is
  announced at error level, as a problem with no kind. */
  lemma ExpectedWaitAnnounced(bound: real, gs: seq<Glance>, g: Glance)
    requires g.Seen? && VerdictOf(bound, gs + [g]) == Some(AwaitingMarker)
    ensures AnnouncedAt(bound, gs + [g]) ==
            if Compared(bound, gs).Some? && Compared(bound, gs).value.Some?
            then [Found(Error, QueueProblem(None), g.q.name)] else []
  {
    EventsAreChanges(bound, gs, g);
  }

  /** A queue that had no consumer for no listed reason and then is listed as waiting. */
  lemma ExpectedWaitAnnouncedExample(name: string)
    ensures var q := Queue(name, 5, 0, None);
            var gs := [Seen(q, false, 0.0), Seen(q, true, 2.0)];
            && VerdictOf(AWAITING_MARKER_SECONDS, gs) == Some(AwaitingMarker)
            && AnnouncedAt(AWAITING_MARKER_SECONDS, gs) == [Found(Error, QueueProblem(None), name)]
  {
    var q := Queue(name, 5, 0, None);
    var first := [Seen(q, false, 0.0)];
    var gs := [Seen(q, false, 0.0), Seen(q, true, 2.0)];
    assert gs[..1] == first && first[..0] == [];
    assert After(AWAITING_MARKER_SECONDS, first) == Watch(None, Some(0.0), Some(Some(NoConsumer)), None);
  }
}
