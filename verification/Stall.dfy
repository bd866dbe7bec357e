/** The stalled verdict, told from the broker's raw counter.

The rate tracker turns the cumulative ack counter into optional rates, and the detector turns runs of
computed zeros into a verdict. Composed over any sequence of polls, whatever else the readings hold,
a queue is stalled exactly when it has consumers and its counter has stood still, with a backlog, over
an unbroken run of readings at least STALL_SECONDS old. */
module Stall {
  import opened Wrappers
  import opened Events
  import opened EventStories
  import opened EventTheorems
  import opened QueueWatch
  import opened QueueMetrics

  /** One collection cycle of one pipeline: the monotonic clock the tracker reads, the reading's own
  timestamp, and the scrape, if it did not fail. */
  datatype Poll = Poll(mono: real, wall: real, scrape: Option<map<QueueKey, Sample>>)

  /** The tracker's baselines before poll `n`; a failed scrape never reaches it. */
  function Tracker(polls: seq<Poll>, n: nat): Baselines
    requires n <= |polls|
  {
    if n == 0 then map[]
    else
      match polls[n - 1].scrape
      case None => Tracker(polls, n - 1)
      case Some(samples) => map key | key in samples :: (polls[n - 1].mono, samples[key])
  }

  predicate Reported(polls: seq<Poll>, n: nat, key: QueueKey) {
    n < |polls| && polls[n].scrape.Some? && key in polls[n].scrape.value
  }

  /** The queue as poll `n` reports it, with the tracker's ack rate. */
  function QueueAt(polls: seq<Poll>, n: nat, key: QueueKey): Queue
    requires Reported(polls, n, key)
  {
    var sample := polls[n].scrape.value[key];
    Queue(key.1, sample.messages, sample.consumers, RatesOf(Tracker(polls, n), key, sample, polls[n].mono).ack)
  }

  /** What poll `n` shows the detector of the queue: nothing when a good scrape does not name it. */
  function GlanceAt(polls: seq<Poll>, lists: seq<bool>, n: nat, key: QueueKey): seq<Glance>
    requires n < |polls| == |lists|
  {
    if polls[n].scrape.None? then [Lost]
    else if key in polls[n].scrape.value then [Seen(QueueAt(polls, n, key), lists[n], polls[n].wall)]
    else []
  }

  function GlancesTo(polls: seq<Poll>, lists: seq<bool>, n: nat, key: QueueKey): seq<Glance>
    requires n <= |polls| == |lists|
  {
    if n == 0 then [] else GlancesTo(polls, lists, n - 1, key) + GlanceAt(polls, lists, n - 1, key)
  }

  // ---------------------------------------------------------------- the run, on raw counters

  /** The last poll before `n` whose scrape did not fail. */
  function LastScrape(polls: seq<Poll>, n: nat): Option<nat>
    requires n <= |polls|
    ensures LastScrape(polls, n).Some? ==>
            LastScrape(polls, n).value < n && polls[LastScrape(polls, n).value].scrape.Some?
  {
    if n == 0 then None
    else if polls[n - 1].scrape.Some? then Some(n - 1)
    else LastScrape(polls, n - 1)
  }

  /** At poll `n` the queue has a backlog and its counter reads as at the previous scrape. */
  predicate StandsStill(polls: seq<Poll>, n: nat, key: QueueKey) {
    && Reported(polls, n, key)
    && polls[n].scrape.value[key].messages > 0
    && LastScrape(polls, n).Some?
    && var h := LastScrape(polls, n).value;
       && Reported(polls, h, key)
       && polls[h].mono < polls[n].mono
       && polls[h].scrape.value[key].acked == polls[n].scrape.value[key].acked
  }

  /** Every poll from `j` to `n` stands still, with no silence longer than thirty seconds between them. */
  ghost predicate Unbroken(polls: seq<Poll>, j: nat, n: nat, key: QueueKey) {
    && j <= n < |polls|
    && (forall i :: j <= i <= n ==> StandsStill(polls, i, key))
    && (forall i :: j < i <= n ==> polls[i].wall - polls[i - 1].wall <= 30.0)
  }

  /** `j` is where the current unbroken run began. */
  ghost predicate RunBegan(polls: seq<Poll>, j: nat, n: nat, key: QueueKey) {
    Unbroken(polls, j, n, key) && (j == 0 || !Unbroken(polls, j - 1, n, key))
  }

  /** The rate at poll `n` would not be a computed zero: the scrape failed, or missed the queue now or the
  time before, or no time passed, or the counter moved, up or, at a reset, down. */
  predicate Breaks(polls: seq<Poll>, n: nat, key: QueueKey)
    requires n < |polls|
  {
    || !Reported(polls, n, key) || LastScrape(polls, n).None?
    || var h := LastScrape(polls, n).value;
       || !Reported(polls, h, key) || polls[n].mono <= polls[h].mono
       || polls[n].scrape.value[key].acked != polls[h].scrape.value[key].acked
  }

  /** Any such poll, an empty queue, or a silence longer than GAP_SECONDS, restarts the run. */
  lemma BreaksRestart(polls: seq<Poll>, j: nat, n: nat, i: nat, key: QueueKey)
    requires RunBegan(polls, j, n, key) && i <= n
    ensures Breaks(polls, i, key) || polls[i].scrape.value[key].messages <= 0 ==> i < j
    ensures i > 0 && polls[i].wall - polls[i - 1].wall > GAP_SECONDS ==> i <= j
  {
    if j <= i {
      assert StandsStill(polls, i, key);
    }
  }

  // ---------------------------------------------------------------- the tracker

  /** A good scrape as the tracker keeps it. */
  function Baseline(p: Poll): Baselines
    requires p.scrape.Some?
  {
    map key | key in p.scrape.value :: (p.mono, p.scrape.value[key])
  }

  lemma {:induction false} TrackerHoldsLastScrape(polls: seq<Poll>, n: nat)
    requires n <= |polls|
    ensures Tracker(polls, n) == match LastScrape(polls, n)
                                 case None => map[]
                                 case Some(h) => Baseline(polls[h])
  {
    if n > 0 && polls[n - 1].scrape.None? {
      TrackerHoldsLastScrape(polls, n - 1);
    }
  }

  lemma IdleIsStandingStill(polls: seq<Poll>, n: nat, key: QueueKey)
    requires Reported(polls, n, key)
    ensures Idle(QueueAt(polls, n, key)) <==> StandsStill(polls, n, key)
  {
    TrackerHoldsLastScrape(polls, n);
    ComputedZero(Tracker(polls, n), key, polls[n].scrape.value[key], polls[n].mono);
  }

  // ---------------------------------------------------------------- the detector's zero run

  /** Where the detector's remembered run began, if it remembers one after `n` polls. */
  ghost predicate RemembersRun(polls: seq<Poll>, n: nat, key: QueueKey, w: Watch) {
    n > 0 && n <= |polls| ==>
      match polls[n - 1].scrape
      case None => w == UNWATCHED
      case Some(samples) => key in samples ==>
          && w.seen == Some(polls[n - 1].wall)
          && (!StandsStill(polls, n - 1, key) ==> w.zero == None)
          && (forall j: nat :: RunBegan(polls, j, n - 1, key) ==> w.zero == Some(polls[j].wall))
  }

  lemma {:induction false} RunRemembered(bound: real, polls: seq<Poll>, lists: seq<bool>, n: nat, key: QueueKey)
    requires n <= |polls| == |lists|
    ensures RemembersRun(polls, n, key, After(bound, GlancesTo(polls, lists, n, key)))
    decreases n
  {
    if n > 0 {
      RunRemembered(bound, polls, lists, n - 1, key);
      RunRememberedSnoc(bound, polls, lists, n - 1, key);
    }
  }

  lemma AfterLost(bound: real, gs: seq<Glance>)
    ensures After(bound, gs + [Lost]) == UNWATCHED
  {
    assert (gs + [Lost])[..|gs|] == gs;
  }

  lemma AfterSeen(bound: real, gs: seq<Glance>, q: Queue, lists: bool, at: real)
    ensures var w := After(bound, gs + [Seen(q, lists, at)]);
            w.seen == Some(at) && w.zero == ZeroAfter(After(bound, gs), q, at)
  {
    assert (gs + [Seen(q, lists, at)])[..|gs|] == gs;
  }

  lemma RunRememberedSnoc(bound: real, polls: seq<Poll>, lists: seq<bool>, n: nat, key: QueueKey)
    requires n < |polls| == |lists|
    requires RemembersRun(polls, n, key, After(bound, GlancesTo(polls, lists, n, key)))
    ensures RemembersRun(polls, n + 1, key, After(bound, GlancesTo(polls, lists, n + 1, key)))
  {
    var before := GlancesTo(polls, lists, n, key);
    if polls[n].scrape.None? {
      AfterLost(bound, before);
    } else if key in polls[n].scrape.value {
      AfterSeen(bound, before, QueueAt(polls, n, key), lists[n], polls[n].wall);
      IdleIsStandingStill(polls, n, key);
      forall j: nat | RunBegan(polls, j, n, key)
        ensures ZeroAfter(After(bound, before), QueueAt(polls, n, key), polls[n].wall) == Some(polls[j].wall)
      {
        RunContinues(bound, polls, lists, n, key, j);
      }
    }
  }

  lemma RunContinues(bound: real, polls: seq<Poll>, lists: seq<bool>, n: nat, key: QueueKey, j: nat)
    requires n < |polls| == |lists| && Reported(polls, n, key) && RunBegan(polls, j, n, key)
    requires RemembersRun(polls, n, key, After(bound, GlancesTo(polls, lists, n, key)))
    ensures ZeroAfter(After(bound, GlancesTo(polls, lists, n, key)), QueueAt(polls, n, key), polls[n].wall)
            == Some(polls[j].wall)
  {
    IdleIsStandingStill(polls, n, key);
    assert StandsStill(polls, n, key) && n > 0;
    if j < n {
      assert StandsStill(polls, n - 1, key);
      assert Unbroken(polls, j, n - 1, key);
      if j > 0 && Unbroken(polls, j - 1, n - 1, key) {
        assert Unbroken(polls, j - 1, n, key);
      }
      assert RunBegan(polls, j, n - 1, key);
    } else {
      UnbrokenPair(polls, n, key);
    }
  }

  lemma UnbrokenPair(polls: seq<Poll>, n: nat, key: QueueKey)
    requires 0 < n < |polls|
    ensures StandsStill(polls, n - 1, key) && StandsStill(polls, n, key)
            && polls[n].wall - polls[n - 1].wall <= GAP_SECONDS
            ==> Unbroken(polls, n - 1, n, key)
  {
  }

  /** The condition is stalled exactly when, at poll `n`, the queue has consumers and its counter has
  stood still over an unbroken run that began at least sixty seconds before. */
  ghost predicate StalledByCounter(condition: Option<ConditionKind>, polls: seq<Poll>, n: nat, key: QueueKey)
    requires Reported(polls, n, key)
  {
    && (!StandsStill(polls, n, key) ==> condition != Some(Stalled))
    && (forall j: nat :: RunBegan(polls, j, n, key) ==>
         (condition == Some(Stalled) <==>
           polls[n].scrape.value[key].consumers > 0 && polls[n].wall - polls[j].wall >= 60.0))
  }

  /** The verdict at a poll that reports the queue, from the raw counter alone. */
  lemma StalledExactlyWhenStandingStill(bound: real, polls: seq<Poll>, lists: seq<bool>, n: nat, key: QueueKey)
    requires n < |polls| == |lists| && Reported(polls, n, key)
    ensures var gs := GlancesTo(polls, lists, n + 1, key);
            gs != [] && gs[|gs| - 1].Seen? && StalledByCounter(VerdictOf(bound, gs), polls, n, key)
  {
    var before := GlancesTo(polls, lists, n, key);
    var w, q, at := After(bound, before), QueueAt(polls, n, key), polls[n].wall;
    assert (before + [Seen(q, lists[n], at)])[..|before|] == before;
    DecidedStalled(bound, w, q, lists[n], at);
    IdleIsStandingStill(polls, n, key);
    RunRemembered(bound, polls, lists, n, key);
    forall j: nat | RunBegan(polls, j, n, key) ensures ZeroAfter(w, q, at) == Some(polls[j].wall) {
      RunContinues(bound, polls, lists, n, key, j);
      assert StandsStill(polls, n, key);
    }
  }

  /** What the decision takes to be stalled: consumers, and an idle run old enough. */
  lemma DecidedStalled(bound: real, w: Watch, q: Queue, lists: bool, at: real)
    ensures Decided(bound, w, q, lists, at) == Some(Stalled) <==>
            q.consumers > 0 && ZeroAfter(w, q, at).Some? && at - ZeroAfter(w, q, at).value >= STALL_SECONDS
  {
  }

  /** A standing-still queue always has a run, and the run has one beginning. */
  lemma {:induction false} RunHasBeginning(polls: seq<Poll>, n: nat, key: QueueKey) returns (j: nat)
    requires StandsStill(polls, n, key)
    ensures RunBegan(polls, j, n, key)
  {
    j := n;
    while j > 0 && StandsStill(polls, j - 1, key) && polls[j].wall - polls[j - 1].wall <= GAP_SECONDS
      invariant j <= n && Unbroken(polls, j, n, key)
    {
      j := j - 1;
    }
  }

  /** On a clock that does not go back the run's beginning need not be named: some unbroken run of the
  required age is enough, and is needed. */
  lemma StalledOnSteadyClock(bound: real, polls: seq<Poll>, lists: seq<bool>, n: nat, key: QueueKey)
    requires n < |polls| == |lists| && Reported(polls, n, key)
    requires forall i, k :: 0 <= i <= k < |polls| ==> polls[i].wall <= polls[k].wall
    ensures var gs := GlancesTo(polls, lists, n + 1, key);
            && gs != [] && gs[|gs| - 1].Seen?
            && (VerdictOf(bound, gs) == Some(Stalled) <==>
                 && polls[n].scrape.value[key].consumers > 0
                 && exists j: nat :: Unbroken(polls, j, n, key) && polls[n].wall - polls[j].wall >= 60.0)
  {
    StalledExactlyWhenStandingStill(bound, polls, lists, n, key);
    if StandsStill(polls, n, key) {
      var j := RunHasBeginning(polls, n, key);
      forall i: nat | Unbroken(polls, i, n, key) ensures j <= i {
        if i < j {
          assert Unbroken(polls, j - 1, n, key);
        }
      }
    } else {
      assert forall j: nat :: !Unbroken(polls, j, n, key);
    }
  }

  // ---------------------------------------------------------------- consumers during the run

  predicate Served(polls: seq<Poll>, n: nat, key: QueueKey) {
    Reported(polls, n, key) && polls[n].scrape.value[key].consumers > 0
  }

  ghost predicate ServedFrom(polls: seq<Poll>, j: nat, n: nat, key: QueueKey) {
    forall i :: j <= i <= n ==> Served(polls, i, key)
  }

  /** The detector's own description of stalled: the counter stands still, and consumers are there, for
  sixty seconds. */
  ghost predicate StalledAsDescribed(polls: seq<Poll>, n: nat, key: QueueKey) {
    exists j: nat :: Unbroken(polls, j, n, key) && ServedFrom(polls, j, n, key)
                     && polls[n].wall - polls[j].wall >= 60.0
  }

  /** A run old enough, with consumers now, but none at `u`, and the part of it since then too young. */
  ghost predicate ServedTooShort(polls: seq<Poll>, j: nat, u: nat, n: nat, key: QueueKey) {
    && RunBegan(polls, j, n, key) && polls[n].wall - polls[j].wall >= STALL_SECONDS
    && j <= u < n && !Served(polls, u, key) && ServedFrom(polls, u + 1, n, key)
    && polls[n].wall - polls[u + 1].wall < STALL_SECONDS
  }

  lemma LastUnserved(polls: seq<Poll>, j: nat, n: nat, key: QueueKey) returns (u: nat)
    requires j <= n && Served(polls, n, key) && !ServedFrom(polls, j, n, key)
    ensures j <= u < n && !Served(polls, u, key) && ServedFrom(polls, u + 1, n, key)
  {
    u := n;
    while Served(polls, u, key)
      invariant j <= u <= n && ServedFrom(polls, u + 1, n, key)
      decreases u
    {
      assert u > j by {
        if u == j {
          assert ServedFrom(polls, j, n, key);
        }
      }
      u := u - 1;
    }
  }

  /** On a clock that does not go back, the verdict is stalled whenever the description says so; and it is
  stalled without that exactly when the queue has consumers now, the run is old enough, and the part of it
  since its last reading without a consumer is not. */
  lemma StalledBeyondDescription(bound: real, polls: seq<Poll>, lists: seq<bool>, n: nat, key: QueueKey)
    requires n < |polls| == |lists| && Reported(polls, n, key)
    requires forall i, k :: 0 <= i <= k < |polls| ==> polls[i].wall <= polls[k].wall
    ensures var gs := GlancesTo(polls, lists, n + 1, key);
            && gs != [] && gs[|gs| - 1].Seen?
            && (StalledAsDescribed(polls, n, key) ==> VerdictOf(bound, gs) == Some(Stalled))
            && (VerdictOf(bound, gs) == Some(Stalled) && !StalledAsDescribed(polls, n, key) <==>
                  exists j: nat, u: nat :: ServedTooShort(polls, j, u, n, key))
  {
    StalledOnSteadyClock(bound, polls, lists, n, key);
    StalledExactlyWhenStandingStill(bound, polls, lists, n, key);
    var gs := GlancesTo(polls, lists, n + 1, key);
    if StalledAsDescribed(polls, n, key) {
      assert Served(polls, n, key);
    }
    if VerdictOf(bound, gs) == Some(Stalled) && !StalledAsDescribed(polls, n, key) {
      var j := RunHasBeginning(polls, n, key);
      assert !ServedFrom(polls, j, n, key);
      var u := LastUnserved(polls, j, n, key);
      assert Unbroken(polls, u + 1, n, key);
      assert ServedTooShort(polls, j, u, n, key);
    }
    forall j: nat, u: nat | ServedTooShort(polls, j, u, n, key)
      ensures VerdictOf(bound, gs) == Some(Stalled) && !StalledAsDescribed(polls, n, key)
    {
      assert Served(polls, n, key);
      forall i: nat | ServedFrom(polls, i, n, key) && i <= n ensures i > u {
        if i <= u {
          assert false;
        }
      }
    }
  }

  /** Twenty seconds apart, five messages waiting and none acked. */
  function IdlePolls(key: QueueKey): seq<Poll> {
    var alone, served := Sample(5, 5, 0, 0, 9.0, 4.0), Sample(5, 5, 0, 1, 9.0, 4.0);
    [Poll(0.0, 0.0, Some(map[key := alone])), Poll(20.0, 20.0, Some(map[key := alone])),
     Poll(40.0, 40.0, Some(map[key := alone])), Poll(60.0, 60.0, Some(map[key := alone])),
     Poll(80.0, 80.0, Some(map[key := served]))]
  }

  /** A queue that had no consumer until just now is stalled at once. */
  lemma StalledWithItsFirstConsumer(bound: real, lists: seq<bool>, key: QueueKey)
    requires |lists| == 5
    ensures var gs := GlancesTo(IdlePolls(key), lists, 5, key);
            && gs != [] && gs[|gs| - 1].Seen? && VerdictOf(bound, gs) == Some(Stalled)
            && !StalledAsDescribed(IdlePolls(key), 4, key)
  {
    var polls := IdlePolls(key);
    assert LastScrape(polls, 0) == None && LastScrape(polls, 1) == Some(0) && LastScrape(polls, 2) == Some(1);
    assert LastScrape(polls, 3) == Some(2) && LastScrape(polls, 4) == Some(3);
    assert StandsStill(polls, 1, key) && StandsStill(polls, 2, key) && StandsStill(polls, 3, key);
    assert StandsStill(polls, 4, key) && !StandsStill(polls, 0, key);
    assert RunBegan(polls, 1, 4, key);
    assert !Served(polls, 3, key) && ServedFrom(polls, 4, 4, key);
    assert ServedTooShort(polls, 1, 3, 4, key);
    StalledBeyondDescription(bound, polls, lists, 4, key);
  }

  // ---------------------------------------------------------------- inside whole readings

  predicate ReportedAs(polls: seq<Poll>, n: nat, vhost: string, q: Queue) {
    Reported(polls, n, (vhost, q.name)) && q == QueueAt(polls, n, (vhost, q.name))
  }

  /** The pipeline's part of reading `n` lists exactly the queues of poll `n`, in any order. */
  ghost predicate Carries(p: Pipeline, polls: seq<Poll>, n: nat, vhost: string) {
    && n < |polls|
    && p.available == polls[n].scrape.Some?
    && (p.available ==>
         && (forall key :: key in polls[n].scrape.value ==> key.0 == vhost)
         && (forall i :: 0 <= i < |p.queues| ==> ReportedAs(polls, n, vhost, p.queues[i]))
         && (forall i, j :: 0 <= i < j < |p.queues| ==> p.queues[i].name != p.queues[j].name)
         && (forall key :: key in polls[n].scrape.value ==>
             exists i :: 0 <= i < |p.queues| && p.queues[i].name == key.1))
  }

  /** The readings hold pipeline `pid` once each, as the polls give it, beside anything else. */
  ghost predicate Embeds(rs: seq<Reading>, ps: seq<Pipeline>, polls: seq<Poll>, pid: string, vhost: string) {
    && |rs| == |ps| == |polls|
    && (forall i :: 0 <= i < |rs| ==> Kept(rs[i].pipelines, pid) == [(pid, ps[i])] && rs[i].at == polls[i].wall)
    && (forall i :: 0 <= i < |rs| ==> Carries(ps[i], polls, i, vhost))
  }

  function Listed(cfg: Config, ps: seq<Pipeline>, name: string): seq<bool> {
    seq(|ps|, i requires 0 <= i < |ps| => Lists(cfg, ps[i].services, name))
  }

  lemma GlancesSnoc(obs: seq<Obs>, o: Obs, key: Key)
    ensures Glances(obs + [o], key) == Glances(obs, key) + match GlanceOf(o, key) case Some(g) => [g] case None => []
  {
    assert (obs + [o])[..|obs|] == obs;
  }

  lemma {:induction false} GlancesOfOnly(obs: seq<Obs>, key: Key)
    ensures Glances(obs, key) == Glances(Only(obs, key.0), key)
  {
    if obs != [] {
      var n := |obs| - 1;
      GlancesOfOnly(obs[..n], key);
      if Of(obs[n]) == Some(key.0) {
        GlancesSnoc(Only(obs[..n], key.0), obs[n], key);
      } else {
        assert GlanceOf(obs[n], key) == None;
        assert Only(obs, key.0) == Only(obs[..n], key.0);
      }
    }
  }

  lemma {:induction false} NoGlances(obs: seq<Obs>, key: Key)
    requires forall i :: 0 <= i < |obs| ==> GlanceOf(obs[i], key) == None
    ensures Glances(obs, key) == []
  {
    if obs != [] {
      NoGlances(obs[..|obs| - 1], key);
    }
  }

  lemma GlancesOfWork(cfg: Config, pid: string, p: Pipeline, at: real, key: Key)
    ensures Glances(PipelineObs(cfg, pid, p, at), key) == Glances(WorkObs(cfg, pid, p, at), key)
  {
    GlancesConcat(ServiceObs(pid, p.services) + BrokerObs(pid, p), WorkObs(cfg, pid, p, at), key);
    NoGlances(ServiceObs(pid, p.services) + BrokerObs(pid, p), key);
  }

  lemma GlanceOfPipeline(cfg: Config, pid: string, p: Pipeline, polls: seq<Poll>, lists: seq<bool>, n: nat,
                         key: QueueKey)
    requires n < |polls| == |lists| && Carries(p, polls, n, key.0) && lists[n] == Lists(cfg, p.services, key.1)
    ensures Glances(PipelineObs(cfg, pid, p, polls[n].wall), (pid, key.1)) == GlanceAt(polls, lists, n, key)
  {
    var name := (pid, key.1);
    var at := polls[n].wall;
    GlancesOfWork(cfg, pid, p, at, name);
    if !p.available {
      GlancesSnoc([], LostQueues(pid), name);
      assert [] + [LostQueues(pid)] == [LostQueues(pid)];
    } else if key in polls[n].scrape.value {
      PresentQueue(cfg, pid, p, polls, lists, n, key);
    } else {
      AbsentQueue(cfg, pid, p, polls, n, key);
    }
  }

  lemma PresentQueue(cfg: Config, pid: string, p: Pipeline, polls: seq<Poll>, lists: seq<bool>, n: nat, key: QueueKey)
    requires n < |polls| == |lists| && Carries(p, polls, n, key.0) && lists[n] == Lists(cfg, p.services, key.1)
    requires Reported(polls, n, key)
    ensures Glances(QueueObs(cfg, pid, p.services, p.queues, polls[n].wall), (pid, key.1))
            == [Seen(QueueAt(polls, n, key), lists[n], polls[n].wall)]
  {
    var i :| 0 <= i < |p.queues| && p.queues[i].name == key.1;
    assert ReportedAs(polls, n, key.0, p.queues[i]);
    GlanceOfQueues(cfg, pid, p.services, p.queues, polls[n].wall, i);
  }

  lemma AbsentQueue(cfg: Config, pid: string, p: Pipeline, polls: seq<Poll>, n: nat, key: QueueKey)
    requires n < |polls| && Carries(p, polls, n, key.0) && p.available && key !in polls[n].scrape.value
    ensures Glances(QueueObs(cfg, pid, p.services, p.queues, polls[n].wall), (pid, key.1)) == []
  {
    var obs := QueueObs(cfg, pid, p.services, p.queues, polls[n].wall);
    forall i | 0 <= i < |obs| ensures GlanceOf(obs[i], (pid, key.1)) == None {
      assert ReportedAs(polls, n, key.0, p.queues[i]);
    }
    NoGlances(obs, (pid, key.1));
  }

  lemma GlanceOfQueues(cfg: Config, pid: string, services: seq<Service>, queues: seq<Queue>, at: real, i: nat)
    requires i < |queues|
    requires forall j :: 0 <= j < |queues| && j != i ==> queues[j].name != queues[i].name
    ensures Glances(QueueObs(cfg, pid, services, queues, at), (pid, queues[i].name))
            == [Seen(queues[i], Lists(cfg, services, queues[i].name), at)]
  {
    var name := (pid, queues[i].name);
    var obs := QueueObs(cfg, pid, services, queues, at);
    assert obs == (obs[..i] + [obs[i]]) + obs[i + 1..];
    GlancesConcat(obs[..i] + [obs[i]], obs[i + 1..], name);
    GlancesSnoc(obs[..i], obs[i], name);
    NoGlances(obs[..i], name);
    NoGlances(obs[i + 1..], name);
  }

  lemma AllSnoc(cfg: Config, rs: seq<Reading>, n: nat)
    requires n < |rs|
    ensures AllObservations(cfg, rs[..n + 1]) == AllObservations(cfg, rs[..n]) + Observations(cfg, rs[n])
  {
    assert rs[..n + 1][..n] == rs[..n];
  }

  lemma GlanceOfReading(cfg: Config, rs: seq<Reading>, ps: seq<Pipeline>, polls: seq<Poll>, pid: string, key: QueueKey,
                        n: nat)
    requires Embeds(rs, ps, polls, pid, key.0) && n < |rs|
    ensures Glances(Observations(cfg, rs[n]), (pid, key.1)) == GlanceAt(polls, Listed(cfg, ps, key.1), n, key)
  {
    GlancesOfReading(cfg, rs[n], pid, ps[n], key.1);
    GlanceOfPipeline(cfg, pid, ps[n], polls, Listed(cfg, ps, key.1), n, key);
  }

  lemma OneMoreReading(cfg: Config, rs: seq<Reading>, name: Key, n: nat)
    requires n < |rs|
    ensures Glances(AllObservations(cfg, rs[..n + 1]), name)
            == Glances(AllObservations(cfg, rs[..n]), name) + Glances(Observations(cfg, rs[n]), name)
  {
    AllSnoc(cfg, rs, n);
    GlancesConcat(AllObservations(cfg, rs[..n]), Observations(cfg, rs[n]), name);
  }

  /** What each reading adds, added up. */
  lemma {:induction false} GlancesAddUp(cfg: Config, rs: seq<Reading>, name: Key, gs: seq<seq<Glance>>, n: nat)
    requires n <= |rs| && |gs| == |rs| + 1 && gs[0] == []
    requires forall i :: 0 <= i < |rs| ==> gs[i + 1] == gs[i] + Glances(Observations(cfg, rs[i]), name)
    ensures Glances(AllObservations(cfg, rs[..n]), name) == gs[n]
    decreases n
  {
    if n > 0 {
      GlancesAddUp(cfg, rs, name, gs, n - 1);
      OneMoreReading(cfg, rs, name, n - 1);
    }
  }

  function GlancesSoFar(polls: seq<Poll>, lists: seq<bool>, key: QueueKey): (gs: seq<seq<Glance>>)
    requires |polls| == |lists|
    ensures |gs| == |polls| + 1 && forall n :: 0 <= n <= |polls| ==> gs[n] == GlancesTo(polls, lists, n, key)
  {
    seq(|polls| + 1, n requires 0 <= n <= |polls| => GlancesTo(polls, lists, n, key))
  }

  lemma ReadingAdds(cfg: Config, rs: seq<Reading>, ps: seq<Pipeline>, polls: seq<Poll>, pid: string, key: QueueKey,
                    n: nat)
    requires Embeds(rs, ps, polls, pid, key.0) && n < |rs|
    ensures var gs := GlancesSoFar(polls, Listed(cfg, ps, key.1), key);
            gs[n + 1] == gs[n] + Glances(Observations(cfg, rs[n]), (pid, key.1))
  {
    GlanceOfReading(cfg, rs, ps, polls, pid, key, n);
  }

  lemma GlancesOfPrefix(cfg: Config, rs: seq<Reading>, ps: seq<Pipeline>, polls: seq<Poll>, pid: string,
                        key: QueueKey, n: nat)
    requires Embeds(rs, ps, polls, pid, key.0) && n <= |rs|
    ensures Glances(AllObservations(cfg, rs[..n]), (pid, key.1)) == GlancesTo(polls, Listed(cfg, ps, key.1), n, key)
  {
    var gs := GlancesSoFar(polls, Listed(cfg, ps, key.1), key);
    forall i | 0 <= i < |rs| ensures gs[i + 1] == gs[i] + Glances(Observations(cfg, rs[i]), (pid, key.1)) {
      ReadingAdds(cfg, rs, ps, polls, pid, key, i);
    }
    GlancesAddUp(cfg, rs, (pid, key.1), gs, n);
  }

  /** Only the queue's own pipeline shows it. */
  lemma GlancesOfReading(cfg: Config, r: Reading, pid: string, p: Pipeline, name: string)
    requires Kept(r.pipelines, pid) == [(pid, p)]
    ensures Glances(Observations(cfg, r), (pid, name)) == Glances(PipelineObs(cfg, pid, p, r.at), (pid, name))
  {
    GlancesOfOnly(Observations(cfg, r), (pid, name));
    ProjectedObservations(cfg, r, pid);
    PipelinesSnoc(cfg, [], (pid, p), r.at);
    assert [] + [(pid, p)] == [(pid, p)];
    assert Observations(cfg, Projected(r, pid)) == PipelineObs(cfg, pid, p, r.at);
  }

  /** The conditions decided for one queue, in order. */
  function DecidedFor(verdicts: seq<Verdict>, key: Key): seq<Option<ConditionKind>> {
    if verdicts == [] then []
    else
      var v := verdicts[|verdicts| - 1];
      DecidedFor(verdicts[..|verdicts| - 1], key) + if (v.pipeline, v.queue) == key then [v.condition] else []
  }

  lemma DecidedForNoneOrOne(verdicts: seq<Verdict>, key: Key)
    ensures DecidedFor([], key) == []
    ensures |verdicts| == 1 ==>
              DecidedFor(verdicts, key) == if (verdicts[0].pipeline, verdicts[0].queue) == key
                  then [verdicts[0].condition] else []
  {
    if |verdicts| == 1 {
      assert verdicts[..0] == [];
    }
  }

  lemma {:induction false} DecidedForConcat(a: seq<Verdict>, b: seq<Verdict>, key: Key)
    ensures DecidedFor(a + b, key) == DecidedFor(a, key) + DecidedFor(b, key)
  {
    if b == [] {
      assert a + b == a;
    } else {
      assert (a + b)[..|a + b| - 1] == a + b[..|b| - 1];
      DecidedForConcat(a, b[..|b| - 1], key);
    }
  }

  /** The conditions a queue's own story decides, one at each reading. */
  function DecidedOver(bound: real, gs: seq<Glance>): seq<Option<ConditionKind>> {
    if gs == [] then []
    else DecidedOver(bound, gs[..|gs| - 1]) + if gs[|gs| - 1].Seen? then [VerdictOf(bound, gs)] else []
  }

  lemma DecidedOverSnoc(bound: real, gs: seq<Glance>, g: Glance)
    ensures DecidedOver(bound, gs + [g]) == DecidedOver(bound, gs) + if g.Seen? then [VerdictOf(bound, gs + [g])]
            else []
  {
    assert (gs + [g])[..|gs|] == gs;
  }

  /** What one observation decides for the queue: a verdict when it shows the queue, and otherwise nothing. */
  lemma StepDecides(cfg: Config, obs: seq<Obs>, o: Obs, key: Key)
    requires key.1 in cfg.work
    ensures var decided := DecidedFor(Observed(cfg, Run(cfg, FRESH, obs).memory, o).verdicts, key);
            decided == match GlanceOf(o, key)
                       case Some(g) => if g.Seen? then [VerdictOf(cfg.bound, Glances(obs, key) + [g])] else []
                       case None => []
  {
    var verdicts := Observed(cfg, Run(cfg, FRESH, obs).memory, o).verdicts;
    DecidedForNoneOrOne(verdicts, key);
    if o.SeenQueue? && o.queue.name in cfg.work {
      QueueReading(cfg, obs, o.pid, o.queue, o.lists, o.at);
    }
  }

  lemma {:induction false} RunDecides(cfg: Config, obs: seq<Obs>, key: Key)
    requires key.1 in cfg.work
    ensures DecidedFor(Run(cfg, FRESH, obs).verdicts, key) == DecidedOver(cfg.bound, Glances(obs, key))
  {
    if obs != [] {
      var init, o := obs[..|obs| - 1], obs[|obs| - 1];
      RunDecides(cfg, init, key);
      StepDecides(cfg, init, o, key);
      DecidedForConcat(Run(cfg, FRESH, init).verdicts, Observed(cfg, Run(cfg, FRESH, init).memory, o).verdicts, key);
      match GlanceOf(o, key)
      case Some(g) => DecidedOverSnoc(cfg.bound, Glances(init, key), g);
      case None => assert Glances(obs, key) == Glances(init, key);
    }
  }

  lemma {:induction false} VerdictsGrow(cfg: Config, l: Log, obs: seq<Obs>)
    ensures l.verdicts <= Run(cfg, l, obs).verdicts
  {
    if obs != [] {
      VerdictsGrow(cfg, l, obs[..|obs| - 1]);
    }
  }

  /** What reading `n` decided: the verdicts of the run up to it less those of the run before it. */
  function DecidedAt(cfg: Config, rs: seq<Reading>, n: nat): seq<Verdict>
    requires n < |rs|
  {
    var before := Run(cfg, FRESH, AllObservations(cfg, rs[..n])).verdicts;
    var after := Run(cfg, FRESH, AllObservations(cfg, rs[..n + 1])).verdicts;
    if |before| <= |after| then after[|before|..] else []
  }

  lemma VerdictsExtend(cfg: Config, a: seq<Obs>, b: seq<Obs>)
    ensures Run(cfg, FRESH, a).verdicts <= Run(cfg, FRESH, a + b).verdicts
  {
    RunConcat(cfg, FRESH, a, b);
    VerdictsGrow(cfg, Run(cfg, FRESH, a), b);
  }

  lemma DecidedAtExtends(cfg: Config, rs: seq<Reading>, n: nat)
    requires n < |rs|
    ensures Run(cfg, FRESH, AllObservations(cfg, rs[..n + 1])).verdicts
            == Run(cfg, FRESH, AllObservations(cfg, rs[..n])).verdicts + DecidedAt(cfg, rs, n)
  {
    AllSnoc(cfg, rs, n);
    VerdictsExtend(cfg, AllObservations(cfg, rs[..n]), Observations(cfg, rs[n]));
  }

  lemma OneMoreDecided(bound: real, u: seq<Verdict>, added: seq<Verdict>, key: Key, before: seq<Glance>, g: Glance)
    requires g.Seen? && DecidedFor(u, key) == DecidedOver(bound, before)
    requires DecidedFor(u + added, key) == DecidedOver(bound, before + [g])
    ensures DecidedFor(added, key) == [VerdictOf(bound, before + [g])]
  {
    DecidedForConcat(u, added, key);
    DecidedOverSnoc(bound, before, g);
    var x, y, v := DecidedFor(u, key), DecidedFor(added, key), VerdictOf(bound, before + [g]);
    assert y == (x + y)[|x|..] && [v] == (x + [v])[|x|..];
  }

  /** What a reading decides for a queue is what its glance in that reading adds to its own story. */
  lemma ReadingDecides(cfg: Config, rs: seq<Reading>, n: nat, key: Key, before: seq<Glance>, g: Glance)
    requires n < |rs| && key.1 in cfg.work && g.Seen?
    requires Glances(AllObservations(cfg, rs[..n]), key) == before
    requires Glances(AllObservations(cfg, rs[..n + 1]), key) == before + [g]
    ensures DecidedFor(DecidedAt(cfg, rs, n), key) == [VerdictOf(cfg.bound, before + [g])]
  {
    var a, b := AllObservations(cfg, rs[..n]), AllObservations(cfg, rs[..n + 1]);
    var u, added := Run(cfg, FRESH, a).verdicts, DecidedAt(cfg, rs, n);
    assert DecidedFor(u, key) == DecidedOver(cfg.bound, before) by {
      RunDecides(cfg, a, key);
    }
    assert DecidedFor(u + added, key) == DecidedOver(cfg.bound, before + [g]) by {
      RunDecides(cfg, b, key);
      DecidedAtExtends(cfg, rs, n);
    }
    OneMoreDecided(cfg.bound, u, added, key, before, g);
  }

  lemma GlanceTo(polls: seq<Poll>, lists: seq<bool>, n: nat, key: QueueKey)
    requires n < |polls| == |lists| && Reported(polls, n, key)
    ensures GlancesTo(polls, lists, n + 1, key)
            == GlancesTo(polls, lists, n, key) + [Seen(QueueAt(polls, n, key), lists[n], polls[n].wall)]
  {
  }

  /** The whole console: whatever the other pipelines, services and datastores do, reading `n` decides exactly
  one verdict for a work queue that poll `n` reports, and it is stalled exactly when the broker's raw
  counter says so. */
  lemma StalledInTheConsole(cfg: Config, rs: seq<Reading>, ps: seq<Pipeline>, polls: seq<Poll>, pid: string,
                            key: QueueKey, n: nat)
    requires Embeds(rs, ps, polls, pid, key.0) && n < |rs| && Reported(polls, n, key) && key.1 in cfg.work
    ensures var decided := DecidedFor(DecidedAt(cfg, rs, n), (pid, key.1));
            |decided| == 1 && StalledByCounter(decided[0], polls, n, key)
  {
    var lists := Listed(cfg, ps, key.1);
    var before, g := GlancesTo(polls, lists, n, key), Seen(QueueAt(polls, n, key), lists[n], polls[n].wall);
    GlanceTo(polls, lists, n, key);
    assert DecidedFor(DecidedAt(cfg, rs, n), (pid, key.1)) == [VerdictOf(cfg.bound, before + [g])] by {
      GlancesOfPrefix(cfg, rs, ps, polls, pid, key, n);
      GlancesOfPrefix(cfg, rs, ps, polls, pid, key, n + 1);
      ReadingDecides(cfg, rs, n, (pid, key.1), before, g);
    }
    StalledExactlyWhenStandingStill(cfg.bound, polls, lists, n, key);
  }
}
