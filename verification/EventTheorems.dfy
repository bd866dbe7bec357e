/** What every run of the detector keeps: pipelines do not touch each other, the announced changes
replay to the remembered state, and a dead-letter queue is never compared across an outage. */
module EventTheorems {
  import opened Wrappers
  import opened Events
  import opened EventStories

  // ---------------------------------------------------------------- pipelines are independent

  lemma {:induction false} OnlyConcat(a: seq<Obs>, b: seq<Obs>, p: string)
    ensures Only(a + b, p) == Only(a, p) + Only(b, p)
  {
    if b == [] {
      assert a + b == a;
    } else {
      OnlyConcat(a, b[..|b| - 1], p);
      assert (a + b)[..|a + b| - 1] == a + b[..|b| - 1];
    }
  }

  /** All of `obs` is about `p`, or none of it is. */
  lemma {:induction false} OnlyUniform(obs: seq<Obs>, p: string, own: bool)
    requires forall i :: 0 <= i < |obs| ==> (Of(obs[i]) == Some(p)) == own
    ensures Only(obs, p) == if own then obs else []
  {
    if obs != [] {
      OnlyUniform(obs[..|obs| - 1], p, own);
    }
  }

  lemma PipelinesSnoc(cfg: Config, ps: seq<(string, Pipeline)>, last: (string, Pipeline), at: real)
    ensures PipelinesObs(cfg, ps + [last], at) == PipelinesObs(cfg, ps, at) + PipelineObs(cfg, last.0, last.1, at)
  {
    assert (ps + [last])[..|ps|] == ps;
  }

  lemma PipelineObsOf(cfg: Config, pid: string, p: Pipeline, at: real)
    ensures forall i :: 0 <= i < |PipelineObs(cfg, pid, p, at)| ==> Of(PipelineObs(cfg, pid, p, at)[i]) == Some(pid)
  {
  }

  lemma {:induction false} ProjectedPipelines(cfg: Config, ps: seq<(string, Pipeline)>, at: real, p: string)
    ensures Only(PipelinesObs(cfg, ps, at), p) == PipelinesObs(cfg, Kept(ps, p), at)
  {
    if ps != [] {
      var n := |ps| - 1;
      var own := PipelineObs(cfg, ps[n].0, ps[n].1, at);
      ProjectedPipelines(cfg, ps[..n], at, p);
      OnlyConcat(PipelinesObs(cfg, ps[..n], at), own, p);
      PipelineObsOf(cfg, ps[n].0, ps[n].1, at);
      OnlyUniform(own, p, ps[n].0 == p);
      if ps[n].0 == p {
        PipelinesSnoc(cfg, Kept(ps[..n], p), ps[n], at);
        assert Kept(ps, p) == Kept(ps[..n], p) + [ps[n]];
      } else {
        assert Kept(ps, p) == Kept(ps[..n], p);
      }
    }
  }

  lemma NotOfAPipeline(r: Reading, p: string)
    ensures Only(PlatformObs(r.platform), p) == [] && Only(DatabaseObs(r.databases), p) == []
  {
    OnlyUniform(PlatformObs(r.platform), p, false);
    OnlyUniform(DatabaseObs(r.databases), p, false);
  }

  lemma ProjectedObservations(cfg: Config, r: Reading, p: string)
    ensures Only(Observations(cfg, r), p) == Observations(cfg, Projected(r, p))
  {
    OnlyConcat(PipelinesObs(cfg, r.pipelines, r.at) + PlatformObs(r.platform), DatabaseObs(r.databases), p);
    OnlyConcat(PipelinesObs(cfg, r.pipelines, r.at), PlatformObs(r.platform), p);
    ProjectedPipelines(cfg, r.pipelines, r.at, p);
    NotOfAPipeline(r, p);
  }

  lemma {:induction false} ProjectedRun(cfg: Config, rs: seq<Reading>, p: string)
    ensures Only(AllObservations(cfg, rs), p) == AllObservations(cfg, AllProjected(rs, p))
  {
    if rs != [] {
      var n := |rs| - 1;
      ProjectedRun(cfg, rs[..n], p);
      OnlyConcat(AllObservations(cfg, rs[..n]), Observations(cfg, rs[n]), p);
      ProjectedObservations(cfg, rs[n], p);
      assert AllProjected(rs, p)[..n] == AllProjected(rs[..n], p);
    }
  }

  lemma WatchStep(bound: real, m: Memory, pid: string, q: Queue, lists: bool, at: real, key: Key)
    ensures var m' := ObservedQueue(bound, m, pid, q, lists, at).memory;
            && WatchOf(m', key) == (if key == (pid, q.name) then WatchAfter(bound, WatchOf(m, key), q, lists, at)
                                    else WatchOf(m, key))
            && SliceOf(m', key).(watch := UNWATCHED) == SliceOf(m, key).(watch := UNWATCHED)
  {
  }

  lemma QueueSliceStep(cfg: Config, m: Memory, o: Obs, key: Key)
    requires o.SeenQueue?
    ensures SliceOf(Observed(cfg, m, o).memory, key) ==
            if About(o, key) then SliceAfter(cfg, SliceOf(m, key), o) else SliceOf(m, key)
  {
    if o.queue.name in cfg.work {
      WatchStep(cfg.bound, m, o.pid, o.queue, o.lists, o.at, key);
    }
  }

  lemma PipelineSliceStep(cfg: Config, m: Memory, o: Obs, key: Key)
    requires o.SeenBroker? || o.LostQueues?
    ensures SliceOf(Observed(cfg, m, o).memory, key) ==
            if About(o, key) then SliceAfter(cfg, SliceOf(m, key), o) else SliceOf(m, key)
  {
  }

  lemma OtherSliceStep(cfg: Config, m: Memory, o: Obs, key: Key)
    requires o.SeenService? || o.SeenDepth? || o.SeenPlatform? || o.SeenDatabase?
    ensures SliceOf(Observed(cfg, m, o).memory, key) ==
            if About(o, key) then SliceAfter(cfg, SliceOf(m, key), o) else SliceOf(m, key)
  {
  }

  /** An observation changes the slices it is about as `SliceAfter` says, and no other. */
  lemma SliceStep(cfg: Config, m: Memory, o: Obs, key: Key)
    ensures SliceOf(Observed(cfg, m, o).memory, key) ==
            if About(o, key) then SliceAfter(cfg, SliceOf(m, key), o) else SliceOf(m, key)
  {
    if o.SeenQueue? {
      QueueSliceStep(cfg, m, o, key);
    } else if o.SeenBroker? || o.LostQueues? {
      PipelineSliceStep(cfg, m, o, key);
    } else {
      OtherSliceStep(cfg, m, o, key);
    }
  }

  lemma SameOutputs(cfg: Config, m: Memory, n: Memory, o: Obs)
    requires Of(o).Some?
    requires Get(m.available, o.pid) == Get(n.available, o.pid) && SliceOf(m, Subject(o)) == SliceOf(n, Subject(o))
    ensures Observed(cfg, m, o).found == Observed(cfg, n, o).found
    ensures Observed(cfg, m, o).verdicts == Observed(cfg, n, o).verdicts
  {
    match o
    case SeenQueue(_, q, _, _) => if q.name in cfg.work {}
    case _ =>
  }

  lemma AvailableStep(cfg: Config, m: Memory, o: Obs, p: string)
    ensures Get(Observed(cfg, m, o).memory.available, p) ==
            if o.SeenBroker? && o.pid == p then Some(o.up) else Get(m.available, p)
  {
    match o
    case _ =>
  }

  lemma OwnStep(cfg: Config, m: Memory, n: Memory, o: Obs, p: string)
    requires Of(o) == Some(p) && Agree(m, n, p)
    ensures Agree(Observed(cfg, m, o).memory, Observed(cfg, n, o).memory, p)
    ensures Observed(cfg, m, o).found == Observed(cfg, n, o).found
    ensures Observed(cfg, m, o).verdicts == Observed(cfg, n, o).verdicts
  {
    SameOutputs(cfg, m, n, o);
    AvailableStep(cfg, m, o, p);
    AvailableStep(cfg, n, o, p);
    forall name: string
      ensures SliceOf(Observed(cfg, m, o).memory, (p, name)) == SliceOf(Observed(cfg, n, o).memory, (p, name))
    {
      SliceStep(cfg, m, o, (p, name));
      SliceStep(cfg, n, o, (p, name));
    }
  }

  lemma OtherStep(cfg: Config, m: Memory, o: Obs, p: string)
    requires Of(o) != Some(p)
    ensures Agree(Observed(cfg, m, o).memory, m, p)
  {
    AvailableStep(cfg, m, o, p);
    forall name: string ensures SliceOf(Observed(cfg, m, o).memory, (p, name)) == SliceOf(m, (p, name)) {
      SliceStep(cfg, m, o, (p, name));
    }
  }

  lemma {:induction false} RunOfOnly(cfg: Config, obs: seq<Obs>, p: string)
    ensures Agree(Run(cfg, FRESH, obs).memory, Run(cfg, FRESH, Only(obs, p)).memory, p)
    ensures FoundBy(cfg, obs, p) == Run(cfg, FRESH, Only(obs, p)).found
    ensures VerdictsBy(cfg, obs, p) == Run(cfg, FRESH, Only(obs, p)).verdicts
  {
    if obs != [] {
      var n := |obs| - 1;
      RunOfOnly(cfg, obs[..n], p);
      var m := Run(cfg, FRESH, obs[..n]).memory;
      if Of(obs[n]) == Some(p) {
        OwnStep(cfg, m, Run(cfg, FRESH, Only(obs[..n], p)).memory, obs[n], p);
        RunSnoc(cfg, FRESH, Only(obs[..n], p), obs[n]);
      } else {
        OtherStep(cfg, m, obs[n], p);
        assert Only(obs, p) == Only(obs[..n], p);
      }
    }
  }

  /** Pipeline `p` fares in any run exactly as it would alone: same memory, same events in the same
  order, same queue verdicts. */
  lemma PipelineIndependence(cfg: Config, rs: seq<Reading>, p: string)
    ensures var all := AllObservations(cfg, rs);
            var alone := Run(cfg, FRESH, AllObservations(cfg, AllProjected(rs, p)));
            && Agree(Run(cfg, FRESH, all).memory, alone.memory, p)
            && FoundBy(cfg, all, p) == alone.found
            && VerdictsBy(cfg, all, p) == alone.verdicts
  {
    RunOfOnly(cfg, AllObservations(cfg, rs), p);
    ProjectedRun(cfg, rs, p);
  }

  // ---------------------------------------------------------------- the event log replays

  /** The events an observation announces about a flag say what it saw, at a level that follows
  from it: a rise is news, a fall is a warning or worse. */
  lemma FlagEventsAreTrue(cfg: Config, m: Memory, o: Obs, flag: Flag)
    requires Says(o, flag).Some? && Says(o, flag).value.Some?
    ensures var value := Says(o, flag).value.value;
            var found := Observed(cfg, m, o).found;
            && (found != [] <==> ValueOf(m, flag) == Some(!value))
            && forall f :: f in found ==>
                 && (IsRise(f.kind) <==> value) && (IsFall(f.kind) <==> !value)
                 && (f.level == Info <==> value)
  {
  }

  /** The flag an observation speaks of takes the value it says, and every other flag keeps its own. */
  lemma FlagStep(cfg: Config, m: Memory, o: Obs, flag: Flag)
    ensures ValueOf(Observed(cfg, m, o).memory, flag) ==
            if Says(o, flag).Some? then Says(o, flag).value else ValueOf(m, flag)
  {
    match flag
    case ServiceFlag(key) => SliceStep(cfg, m, o, key);
    case BrokerFlag(pid) => AvailableStep(cfg, m, o, pid);
    case PlatformFlag(name) => PlatformStep(cfg, m, o, name);
    case DatastoreFlag(name) => DatastoreStep(cfg, m, o, name);
  }

  lemma PlatformStep(cfg: Config, m: Memory, o: Obs, name: string)
    ensures Get(Observed(cfg, m, o).memory.platform, name) ==
            if o.SeenPlatform? && o.platform.source.Probe? && o.platform.name == name
            then (if o.platform.status.Inactive() then None else Some(o.platform.status.Serving()))
            else Get(m.platform, name)
  {
    if o.SeenPlatform? {
      PlatformAfterStep(m.platform, o.platform, name);
    }
  }

  lemma PlatformAfterStep(platform: map<string, bool>, s: PlatformService, name: string)
    ensures Get(PlatformAfter(platform, s), name) ==
            if s.source.Probe? && s.name == name then (if s.status.Inactive() then None else Some(s.status.Serving()))
            else Get(platform, name)
  {
  }

  lemma DatastoreStep(cfg: Config, m: Memory, o: Obs, name: string)
    ensures Get(Observed(cfg, m, o).memory.datastores, name) ==
            if o.SeenDatabase? && o.database.name == name then Some(o.database.status.Healthy?)
               else Get(m.datastores, name)
  {
  }

  lemma FlagChanges(cfg: Config, m: Memory, o: Obs, flag: Flag)
    requires Says(o, flag).Some? && Says(o, flag).value.Some?
    ensures var value := Says(o, flag).value.value;
            Changes(Observed(cfg, m, o).found) == if ValueOf(m, flag) == Some(!value) then [value] else []
  {
  }

  lemma Extended(t: Tape, more: seq<bool>)
    requires Alternating(t) && |more| <= 1 && (more != [] ==> more[0] != Replay(t))
    ensures var t' := Tape(t.first, t.changes + more);
            Alternating(t') && Replay(t') == if more == [] then Replay(t) else more[0]
  {
    var t' := Tape(t.first, t.changes + more);
    forall i | 0 <= i < |t'.changes|
      ensures t'.changes[i] != if i == 0 then t'.first else t'.changes[i - 1]
    {
      if i < |t.changes| {
        assert t.changes[i] != if i == 0 then t.first else t.changes[i - 1];
      }
    }
    assert Alternating(t');
  }

  /** A first value and the events that follow it are all it takes to know the detector's flag, and
  those events alternate: no change is announced twice, and none is missed. */
  lemma {:induction false} EventsReplay(cfg: Config, obs: seq<Obs>, flag: Flag)
    ensures var value := ValueOf(Run(cfg, FRESH, obs).memory, flag);
            match TapeOf(cfg, obs, flag)
            case None => value == None
            case Some(tape) => Alternating(tape) && value == Some(Replay(tape))
  {
    if obs != [] {
      var n := |obs| - 1;
      var m := Run(cfg, FRESH, obs[..n]).memory;
      EventsReplay(cfg, obs[..n], flag);
      FlagStep(cfg, m, obs[n], flag);
      if Says(obs[n], flag).Some? && Says(obs[n], flag).value.Some? {
        FlagChanges(cfg, m, obs[n], flag);
        if TapeOf(cfg, obs[..n], flag).Some? {
          Extended(TapeOf(cfg, obs[..n], flag).value, Changes(Observed(cfg, m, obs[n]).found));
        }
      }
    }
  }

  // ---------------------------------------------------------------- dead-letter queues

  lemma {:induction false} RemembersLastDepth(cfg: Config, obs: seq<Obs>, key: Key)
    requires key.1 in cfg.deadLetter
    ensures SliceOf(Run(cfg, FRESH, obs).memory, key).depth == LastDepth(obs, key)
  {
    if obs != [] {
      var n := |obs| - 1;
      RemembersLastDepth(cfg, obs[..n], key);
      SliceStep(cfg, Run(cfg, FRESH, obs[..n]).memory, obs[n], key);
    }
  }

  /** A dead-letter queue is announced as growing exactly when it is deeper than its last reading
  since any outage, and as emptied exactly when that reading was not empty and this one is. */
  lemma DeadLetterEvents(cfg: Config, obs: seq<Obs>, pid: string, q: Queue)
    requires q.name in cfg.deadLetter && q.messages >= 0
    requires forall i, d :: 0 <= i < |obs| && obs[i] == SeenDepth(pid, d) ==> d.messages >= 0
    ensures var found := Observed(cfg, Run(cfg, FRESH, obs).memory, SeenDepth(pid, q)).found;
            var last := LastDepth(obs, (pid, q.name));
            found == if last.Some? && q.messages > last.value then [Found(Error, DlqGrew, q.name)]
                     else if last.Some? && last.value > 0 && q.messages == 0 then [Found(Info, DlqEmptied, q.name)]
                     else []
  {
    RemembersLastDepth(cfg, obs, (pid, q.name));
    DepthsNonNegative(obs, (pid, q.name));
  }

  lemma {:induction false} DepthsNonNegative(obs: seq<Obs>, key: Key)
    requires forall i, d :: 0 <= i < |obs| && obs[i] == SeenDepth(key.0, d) ==> d.messages >= 0
    ensures LastDepth(obs, key).Some? ==> LastDepth(obs, key).value >= 0
  {
    if obs != [] {
      var o := obs[|obs| - 1];
      if o.SeenDepth? && o.pid == key.0 {
        assert obs[|obs| - 1] == SeenDepth(key.0, o.queue);
      }
      DepthsNonNegative(obs[..|obs| - 1], key);
    }
  }
}
