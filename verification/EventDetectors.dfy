/** `EventDetector`, updating its maps and its ring in place as the console's does. Every method is
proved to leave the detector exactly where the fold of Events.dfy leaves it, and the class
invariant ties the ring and the ids to the whole history. */
module EventDetectors {
  import opened Wrappers
  import opened Events
  import Readings

  /** `deque(maxlen=n)` after appending everything in `s`, oldest first. */
  function LastOf<T>(s: seq<T>, n: nat): seq<T> {
    if |s| <= n then s else s[|s| - n..]
  }

  function FoundOf(events: seq<Event>): seq<Found> {
    seq(|events|, i requires 0 <= i < |events| => events[i].found)
  }

  /** `e`, announced after `found`. */
  function Announcing(found: seq<Found>, e: Effect): Effect {
    e.(found := found + e.found)
  }

  class EventDetector {
    const cfg: Config
    const capacity: nat
    var ring: seq<Event>
    var nextId: nat
    var services: map<Key, bool>
    var platform: map<string, bool>
    var datastores: map<string, bool>
    var available: map<string, bool>
    var dlqDepth: map<Key, int>
    var zeroSince: map<Key, real>
    var seenAt: map<Key, real>
    var conditions: map<Key, Option<ConditionKind>>
    var awaitingSince: map<Key, real>

    // Every observation made, every event recorded and every verdict given since construction.
    ghost var seen: seq<Obs>
    ghost var history: seq<Event>
    ghost var decided: seq<Verdict>

    function Remembers(): Memory
      reads this
    {
      Memory(services, platform, datastores, available, dlqDepth, zeroSince, seenAt, conditions, awaitingSince)
    }

    ghost predicate Valid()
      reads this
    {
      && Log(Remembers(), FoundOf(history), decided) == Run(cfg, FRESH, seen)
      && Numbered(ring, nextId, history, capacity)
    }

    constructor (cfg: Config, capacity: nat)
      ensures Valid() && this.cfg == cfg && this.capacity == capacity
      ensures seen == [] && history == [] && decided == []
    {
      this.cfg, this.capacity := cfg, capacity;
      ring, nextId := [], 1;
      services, platform, datastores, available := map[], map[], map[], map[];
      dlqDepth, zeroSince, seenAt, conditions, awaitingSince := map[], map[], map[], map[], map[];
      seen, history, decided := [], [], [];
    }

    /** The retained events, oldest first. */
    method Backlog() returns (events: seq<Event>)
      requires Valid()
      ensures events == LastOf(history, capacity)
      ensures forall i, j :: 0 <= i < j < |events| ==> events[j].id == events[i].id + (j - i)
      ensures events != [] ==> events[|events| - 1].id == |history|
    {
      events := ring;
    }

    method ServiceOf(pid: string, s: Service, found: seq<Found>) returns (found': seq<Found>)
      modifies this`services
      ensures Effect(Remembers(), found', []) == Announcing(found, Observed(cfg, old(Remembers()), SeenService(pid, s)))
    {
      var key := (pid, s.name);
      var serving := s.status.Serving();
      var previous := Get(services, key);
      services := services[key := serving];
      if previous == None || previous == Some(serving) {
        return found;
      }
      if serving {
        found' := found + [Found(Info, ServiceRecovered, s.name)];
      } else {
        var level := if s.status.Unhealthy? then Error else Warning;
        found' := found + [Found(level, ServiceDown, s.name)];
      }
    }

    method ServicesOf(pid: string, svcs: seq<Service>, found: seq<Found>, ghost verdicts: seq<Verdict>)
      returns (found': seq<Found>)
      modifies this`services
      ensures Log(Remembers(), found', verdicts)
              == Run(cfg, Log(old(Remembers()), found, verdicts), ServiceObs(pid, svcs))
    {
      ghost var start := Log(Remembers(), found, verdicts);
      found' := found;
      for i := 0 to |svcs|
        invariant Log(Remembers(), found', verdicts) == Run(cfg, start, ServiceObs(pid, svcs[..i]))
      {
        RunQuiet(cfg, start, ServiceObs(pid, svcs[..i]), SeenService(pid, svcs[i]));
        assert ServiceObs(pid, svcs[..i + 1]) == ServiceObs(pid, svcs[..i]) + [SeenService(pid, svcs[i])];
        found' := ServiceOf(pid, svcs[i], found');
      }
      assert svcs[..|svcs|] == svcs;
    }

    method PlatformServiceOf(s: PlatformService, found: seq<Found>) returns (found': seq<Found>)
      modifies this`platform
      ensures Effect(Remembers(), found', []) == Announcing(found, Observed(cfg, old(Remembers()), SeenPlatform(s)))
    {
      found' := found;
      if !s.source.Probe? {
        return;
      }
      if s.status.Inactive() {
        platform := Pop(platform, s.name);
        return;
      }
      var serving := s.status.Serving();
      var previous := Get(platform, s.name);
      platform := platform[s.name := serving];
      if previous == None || previous == Some(serving) {
        return;
      }
      if serving {
        found' := found + [Found(Info, ServiceRecovered, s.name)];
      } else {
        found' := found + [Found(if s.group.Observability? then Warning else Error, ServiceDown, s.name)];
      }
    }

    method PlatformOf(rows: seq<PlatformService>, found: seq<Found>, ghost verdicts: seq<Verdict>)
      returns (found': seq<Found>)
      modifies this`platform
      ensures Log(Remembers(), found', verdicts) == Run(cfg, Log(old(Remembers()), found, verdicts), PlatformObs(rows))
    {
      ghost var start := Log(Remembers(), found, verdicts);
      found' := found;
      for i := 0 to |rows|
        invariant Log(Remembers(), found', verdicts) == Run(cfg, start, PlatformObs(rows[..i]))
      {
        RunQuiet(cfg, start, PlatformObs(rows[..i]), SeenPlatform(rows[i]));
        assert PlatformObs(rows[..i + 1]) == PlatformObs(rows[..i]) + [SeenPlatform(rows[i])];
        found' := PlatformServiceOf(rows[i], found');
      }
      assert rows[..|rows|] == rows;
    }

    method DatastoreOf(d: Database, found: seq<Found>) returns (found': seq<Found>)
      modifies this`datastores
      ensures Effect(Remembers(), found', []) == Announcing(found, Observed(cfg, old(Remembers()), SeenDatabase(d)))
    {
      var up := d.status.Healthy?;
      var previous := Get(datastores, d.name);
      datastores := datastores[d.name := up];
      if previous == None || previous == Some(up) {
        return found;
      }
      found' := found + [if up then Found(Info, DatastoreUp, d.name) else Found(Error, DatastoreDown, d.name)];
    }

    method DatastoresOf(databases: seq<Database>, found: seq<Found>, ghost verdicts: seq<Verdict>)
      returns (found': seq<Found>)
      modifies this`datastores
      ensures Log(Remembers(), found', verdicts)
              == Run(cfg, Log(old(Remembers()), found, verdicts), DatabaseObs(databases))
    {
      ghost var start := Log(Remembers(), found, verdicts);
      found' := found;
      for i := 0 to |databases|
        invariant Log(Remembers(), found', verdicts) == Run(cfg, start, DatabaseObs(databases[..i]))
      {
        RunQuiet(cfg, start, DatabaseObs(databases[..i]), SeenDatabase(databases[i]));
        assert DatabaseObs(databases[..i + 1]) == DatabaseObs(databases[..i]) + [SeenDatabase(databases[i])];
        found' := DatastoreOf(databases[i], found');
      }
      assert databases[..|databases|] == databases;
    }

    method AvailabilityOf(pid: string, up: bool, found: seq<Found>) returns (found': seq<Found>)
      modifies this`available, this`dlqDepth
      ensures Effect(Remembers(), found', []) == Announcing(found, Observed(cfg, old(Remembers()), SeenBroker(pid, up)))
    {
      var previous := Get(available, pid);
      available := available[pid := up];
      if !up {
        dlqDepth := Without(dlqDepth, pid);
      }
      if previous == None || previous == Some(up) {
        return found;
      }
      found' := found + [if up then Found(Info, QueuesAvailable, pid) else Found(Warning, QueuesUnavailable, pid)];
    }

    method BrokerOf(pid: string, p: Pipeline, found: seq<Found>, ghost verdicts: seq<Verdict>)
      returns (found': seq<Found>)
      modifies this`available, this`dlqDepth
      ensures Log(Remembers(), found', verdicts) == Run(cfg, Log(old(Remembers()), found, verdicts), BrokerObs(pid, p))
    {
      ghost var start := Log(Remembers(), found, verdicts);
      RunQuiet(cfg, start, [], SeenBroker(pid, p.available));
      assert [] + [SeenBroker(pid, p.available)] == [SeenBroker(pid, p.available)];
      found' := AvailabilityOf(pid, p.available, found);
      if p.available {
        RunConcat(cfg, start, [SeenBroker(pid, p.available)], DepthObs(pid, p.queues));
        found' := DepthsOf(pid, p.queues, found', verdicts);
      }
    }

    method DepthOf(pid: string, q: Queue, found: seq<Found>) returns (found': seq<Found>)
      modifies this`dlqDepth
      ensures Effect(Remembers(), found', []) == Announcing(found, Observed(cfg, old(Remembers()), SeenDepth(pid, q)))
    {
      found' := found;
      if q.name !in cfg.deadLetter {
        return;
      }
      var key := (pid, q.name);
      var before := Get(dlqDepth, key);
      dlqDepth := dlqDepth[key := q.messages];
      if before == None || before == Some(q.messages) {
        return;
      }
      if q.messages > before.value {
        found' := found + [Found(Error, DlqGrew, q.name)];
      } else if q.messages == 0 {
        found' := found + [Found(Info, DlqEmptied, q.name)];
      }
    }

    method DepthsOf(pid: string, queues: seq<Queue>, found: seq<Found>, ghost verdicts: seq<Verdict>)
      returns (found': seq<Found>)
      modifies this`dlqDepth
      ensures Log(Remembers(), found', verdicts)
              == Run(cfg, Log(old(Remembers()), found, verdicts), DepthObs(pid, queues))
    {
      ghost var start := Log(Remembers(), found, verdicts);
      found' := found;
      for i := 0 to |queues|
        invariant Log(Remembers(), found', verdicts) == Run(cfg, start, DepthObs(pid, queues[..i]))
      {
        RunQuiet(cfg, start, DepthObs(pid, queues[..i]), SeenDepth(pid, queues[i]));
        assert DepthObs(pid, queues[..i + 1]) == DepthObs(pid, queues[..i]) + [SeenDepth(pid, queues[i])];
        found' := DepthOf(pid, queues[i], found');
      }
      assert queues[..|queues|] == queues;
    }

    method WorkQueuesOf(pid: string, p: Pipeline, at: real, found: seq<Found>, verdicts: seq<Verdict>)
      returns (found': seq<Found>, verdicts': seq<Verdict>)
      modifies this`zeroSince, this`seenAt, this`conditions, this`awaitingSince
      ensures Log(Remembers(), found', verdicts')
              == Run(cfg, Log(old(Remembers()), found, verdicts), WorkObs(cfg, pid, p, at))
    {
      ghost var start := Log(Remembers(), found, verdicts);
      found', verdicts' := found, verdicts;
      if !p.available {
        RunSnoc(cfg, start, [], LostQueues(pid));
        assert [] + [LostQueues(pid)] == [LostQueues(pid)];
        zeroSince, seenAt := Without(zeroSince, pid), Without(seenAt, pid);
        conditions, awaitingSince := Without(conditions, pid), Without(awaitingSince, pid);
        return;
      }
      for i := 0 to |p.queues|
        invariant Log(Remembers(), found', verdicts')
                  == Run(cfg, start, QueueObs(cfg, pid, p.services, p.queues[..i], at))
      {
        var q := p.queues[i];
        OneMoreQueue(cfg, start, pid, p.services, p.queues, at, i);
        if q.name in cfg.work {
          found', verdicts' := WorkQueue(pid, p.services, q, at, found', verdicts');
        }
      }
      assert p.queues[..|p.queues|] == p.queues;
    }

    /** The body of the work-queue loop. */
    method WorkQueue(pid: string, svcs: seq<Service>, q: Queue, at: real, found: seq<Found>, verdicts: seq<Verdict>)
      returns (found': seq<Found>, verdicts': seq<Verdict>)
      modifies this`zeroSince, this`seenAt, this`conditions, this`awaitingSince
      ensures var e := ObservedQueue(cfg.bound, old(Remembers()), pid, q, Lists(cfg, svcs, q.name), at);
              Remembers() == e.memory && found' == found + e.found && verdicts' == verdicts + e.verdicts
    {
      var key := (pid, q.name);
      ghost var before := Remembers();
      ghost var lists := Lists(cfg, svcs, q.name);
      var condition := Decide(pid, svcs, q, at);
      ghost var between := Remembers();
      verdicts' := verdicts + [Verdict(pid, q.name, condition)];
      var kind := if condition.Some? && !condition.value.AwaitingMarker? then condition else None;
      var announced := NoteCondition(key, condition, kind);
      found' := found + announced;
      QueueEffect(cfg.bound, before, between, Remembers(), pid, q, lists, at);
    }

    /** Bring both runs up to date with the reading and decide the queue's condition from them. */
    method Decide(pid: string, svcs: seq<Service>, q: Queue, at: real) returns (condition: Option<ConditionKind>)
      modifies this`zeroSince, this`seenAt, this`awaitingSince
      ensures var m, key := old(Remembers()), (pid, q.name);
              var w := WatchAfter(cfg.bound, WatchOf(m, key), q, Lists(cfg, svcs, q.name), at);
              Remembers() == m.(zeroSince := Put(m.zeroSince, key, w.zero), seenAt := m.seenAt[key := at],
                                awaitingSince := Put(m.awaitingSince, key, w.awaiting))
      ensures condition == Decided(cfg.bound, WatchOf(old(Remembers()), (pid, q.name)), q, Lists(cfg, svcs, q.name), at)
    {
      var key := (pid, q.name);
      NoteZeroRun(key, q, at);
      var awaitingFor := AwaitingMarkerFor(pid, svcs, q, at);
      condition := ConditionOf(q, if key in zeroSince then at - zeroSince[key] else 0.0, awaitingFor, cfg.bound);
    }

    /** Remember the kind and announce a change of it. */
    method NoteCondition(key: Key, condition: Option<ConditionKind>, kind: Option<ConditionKind>)
      returns (found: seq<Found>)
      requires kind == Remembered(condition)
      modifies this`conditions
      ensures Remembers() == old(Remembers()).(conditions := old(conditions)[key := kind])
      ensures found == ConditionChange(Get(old(conditions), key), condition, key.1)
    {
      var known := key in conditions;
      var previous := if known then conditions[key] else None;
      conditions := conditions[key := kind];
      if !known || previous == kind {
        return [];
      }
      if condition.Some? {
        found := [Found(Error, QueueProblem(kind), key.1)];
      } else {
        found := [Found(Info, QueueRecovered, key.1)];
      }
    }

    /** Keep the time the queue's run of zero acks began, and of its last reading. */
    method NoteZeroRun(key: Key, q: Queue, at: real)
      modifies this`zeroSince, this`seenAt
      ensures zeroSince == Put(old(zeroSince), key, ZeroAfter(WatchOf(old(Remembers()), key), q, at))
      ensures seenAt == old(seenAt)[key := at]
    {
      if key in seenAt && at - seenAt[key] > GAP_SECONDS {
        zeroSince := Pop(zeroSince, key);
      }
      seenAt := seenAt[key := at];
      if Idle(q) {
        if key !in zeroSince {
          zeroSince := zeroSince[key := at];
        }
      } else {
        zeroSince := Pop(zeroSince, key);
      }
      assert zeroSince.Keys == Put(old(zeroSince), key, ZeroAfter(WatchOf(old(Remembers()), key), q, at)).Keys;
    }

    method AwaitingMarkerFor(pid: string, svcs: seq<Service>, q: Queue, at: real) returns (r: Option<real>)
      modifies this`awaitingSince
      ensures var since := WaitAfter(WatchOf(old(Remembers()), (pid, q.name)), Waiting(q, Lists(cfg, svcs, q.name)),
                                     at);
              && awaitingSince == Put(old(awaitingSince), (pid, q.name), since)
              && r == if since.Some? then Some(at - since.value) else None
    {
      var key := (pid, q.name);
      var listed := false;
      if q.name in cfg.owners && q.messages > 0 && q.consumers == 0 {
        var owner := cfg.owners[q.name];
        var service := FirstNamed(svcs, owner.0);
        listed := service.Some? && service.value.awaiting.Some? && owner.1 in service.value.awaiting.value;
      }
      if !listed {
        awaitingSince := Pop(awaitingSince, key);
        return None;
      }
      if key !in awaitingSince {
        awaitingSince := awaitingSince[key := at];
      }
      r := Some(at - awaitingSince[key]);
    }

    method PipelineOf(pid: string, p: Pipeline, at: real, found: seq<Found>, verdicts: seq<Verdict>)
      returns (found': seq<Found>, verdicts': seq<Verdict>)
      modifies this`services, this`available, this`dlqDepth, this`zeroSince, this`seenAt, this`conditions,
          this`awaitingSince
      ensures Log(Remembers(), found', verdicts')
              == Run(cfg, Log(old(Remembers()), found, verdicts), PipelineObs(cfg, pid, p, at))
    {
      ghost var start := Log(Remembers(), found, verdicts);
      found' := ServicesOf(pid, p.services, found, verdicts);
      found' := BrokerOf(pid, p, found', verdicts);
      found', verdicts' := WorkQueuesOf(pid, p, at, found', verdicts);
      RunConcat(cfg, start, ServiceObs(pid, p.services), BrokerObs(pid, p));
      RunConcat(cfg, start, ServiceObs(pid, p.services) + BrokerObs(pid, p), WorkObs(cfg, pid, p, at));
    }

    /** The pipelines of one reading, in the order the reading lists them. */
    method PipelinesOf(ps: seq<(string, Pipeline)>, at: real) returns (found: seq<Found>, verdicts: seq<Verdict>)
      modifies this`services, this`available, this`dlqDepth, this`zeroSince, this`seenAt, this`conditions,
          this`awaitingSince
      ensures Log(Remembers(), found, verdicts) == Run(cfg, Log(old(Remembers()), [], []), PipelinesObs(cfg, ps, at))
    {
      ghost var start := Log(Remembers(), [], []);
      found, verdicts := [], [];
      for i := 0 to |ps|
        invariant Log(Remembers(), found, verdicts) == Run(cfg, start, PipelinesObs(cfg, ps[..i], at))
      {
        var (pid, p) := ps[i];
        RunConcat(cfg, start, PipelinesObs(cfg, ps[..i], at), PipelineObs(cfg, pid, p, at));
        assert ps[..i + 1][..i] == ps[..i];
        found, verdicts := PipelineOf(pid, p, at, found, verdicts);
      }
      assert ps[..|ps|] == ps;
    }

    /** Everything a reading announces and decides, before the events get their ids. */
    method Compare(r: Reading) returns (found: seq<Found>, verdicts: seq<Verdict>)
      modifies this`services, this`platform, this`datastores, this`available, this`dlqDepth,
               this`zeroSince, this`seenAt, this`conditions, this`awaitingSince
      ensures Log(Remembers(), found, verdicts) == Run(cfg, Log(old(Remembers()), [], []), Observations(cfg, r))
      ensures Readings.NamesApart(r) ==>
                Readings.ReadingTold(cfg, old(Remembers()), Remembers(), r, found, verdicts)
    {
      ghost var start := Log(Remembers(), [], []);
      found, verdicts := PipelinesOf(r.pipelines, r.at);
      found := PlatformOf(r.platform, found, verdicts);
      found := DatastoresOf(r.databases, found, verdicts);
      RunConcat(cfg, start, PipelinesObs(cfg, r.pipelines, r.at), PlatformObs(r.platform));
      RunConcat(cfg, start, PipelinesObs(cfg, r.pipelines, r.at) + PlatformObs(r.platform), DatabaseObs(r.databases));
      ReadingTells(cfg, start.memory, r, Log(Remembers(), found, verdicts));
    }

    /** One cycle of the console: what the reading changes is announced and kept, and every work queue in it
    is judged. */
    method Observe(r: Reading) returns (events: seq<Event>, verdicts: seq<Verdict>)
      requires Valid()
      modifies this
      ensures Valid()
      ensures seen == old(seen) + Observations(cfg, r)
      ensures history == old(history) + events && decided == old(decided) + verdicts
      ensures forall i :: 0 <= i < |events| ==> events[i].timestamp == r.at
      ensures Readings.NamesApart(r) ==>
                Readings.ReadingTold(cfg, old(Remembers()), Remembers(), r, FoundOf(events), verdicts)
    {
      var found;
      found, verdicts := Compare(r);
      events := Record(found, r.at);
      RunOn(cfg, seen, Observations(cfg, r), Log(old(Remembers()), FoundOf(old(history)), decided));
      seen, decided := seen + Observations(cfg, r), decided + verdicts;
    }

    /** Give every event found its id and keep it in the ring. */
    method Record(found: seq<Found>, at: real) returns (events: seq<Event>)
      requires Numbered(ring, nextId, history, capacity)
      modifies this`ring, this`nextId, this`history
      ensures Numbered(ring, nextId, history, capacity)
      ensures history == old(history) + events && FoundOf(history) == FoundOf(old(history)) + found
      ensures FoundOf(events) == found
      ensures forall i :: 0 <= i < |events| ==> events[i].timestamp == at
    {
      events := [];
      for i := 0 to |found|
        invariant Numbered(ring, nextId, history, capacity)
        invariant history == old(history) + events && FoundOf(history) == FoundOf(old(history)) + found[..i]
        invariant FoundOf(events) == found[..i]
        invariant forall i :: 0 <= i < |events| ==> events[i].timestamp == at
      {
        var event := Event(nextId, at, found[i]);
        OneMoreEvent(ring, history, capacity, old(history), events, found, i, event);
        nextId := nextId + 1;
        ring := LastOf(ring + [event], capacity);
        history := history + [event];
        events := events + [event];
      }
    }
  }

  /** The ring holds the last events of a history whose ids are 1, 2, 3 and so on. */
  ghost predicate Numbered(ring: seq<Event>, nextId: nat, history: seq<Event>, capacity: nat) {
    && ring == LastOf(history, capacity) && nextId == |history| + 1
    && forall i :: 0 <= i < |history| ==> history[i].id == i + 1
  }

  lemma NumberedSnoc(ring: seq<Event>, history: seq<Event>, capacity: nat, event: Event)
    requires Numbered(ring, event.id, history, capacity)
    ensures Numbered(LastOf(ring + [event], capacity), event.id + 1, history + [event], capacity)
  {
  }

  lemma OneMoreEvent(ring: seq<Event>, history: seq<Event>, capacity: nat, before: seq<Event>, events: seq<Event>,
                     found: seq<Found>, i: nat, event: Event)
    requires Numbered(ring, event.id, history, capacity) && i < |found| && event.found == found[i]
    requires history == before + events && FoundOf(events) == found[..i]
    requires FoundOf(history) == FoundOf(before) + found[..i]
    ensures Numbered(LastOf(ring + [event], capacity), event.id + 1, history + [event], capacity)
    ensures history + [event] == before + (events + [event]) && FoundOf(events + [event]) == found[..i + 1]
    ensures FoundOf(history + [event]) == FoundOf(before) + found[..i + 1]
  {
    NumberedSnoc(ring, history, capacity, event);
    FoundSnoc(history, event);
    FoundSnoc(events, event);
  }

  lemma FoundSnoc(history: seq<Event>, event: Event)
    ensures FoundOf(history + [event]) == FoundOf(history) + [event.found]
  {
  }

  /** A queue's reading, told from the fields it writes: three as it is decided, and then the kind. */
  lemma QueueEffect(bound: real, m: Memory, n: Memory, m': Memory, pid: string, q: Queue, lists: bool, at: real)
    requires var key, w := (pid, q.name), WatchAfter(bound, WatchOf(m, (pid, q.name)), q, lists, at);
             && n == m.(zeroSince := Put(m.zeroSince, key, w.zero), seenAt := m.seenAt[key := at],
                        awaitingSince := Put(m.awaitingSince, key, w.awaiting))
             && m' == n.(conditions := m.conditions[key := w.known.value])
    ensures var key, condition := (pid, q.name), Decided(bound, WatchOf(m, (pid, q.name)), q, lists, at);
            ObservedQueue(bound, m, pid, q, lists, at) ==
              Effect(m', ConditionChange(Get(m.conditions, key), condition, q.name), [Verdict(pid, q.name, condition)])
  {
  }

  /** One more queue of a pipeline, watched or not. */
  lemma OneMoreQueue(cfg: Config, start: Log, pid: string, svcs: seq<Service>, queues: seq<Queue>, at: real, i: nat)
    requires i < |queues|
    ensures var l := Run(cfg, start, QueueObs(cfg, pid, svcs, queues[..i], at));
            var q := queues[i];
            var e := ObservedQueue(cfg.bound, l.memory, pid, q, Lists(cfg, svcs, q.name), at);
            Run(cfg, start, QueueObs(cfg, pid, svcs, queues[..i + 1], at)) ==
              if q.name in cfg.work then Log(e.memory, l.found + e.found, l.verdicts + e.verdicts) else l
  {
    var q := queues[i];
    var o := SeenQueue(pid, q, Lists(cfg, svcs, q.name), at);
    RunSnoc(cfg, start, QueueObs(cfg, pid, svcs, queues[..i], at), o);
    assert QueueObs(cfg, pid, svcs, queues[..i + 1], at) == QueueObs(cfg, pid, svcs, queues[..i], at) + [o];
  }

  /** One more observation that decides no verdict. */
  lemma RunQuiet(cfg: Config, l: Log, obs: seq<Obs>, o: Obs)
    requires !o.SeenQueue?
    ensures var before := Run(cfg, l, obs);
            var e := Observed(cfg, before.memory, o);
            && e.verdicts == []
            && Run(cfg, l, obs + [o]) == Log(e.memory, before.found + e.found, before.verdicts)
  {
    RunSnoc(cfg, l, obs, o);
  }

  lemma ReadingTells(cfg: Config, before: Memory, r: Reading, l: Log)
    requires l == Run(cfg, Log(before, [], []), Observations(cfg, r))
    ensures Readings.NamesApart(r) ==> Readings.ReadingTold(cfg, before, l.memory, r, l.found, l.verdicts)
  {
    if Readings.NamesApart(r) {
      Readings.ReadingIsTold(cfg, before, r);
    }
  }

  /** A reading's own log, put after everything before it. */
  lemma RunOn(cfg: Config, seen: seq<Obs>, obs: seq<Obs>, l: Log)
    requires l == Run(cfg, FRESH, seen)
    ensures var r := Run(cfg, Log(l.memory, [], []), obs);
            Run(cfg, FRESH, seen + obs) == Log(r.memory, l.found + r.found, l.verdicts + r.verdicts)
  {
    RunShift(cfg, l, obs);
    RunConcat(cfg, FRESH, seen, obs);
  }
}
