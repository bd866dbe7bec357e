/** The event detector's readings, its memory, and what one observation does to it.

A reading is taken apart into observations, each about one service, one dead-letter queue, one work
queue and so on, in the order the detector visits them. `Run` folds them; the class in
EventDetectors.dfy is proved to compute exactly that fold. */
module Events {
  import opened Wrappers

  const EVENT_RING_SIZE := 200
  const STALL_SECONDS := 60.0
  const GAP_SECONDS := 30.0
  const AWAITING_MARKER_SECONDS := 60.0

  /** The status words the detector tells apart; every other word is `Other`. */
  datatype Status = Healthy | Unhealthy | Unknown | Unreachable | Disabled | Unconfigured | Other(word: string)
  {
    predicate Down() { Unhealthy? || Unknown? || Unreachable? }

    predicate Inactive() { Disabled? || Unconfigured? }

    predicate Serving() { !Down() }
  }

  datatype Source = Probe | Datastore

  datatype Group = Observability | OtherGroup(word: string)

  datatype Level = Info | Warning | Error

  datatype ConditionKind = NoConsumer | Stalled | AwaitingMarker

  /** `QueueProblem` is the source's `queue-{kind}`; the kind printed there can be Python's None. */
  datatype EventKind =
    | ServiceDown | ServiceRecovered
    | DatastoreDown | DatastoreUp
    | QueuesUnavailable | QueuesAvailable
    | DlqGrew | DlqEmptied
    | QueueProblem(problem: Option<ConditionKind>) | QueueRecovered

  datatype Found = Found(level: Level, kind: EventKind, subject: string)

  datatype Event = Event(id: nat, timestamp: real, found: Found)

  /** A work queue's condition as the reading carries it to every client. */
  datatype Verdict = Verdict(pipeline: string, queue: string, condition: Option<ConditionKind>)

  datatype Service = Service(name: string, status: Status, awaiting: Option<seq<string>>)

  datatype Queue = Queue(name: string, messages: int, consumers: int, ackRate: Option<real>)

  datatype Pipeline = Pipeline(services: seq<Service>, available: bool, queues: seq<Queue>)

  datatype PlatformService = PlatformService(name: string, group: Group, status: Status, source: Source)

  datatype Database = Database(name: string, status: Status)

  datatype Reading = Reading(pipelines: seq<(string, Pipeline)>, platform: seq<PlatformService>,
                             databases: seq<Database>, at: real)

  datatype Config = Config(deadLetter: set<string>, work: set<string>,
                           owners: map<string, (string, string)>, bound: real)

  /** (pipeline, service or queue) */
  type Key = (string, string)

  datatype Memory = Memory(
    services: map<Key, bool>,
    platform: map<string, bool>,
    datastores: map<string, bool>,
    available: map<string, bool>,
    dlqDepth: map<Key, int>,
    zeroSince: map<Key, real>,
    seenAt: map<Key, real>,
    conditions: map<Key, Option<ConditionKind>>,
    awaitingSince: map<Key, real>)

  const BLANK := Memory(map[], map[], map[], map[], map[], map[], map[], map[], map[])

  // ---------------------------------------------------------------- observations

  datatype Obs =
    | SeenService(pid: string, service: Service)
    | SeenBroker(pid: string, up: bool)
    | SeenDepth(pid: string, queue: Queue)
    | LostQueues(pid: string)
    | SeenQueue(pid: string, queue: Queue, lists: bool, at: real)
    | SeenPlatform(platform: PlatformService)
    | SeenDatabase(database: Database)

  /** The queue's owner was reached and names the queue's type among those still waiting for a marker. */
  predicate Lists(cfg: Config, services: seq<Service>, queue: string) {
    queue in cfg.owners &&
    var owner := cfg.owners[queue];
    match FirstNamed(services, owner.0)
    case None => false
    case Some(service) => service.awaiting.Some? && owner.1 in service.awaiting.value
  }

  function FirstNamed(services: seq<Service>, name: string): Option<Service> {
    if services == [] then None
    else if services[0].name == name then Some(services[0])
    else FirstNamed(services[1..], name)
  }

  function ServiceObs(pid: string, services: seq<Service>): seq<Obs> {
    seq(|services|, i requires 0 <= i < |services| => SeenService(pid, services[i]))
  }

  function DepthObs(pid: string, queues: seq<Queue>): seq<Obs> {
    seq(|queues|, i requires 0 <= i < |queues| => SeenDepth(pid, queues[i]))
  }

  function BrokerObs(pid: string, p: Pipeline): seq<Obs> {
    [SeenBroker(pid, p.available)] + if p.available then DepthObs(pid, p.queues) else []
  }

  function QueueObs(cfg: Config, pid: string, services: seq<Service>, queues: seq<Queue>, at: real): seq<Obs> {
    seq(|queues|, i requires 0 <= i < |queues| => SeenQueue(pid, queues[i], Lists(cfg, services, queues[i].name), at))
  }

  function WorkObs(cfg: Config, pid: string, p: Pipeline, at: real): seq<Obs> {
    if p.available then QueueObs(cfg, pid, p.services, p.queues, at) else [LostQueues(pid)]
  }

  function PipelineObs(cfg: Config, pid: string, p: Pipeline, at: real): seq<Obs> {
    ServiceObs(pid, p.services) + BrokerObs(pid, p) + WorkObs(cfg, pid, p, at)
  }

  function PipelinesObs(cfg: Config, ps: seq<(string, Pipeline)>, at: real): seq<Obs> {
    if ps == [] then []
    else var n := |ps| - 1; PipelinesObs(cfg, ps[..n], at) + PipelineObs(cfg, ps[n].0, ps[n].1, at)
  }

  function PlatformObs(platform: seq<PlatformService>): seq<Obs> {
    seq(|platform|, i requires 0 <= i < |platform| => SeenPlatform(platform[i]))
  }

  function DatabaseObs(databases: seq<Database>): seq<Obs> {
    seq(|databases|, i requires 0 <= i < |databases| => SeenDatabase(databases[i]))
  }

  function Observations(cfg: Config, r: Reading): seq<Obs> {
    PipelinesObs(cfg, r.pipelines, r.at) + PlatformObs(r.platform) + DatabaseObs(r.databases)
  }

  function AllObservations(cfg: Config, rs: seq<Reading>): seq<Obs> {
    if rs == [] then [] else AllObservations(cfg, rs[..|rs| - 1]) + Observations(cfg, rs[|rs| - 1])
  }

  // ---------------------------------------------------------------- one observation

  datatype Effect = Effect(memory: Memory, found: seq<Found>, verdicts: seq<Verdict>)

  function Quiet(m: Memory): Effect { Effect(m, [], []) }

  function Observed(cfg: Config, m: Memory, o: Obs): Effect {
    match o
    case SeenService(pid, s) =>
      var key := (pid, s.name);
      var serving := s.status.Serving();
      Effect(m.(services := m.services[key := serving]),
             Turn(Get(m.services, key), serving,
                  Found(Info, ServiceRecovered, s.name),
                  Found(if s.status.Unhealthy? then Error else Warning, ServiceDown, s.name)),
             [])
    case SeenBroker(pid, up) =>
      Effect(m.(available := m.available[pid := up], dlqDepth := if up then m.dlqDepth else Without(m.dlqDepth, pid)),
             Turn(Get(m.available, pid), up,
                  Found(Info, QueuesAvailable, pid), Found(Warning, QueuesUnavailable, pid)),
             [])
    case SeenDepth(pid, q) =>
      if q.name !in cfg.deadLetter then Quiet(m)
      else
        var key := (pid, q.name);
        Effect(m.(dlqDepth := m.dlqDepth[key := q.messages]), DepthChange(Get(m.dlqDepth, key), q), [])
    case LostQueues(pid) => Quiet(Unwatching(m, pid))
    case SeenQueue(pid, q, lists, at) =>
      if q.name !in cfg.work then Quiet(m) else ObservedQueue(cfg.bound, m, pid, q, lists, at)
    case SeenPlatform(s) =>
      Effect(m.(platform := PlatformAfter(m.platform, s)),
             if s.source.Probe? && !s.status.Inactive()
             then Turn(Get(m.platform, s.name), s.status.Serving(),
                       Found(Info, ServiceRecovered, s.name),
                       Found(if s.group.Observability? then Warning else Error, ServiceDown, s.name))
             else [],
             [])
    case SeenDatabase(d) =>
      var up := d.status.Healthy?;
      Effect(m.(datastores := m.datastores[d.name := up]),
             Turn(Get(m.datastores, d.name), up,
                  Found(Info, DatastoreUp, d.name), Found(Error, DatastoreDown, d.name)),
             [])
  }

  /** An inactive service is forgotten, so that its next probe counts as a first one. Rows that are not
  probes, the datastores', change nothing here. */
  function PlatformAfter(platform: map<string, bool>, s: PlatformService): map<string, bool> {
    if !s.source.Probe? then platform
    else if s.status.Inactive() then Pop(platform, s.name)
    else platform[s.name := s.status.Serving()]
  }

  /** The event of a flag that was `before` and is now `now`: none on a first reading or no change. */
  function Turn(before: Option<bool>, now: bool, up: Found, down: Found): seq<Found> {
    if before.None? || before.value == now then [] else if now then [up] else [down]
  }

  function DepthChange(before: Option<int>, q: Queue): seq<Found> {
    if before.None? || before.value == q.messages then []
    else if q.messages > before.value then [Found(Error, DlqGrew, q.name)]
    else if q.messages == 0 then [Found(Info, DlqEmptied, q.name)]
    else []
  }

  /** The entries of every other pipeline. */
  function Without<V>(m: map<Key, V>, pid: string): (rest: map<Key, V>)
    ensures forall k :: Get(rest, k) == if k.0 == pid then None else Get(m, k)
  {
    map k | k in m && k.0 != pid :: m[k]
  }

  /** A failed broker scrape forgets every work queue of the pipeline. */
  function Unwatching(m: Memory, pid: string): Memory {
    m.(zeroSince := Without(m.zeroSince, pid), seenAt := Without(m.seenAt, pid),
       conditions := Without(m.conditions, pid), awaitingSince := Without(m.awaitingSince, pid))
  }

  function ConditionOf(q: Queue, zeroSeconds: real, awaitingSeconds: Option<real>, bound: real): Option<ConditionKind> {
    if q.messages > 0 && q.consumers == 0 then
      if awaitingSeconds.None? then Some(NoConsumer)
      else if awaitingSeconds.value < bound then Some(AwaitingMarker)
      else Some(NoConsumer)
    else if q.messages > 0 && q.consumers > 0 && zeroSeconds >= STALL_SECONDS then Some(Stalled)
    else None
  }

  /** The kind the detector remembers: an expected wait is remembered as no problem. */
  function Remembered(condition: Option<ConditionKind>): Option<ConditionKind> {
    if condition.Some? && condition.value.AwaitingMarker? then None else condition
  }

  /** What a work queue's change of remembered kind announces. The branch tests the condition, not
  the kind, so entering an expected wait from a problem announces `QueueProblem(None)`. */
  function ConditionChange(known: Option<Option<ConditionKind>>, condition: Option<ConditionKind>,
                           name: string): seq<Found> {
    var kind := Remembered(condition);
    if known == None || known == Some(kind) then []
    else if condition.Some? then [Found(Error, QueueProblem(kind), name)]
    else [Found(Info, QueueRecovered, name)]
  }

  /** A backlog, and an ack rate computed as zero. */
  predicate Idle(q: Queue) { q.messages > 0 && q.ackRate.Some? && q.ackRate.value == 0.0 }

  /** What is remembered of one work queue: when its run of computed zero acks began, its last
  reading, the condition last announced, and when its wait for a marker began. */
  datatype Watch = Watch(zero: Option<real>, seen: Option<real>, known: Option<Option<ConditionKind>>,
                         awaiting: Option<real>)

  const UNWATCHED := Watch(None, None, None, None)

  function WatchOf(m: Memory, key: Key): Watch {
    Watch(Get(m.zeroSince, key), Get(m.seenAt, key), Get(m.conditions, key), Get(m.awaitingSince, key))
  }

  /** The memory with one queue's watch replaced. */
  function Rewatched(m: Memory, key: Key, w: Watch): Memory {
    m.(zeroSince := Put(m.zeroSince, key, w.zero), seenAt := Put(m.seenAt, key, w.seen),
       conditions := Put(m.conditions, key, w.known), awaitingSince := Put(m.awaitingSince, key, w.awaiting))
  }

  /** Since when the queue has been idle: kept over a reading that carries on, set by the first, and
  forgotten over anything else. */
  function ZeroAfter(w: Watch, q: Queue, at: real): Option<real> {
    if !Idle(q) then None
    else if w.zero.Some? && !(w.seen.Some? && at - w.seen.value > GAP_SECONDS) then w.zero
    else Some(at)
  }

  function WaitAfter(w: Watch, waiting: bool, at: real): Option<real> {
    if !waiting then None else if w.awaiting.Some? then w.awaiting else Some(at)
  }

  predicate Waiting(q: Queue, lists: bool) { lists && q.messages > 0 && q.consumers == 0 }

  function Decided(bound: real, w: Watch, q: Queue, lists: bool, at: real): Option<ConditionKind> {
    var zero := ZeroAfter(w, q, at);
    var awaiting := WaitAfter(w, Waiting(q, lists), at);
    var waited := if awaiting.Some? then Some(at - awaiting.value) else None;
    ConditionOf(q, if zero.Some? then at - zero.value else 0.0, waited, bound)
  }

  function WatchAfter(bound: real, w: Watch, q: Queue, lists: bool, at: real): Watch {
    Watch(ZeroAfter(w, q, at), Some(at), Some(Remembered(Decided(bound, w, q, lists, at))),
          WaitAfter(w, Waiting(q, lists), at))
  }

  function ObservedQueue(bound: real, m: Memory, pid: string, q: Queue, lists: bool, at: real): Effect {
    var w := WatchOf(m, (pid, q.name));
    var condition := Decided(bound, w, q, lists, at);
    Effect(Rewatched(m, (pid, q.name), WatchAfter(bound, w, q, lists, at)),
           ConditionChange(w.known, condition, q.name),
           [Verdict(pid, q.name, condition)])
  }

  // ---------------------------------------------------------------- whole runs

  /** The memory, and everything announced and decided so far. */
  datatype Log = Log(memory: Memory, found: seq<Found>, verdicts: seq<Verdict>)

  const FRESH := Log(BLANK, [], [])

  function Step(cfg: Config, l: Log, o: Obs): Log {
    var e := Observed(cfg, l.memory, o);
    Log(e.memory, l.found + e.found, l.verdicts + e.verdicts)
  }

  function Run(cfg: Config, l: Log, obs: seq<Obs>): Log {
    if obs == [] then l else Step(cfg, Run(cfg, l, obs[..|obs| - 1]), obs[|obs| - 1])
  }

  lemma {:induction false} RunSnoc(cfg: Config, l: Log, obs: seq<Obs>, o: Obs)
    ensures Run(cfg, l, obs + [o]) == Step(cfg, Run(cfg, l, obs), o)
  {
    assert (obs + [o])[..|obs|] == obs;
  }

  lemma {:induction false} RunConcat(cfg: Config, l: Log, a: seq<Obs>, b: seq<Obs>)
    ensures Run(cfg, l, a + b) == Run(cfg, Run(cfg, l, a), b)
    decreases b
  {
    if b == [] {
      assert a + b == a;
    } else {
      var n := |b| - 1;
      RunConcat(cfg, l, a, b[..n]);
      assert a + b == (a + b[..n]) + [b[n]];
      RunSnoc(cfg, l, a + b[..n], b[n]);
    }
  }

  lemma StepShift(cfg: Config, found: seq<Found>, verdicts: seq<Verdict>, l: Log, o: Obs)
    ensures var s := Step(cfg, l, o);
            Step(cfg, Log(l.memory, found + l.found, verdicts + l.verdicts), o)
            == Log(s.memory, found + s.found, verdicts + s.verdicts)
  {
    var e := Observed(cfg, l.memory, o);
    assert (found + l.found) + e.found == found + (l.found + e.found);
    assert (verdicts + l.verdicts) + e.verdicts == verdicts + (l.verdicts + e.verdicts);
  }

  /** What was announced and decided before a run has no effect on it. */
  lemma {:induction false} RunShift(cfg: Config, l: Log, obs: seq<Obs>)
    ensures var r := Run(cfg, Log(l.memory, [], []), obs);
            Run(cfg, l, obs) == Log(r.memory, l.found + r.found, l.verdicts + r.verdicts)
    decreases obs
  {
    if obs != [] {
      var n := |obs| - 1;
      RunShift(cfg, l, obs[..n]);
      StepShift(cfg, l.found, l.verdicts, Run(cfg, Log(l.memory, [], []), obs[..n]), obs[n]);
    }
  }
}
