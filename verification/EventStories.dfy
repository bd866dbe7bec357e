/** What the theorems about the event detector speak of: one pipeline's share of a run, one service's
or queue's slice of the memory, the tape of announced changes, and the depth last compared. */
module EventStories {
  import opened Wrappers
  import opened Events

  // ---------------------------------------------------------------- pipelines are independent

  /** The pipeline an observation is about, if any. */
  function Of(o: Obs): Option<string> {
    if o.SeenPlatform? || o.SeenDatabase? then None else Some(o.pid)
  }

  function Only(obs: seq<Obs>, p: string): seq<Obs> {
    if obs == [] then []
    else
      var n := |obs| - 1;
      Only(obs[..n], p) + if Of(obs[n]) == Some(p) then [obs[n]] else []
  }

  /** A reading with everything but pipeline `p` taken out. */
  function Projected(r: Reading, p: string): Reading {
    Reading(Kept(r.pipelines, p), [], [], r.at)
  }

  function Kept(ps: seq<(string, Pipeline)>, p: string): seq<(string, Pipeline)> {
    if ps == [] then []
    else
      var n := |ps| - 1;
      Kept(ps[..n], p) + if ps[n].0 == p then [ps[n]] else []
  }

  function AllProjected(rs: seq<Reading>, p: string): seq<Reading> {
    seq(|rs|, i requires 0 <= i < |rs| => Projected(rs[i], p))
  }

  /** Everything remembered of one service or queue of one pipeline. */
  datatype Slice = Slice(service: Option<bool>, depth: Option<int>, watch: Watch)

  function SliceOf(m: Memory, key: Key): Slice {
    Slice(Get(m.services, key), Get(m.dlqDepth, key), WatchOf(m, key))
  }

  predicate About(o: Obs, key: Key) {
    match o
    case SeenService(pid, s) => (pid, s.name) == key
    case SeenDepth(pid, q) => (pid, q.name) == key
    case SeenQueue(pid, q, _, _) => (pid, q.name) == key
    case SeenBroker(pid, _) => pid == key.0
    case LostQueues(pid) => pid == key.0
    case _ => false
  }

  /** One service's or queue's slice after an observation about it: no map, no other key. */
  function SliceAfter(cfg: Config, s: Slice, o: Obs): Slice {
    match o
    case SeenService(_, service) => s.(service := Some(service.status.Serving()))
    case SeenBroker(_, up) => if up then s else s.(depth := None)
    case SeenDepth(_, q) => if q.name in cfg.deadLetter then s.(depth := Some(q.messages)) else s
    case LostQueues(_) => s.(watch := UNWATCHED)
    case SeenQueue(_, q, lists, at) =>
      if q.name in cfg.work then s.(watch := WatchAfter(cfg.bound, s.watch, q, lists, at)) else s
    case _ => s
  }

  /** The two memories hold the same of pipeline `p`. */
  ghost predicate Agree(m: Memory, n: Memory, p: string) {
    && Get(m.available, p) == Get(n.available, p)
    && forall name: string :: SliceOf(m, (p, name)) == SliceOf(n, (p, name))
  }

  /** The slice an observation's events and verdicts depend on. */
  function Subject(o: Obs): Key {
    match o
    case SeenService(pid, s) => (pid, s.name)
    case SeenDepth(pid, q) => (pid, q.name)
    case SeenQueue(pid, q, _, _) => (pid, q.name)
    case SeenBroker(pid, _) => (pid, "")
    case LostQueues(pid) => (pid, "")
    case _ => ("", "")
  }

  /** The events announced, and the verdicts decided, by the observations of pipeline `p`. */
  function FoundBy(cfg: Config, obs: seq<Obs>, p: string): seq<Found> {
    if obs == [] then []
    else
      var n := |obs| - 1;
      FoundBy(cfg, obs[..n], p)
      + if Of(obs[n]) == Some(p) then Observed(cfg, Run(cfg, FRESH, obs[..n]).memory, obs[n]).found else []
  }

  function VerdictsBy(cfg: Config, obs: seq<Obs>, p: string): seq<Verdict> {
    if obs == [] then []
    else
      var n := |obs| - 1;
      VerdictsBy(cfg, obs[..n], p)
      + if Of(obs[n]) == Some(p) then Observed(cfg, Run(cfg, FRESH, obs[..n]).memory, obs[n]).verdicts else []
  }

  // ---------------------------------------------------------------- the event log replays

  datatype Flag = ServiceFlag(key: Key) | PlatformFlag(name: string) | DatastoreFlag(name: string)
      | BrokerFlag(pid: string)

  function ValueOf(m: Memory, flag: Flag): Option<bool> {
    match flag
    case ServiceFlag(key) => Get(m.services, key)
    case PlatformFlag(name) => Get(m.platform, name)
    case DatastoreFlag(name) => Get(m.datastores, name)
    case BrokerFlag(pid) => Get(m.available, pid)
  }

  /** What an observation says of the flag; the inner None is a platform service turned off. */
  function Says(o: Obs, flag: Flag): Option<Option<bool>> {
    match (o, flag)
    case (SeenService(pid, s), ServiceFlag(key)) => if (pid, s.name) == key then Some(Some(s.status.Serving()))
      else None
    case (SeenPlatform(s), PlatformFlag(name)) =>
      if s.name != name || !s.source.Probe? then None
      else if s.status.Inactive() then Some(None)
      else Some(Some(s.status.Serving()))
    case (SeenDatabase(d), DatastoreFlag(name)) => if d.name == name then Some(Some(d.status.Healthy?)) else None
    case (SeenBroker(pid, up), BrokerFlag(p)) => if pid == p then Some(Some(up)) else None
    case _ => None
  }

  predicate IsRise(kind: EventKind) { kind in {ServiceRecovered, DatastoreUp, QueuesAvailable} }

  predicate IsFall(kind: EventKind) { kind in {ServiceDown, DatastoreDown, QueuesUnavailable} }

  function Changes(found: seq<Found>): seq<bool> {
    seq(|found|, i requires 0 <= i < |found| => IsRise(found[i].kind))
  }

  /** The first value seen since the last inactive reading, and the changes announced after it. */
  datatype Tape = Tape(first: bool, changes: seq<bool>)

  function TapeOf(cfg: Config, obs: seq<Obs>, flag: Flag): Option<Tape> {
    if obs == [] then None
    else
      var n := |obs| - 1;
      var tape := TapeOf(cfg, obs[..n], flag);
      match Says(obs[n], flag)
      case None => tape
      case Some(None) => None
      case Some(Some(value)) =>
        if tape == None then Some(Tape(value, []))
        else
          var found := Observed(cfg, Run(cfg, FRESH, obs[..n]).memory, obs[n]).found;
          Some(Tape(tape.value.first, tape.value.changes + Changes(found)))
  }

  predicate Alternating(t: Tape) {
    forall i :: 0 <= i < |t.changes| ==> t.changes[i] != if i == 0 then t.first else t.changes[i - 1]
  }

  function Replay(t: Tape): bool {
    if t.changes == [] then t.first else t.changes[|t.changes| - 1]
  }

  // ---------------------------------------------------------------- dead-letter queues

  /** The depth a dead-letter queue's next reading is compared with: its last one, unless the
  broker scrape has failed since. */
  function LastDepth(obs: seq<Obs>, key: Key): Option<int> {
    if obs == [] then None
    else
      match obs[|obs| - 1]
      case SeenDepth(pid, q) => if (pid, q.name) == key then Some(q.messages) else LastDepth(obs[..|obs| - 1], key)
      case SeenBroker(pid, up) => if pid == key.0 && !up then None else LastDepth(obs[..|obs| - 1], key)
      case _ => LastDepth(obs[..|obs| - 1], key)
  }
}
