/** What one whole reading announces, told from the reading's own fields: every service, broker, dead-letter
queue, work queue and datastore it shows is remembered as it reads, and announced exactly when that
differs from what was remembered before. */
module Readings {
  import opened Wrappers
  import opened Events
  import opened EventStories
  import opened EventTheorems

  /** What an event is about. Its subject is a name; pipelines do not appear in it. */
  datatype Topic =
    | ServiceTopic(name: string)
    | DatastoreTopic(name: string)
    | BrokerTopic(pid: string)
    | DepthTopic(queue: string)
    | QueueTopic(queue: string)

  function TopicOf(f: Found): Topic {
    match f.kind
    case ServiceDown => ServiceTopic(f.subject)
    case ServiceRecovered => ServiceTopic(f.subject)
    case DatastoreDown => DatastoreTopic(f.subject)
    case DatastoreUp => DatastoreTopic(f.subject)
    case QueuesUnavailable => BrokerTopic(f.subject)
    case QueuesAvailable => BrokerTopic(f.subject)
    case DlqGrew => DepthTopic(f.subject)
    case DlqEmptied => DepthTopic(f.subject)
    case QueueProblem(_) => QueueTopic(f.subject)
    case QueueRecovered => QueueTopic(f.subject)
  }

  /** The events about `t`, in order. */
  function Concerning(found: seq<Found>, t: Topic): seq<Found> {
    if found == [] then []
    else
      var n := |found| - 1;
      Concerning(found[..n], t) + if TopicOf(found[n]) == t then [found[n]] else []
  }

  // ---------------------------------------------------------------- what a reading should do

  ghost predicate ServiceTold(before: Memory, after: Memory, pid: string, s: Service, found: seq<Found>) {
    var up := s.status != Unhealthy && s.status != Unknown && s.status != Unreachable;
    && Get(after.services, (pid, s.name)) == Some(up)
    && Concerning(found, ServiceTopic(s.name)) ==
       if Get(before.services, (pid, s.name)) != Some(!up) then []
       else if up then [Found(Info, ServiceRecovered, s.name)]
       else [Found(if s.status == Unhealthy then Error else Warning, ServiceDown, s.name)]
  }

  ghost predicate BrokerTold(before: Memory, after: Memory, pid: string, up: bool, found: seq<Found>) {
    && Get(after.available, pid) == Some(up)
    && Concerning(found, BrokerTopic(pid)) ==
       if Get(before.available, pid) != Some(!up) then []
       else if up then [Found(Info, QueuesAvailable, pid)]
       else [Found(Warning, QueuesUnavailable, pid)]
  }

  ghost predicate DepthTold(before: Memory, after: Memory, pid: string, q: Queue, found: seq<Found>) {
    var last := Get(before.dlqDepth, (pid, q.name));
    && Get(after.dlqDepth, (pid, q.name)) == Some(q.messages)
    && Concerning(found, DepthTopic(q.name)) ==
       if last.Some? && last.value < q.messages then [Found(Error, DlqGrew, q.name)]
       else if last.Some? && last.value > q.messages == 0 then [Found(Info, DlqEmptied, q.name)]
       else []
  }

  /** A work queue is given a verdict, and the events about it are the change from what was remembered. */
  ghost predicate QueueTold(before: Memory, pid: string, q: Queue, found: seq<Found>, verdicts: seq<Verdict>) {
    exists condition ::
      && Verdict(pid, q.name, condition) in verdicts
      && var kind := if condition == Some(AwaitingMarker) then None else condition;
         var known := Get(before.conditions, (pid, q.name));
         Concerning(found, QueueTopic(q.name)) ==
           if known == None || known == Some(kind) then []
           else if condition == None then [Found(Info, QueueRecovered, q.name)]
           else [Found(Error, QueueProblem(kind), q.name)]
  }

  /** Nothing is announced but about what the pipeline shows. */
  ghost predicate InPipeline(cfg: Config, pid: string, p: Pipeline, t: Topic) {
    match t
    case ServiceTopic(name) => exists i :: 0 <= i < |p.services| && p.services[i].name == name
    case BrokerTopic(pid') => pid' == pid
    case DepthTopic(name) =>
      p.available && name in cfg.deadLetter && exists i :: 0 <= i < |p.queues| && p.queues[i].name == name
    case QueueTopic(name) =>
      p.available && name in cfg.work && exists i :: 0 <= i < |p.queues| && p.queues[i].name == name
    case DatastoreTopic(_) => false
  }

  ghost predicate PipelineTold(cfg: Config, before: Memory, after: Memory, pid: string, p: Pipeline, found: seq<Found>,
                               verdicts: seq<Verdict>)
  {
    && (forall i :: 0 <= i < |p.services| ==> ServiceTold(before, after, pid, p.services[i], found))
    && BrokerTold(before, after, pid, p.available, found)
    && (p.available ==> forall i :: 0 <= i < |p.queues| ==>
          && (p.queues[i].name in cfg.deadLetter ==> DepthTold(before, after, pid, p.queues[i], found))
          && (p.queues[i].name in cfg.work ==> QueueTold(before, pid, p.queues[i], found, verdicts)))
    && (!p.available ==> forall name: string ::
          SliceOf(after, (pid, name)).depth == None && SliceOf(after, (pid, name)).watch == UNWATCHED)
    && (forall f :: f in found ==> InPipeline(cfg, pid, p, TopicOf(f)))
  }

  ghost predicate PlatformTold(before: Memory, after: Memory, s: PlatformService, found: seq<Found>)
  {
    var up := s.status != Unhealthy && s.status != Unknown && s.status != Unreachable;
    if s.status == Disabled || s.status == Unconfigured then
      Get(after.platform, s.name) == None && Concerning(found, ServiceTopic(s.name)) == []
    else
      && Get(after.platform, s.name) == Some(up)
      && Concerning(found, ServiceTopic(s.name)) ==
         if Get(before.platform, s.name) != Some(!up) then []
         else if up then [Found(Info, ServiceRecovered, s.name)]
         else [Found(if s.group == Observability then Warning else Error, ServiceDown, s.name)]
  }

  ghost predicate DatabaseTold(before: Memory, after: Memory, d: Database, found: seq<Found>) {
    var up := d.status == Healthy;
    && Get(after.datastores, d.name) == Some(up)
    && Concerning(found, DatastoreTopic(d.name)) ==
       if Get(before.datastores, d.name) != Some(!up) then []
       else [if up then Found(Info, DatastoreUp, d.name) else Found(Error, DatastoreDown, d.name)]
  }

  predicate Probed(rows: seq<PlatformService>, name: string) {
    exists i :: 0 <= i < |rows| && rows[i].source == Probe && rows[i].name == name
  }

  predicate Listed(databases: seq<Database>, name: string) {
    exists i :: 0 <= i < |databases| && databases[i].name == name
  }

  /** Rows that are not probes change nothing, and neither does the reading anything that it does not show. */
  ghost predicate AllPlatformTold(before: Memory, after: Memory, rows: seq<PlatformService>, found: seq<Found>) {
    && (forall i :: 0 <= i < |rows| && rows[i].source == Probe ==> PlatformTold(before, after, rows[i], found))
    && (forall name :: !Probed(rows, name) ==> Get(after.platform, name) == Get(before.platform, name))
    && (forall f :: f in found ==> TopicOf(f).ServiceTopic? && Probed(rows, TopicOf(f).name))
  }

  ghost predicate AllDatabasesTold(before: Memory, after: Memory, databases: seq<Database>, found: seq<Found>) {
    && (forall i :: 0 <= i < |databases| ==> DatabaseTold(before, after, databases[i], found))
    && (forall name :: !Listed(databases, name) ==> Get(after.datastores, name) == Get(before.datastores, name))
    && (forall f :: f in found ==> TopicOf(f).DatastoreTopic? && Listed(databases, TopicOf(f).name))
  }

  ghost predicate PipelinesTold(cfg: Config, before: Memory, after: Memory, ps: seq<(string, Pipeline)>,
                                parts: seq<seq<Found>>, verdicts: seq<seq<Verdict>>)
  {
    && |parts| == |verdicts| == |ps|
    && forall k :: 0 <= k < |ps| ==>
         PipelineTold(cfg, before, after, ps[k].0, ps[k].1, parts[k], verdicts[k])
  }

  function Joined<T>(parts: seq<seq<T>>): seq<T> {
    if parts == [] then [] else Joined(parts[..|parts| - 1]) + parts[|parts| - 1]
  }

  /** What each pipeline announced and had decided, what the platform did, and what the datastores did. */
  datatype Parts = Parts(pipelines: seq<seq<Found>>, verdicts: seq<seq<Verdict>>, platform: seq<Found>,
                         databases: seq<Found>)

  ghost predicate ToldBy(cfg: Config, before: Memory, after: Memory, r: Reading, parts: Parts) {
    && PipelinesTold(cfg, before, after, r.pipelines, parts.pipelines, parts.verdicts)
    && AllPlatformTold(before, after, r.platform, parts.platform)
    && AllDatabasesTold(before, after, r.databases, parts.databases)
  }

  /** The events fall into one part for each pipeline, one for the platform and one for the datastores, in that
  order, and each part says of its own what it should. */
  ghost predicate ReadingTold(cfg: Config, before: Memory, after: Memory, r: Reading, found: seq<Found>,
                              verdicts: seq<Verdict>)
  {
    exists parts :: ToldBy(cfg, before, after, r, parts) && verdicts == Joined(parts.verdicts)
                    && found == Joined(parts.pipelines) + parts.platform + parts.databases
  }

  ghost predicate NamesApart(r: Reading) {
    PipelinesApart(r.pipelines) && ProbesApart(r.platform) && DatabasesApart(r.databases)
  }

  ghost predicate PipelinesApart(ps: seq<(string, Pipeline)>) {
    && (forall j, k :: 0 <= j < k < |ps| ==> ps[j].0 != ps[k].0)
    && (forall k :: 0 <= k < |ps| ==> PipelineNamesApart(ps[k].1))
  }

  ghost predicate PipelineNamesApart(p: Pipeline) {
    && (forall i, j :: 0 <= i < j < |p.services| ==> p.services[i].name != p.services[j].name)
    && (forall i, j :: 0 <= i < j < |p.queues| ==> p.queues[i].name != p.queues[j].name)
  }

  ghost predicate ProbesApart(rows: seq<PlatformService>) {
    forall i, j :: 0 <= i < j < |rows| && rows[i].source == rows[j].source == Probe ==> rows[i].name != rows[j].name
  }

  ghost predicate DatabasesApart(databases: seq<Database>) {
    forall i, j :: 0 <= i < j < |databases| ==> databases[i].name != databases[j].name
  }

  // ---------------------------------------------------------------- one observation among many

  /** What an observation's events are about, if it can announce any. */
  function TopicSeen(cfg: Config, o: Obs): Option<Topic> {
    match o
    case SeenService(_, s) => Some(ServiceTopic(s.name))
    case SeenBroker(pid, _) => Some(BrokerTopic(pid))
    case SeenDepth(_, q) => if q.name in cfg.deadLetter then Some(DepthTopic(q.name)) else None
    case LostQueues(_) => None
    case SeenQueue(_, q, _, _) => if q.name in cfg.work then Some(QueueTopic(q.name)) else None
    case SeenPlatform(s) => if s.source.Probe? then Some(ServiceTopic(s.name)) else None
    case SeenDatabase(d) => Some(DatastoreTopic(d.name))
  }

  lemma FoundConcerns(cfg: Config, m: Memory, o: Obs)
    ensures forall f :: f in Observed(cfg, m, o).found ==> Some(TopicOf(f)) == TopicSeen(cfg, o)
    ensures |Observed(cfg, m, o).found| <= 1
  {
    match o
    case SeenQueue(_, q, _, _) => if q.name in cfg.work {}
    case _ =>
  }

  lemma ConcerningOne(found: seq<Found>, more: seq<Found>, t: Topic)
    requires |more| <= 1
    ensures Concerning(found + more, t) ==
            Concerning(found, t) + if more != [] && TopicOf(more[0]) == t then more else []
  {
    if more == [] {
      assert found + more == found;
    } else {
      assert (found + more)[..|found|] == found;
    }
  }

  function Own(cfg: Config, m: Memory, obs: seq<Obs>): Log {
    Run(cfg, Log(m, [], []), obs)
  }

  lemma OwnSnoc(cfg: Config, m: Memory, obs: seq<Obs>, t: Topic)
    requires obs != []
    ensures var n := |obs| - 1;
            var l := Own(cfg, m, obs[..n]);
            var e := Observed(cfg, l.memory, obs[n]);
            && Own(cfg, m, obs) == Log(e.memory, l.found + e.found, l.verdicts + e.verdicts)
            && Concerning(Own(cfg, m, obs).found, t) ==
               Concerning(l.found, t) + if TopicSeen(cfg, obs[n]) == Some(t) then e.found else []
  {
    var n := |obs| - 1;
    var l := Own(cfg, m, obs[..n]);
    FoundConcerns(cfg, l.memory, obs[n]);
    ConcerningOne(l.found, Observed(cfg, l.memory, obs[n]).found, t);
  }

  /** Only observation `k` of them is about `t`. */
  ghost predicate OnlyAt(cfg: Config, obs: seq<Obs>, k: nat, t: Topic) {
    && k < |obs| && TopicSeen(cfg, obs[k]) == Some(t)
    && forall j :: 0 <= j < |obs| && j != k ==> TopicSeen(cfg, obs[j]) != Some(t)
  }

  lemma {:induction false} NotConcerned(cfg: Config, m: Memory, obs: seq<Obs>, t: Topic)
    requires forall j :: 0 <= j < |obs| ==> TopicSeen(cfg, obs[j]) != Some(t)
    ensures Concerning(Own(cfg, m, obs).found, t) == []
  {
    if obs != [] {
      NotConcerned(cfg, m, obs[..|obs| - 1], t);
      OwnSnoc(cfg, m, obs, t);
    }
  }

  lemma {:induction false} ConcernedOnce(cfg: Config, m: Memory, obs: seq<Obs>, k: nat, t: Topic)
    requires OnlyAt(cfg, obs, k, t)
    ensures Concerning(Own(cfg, m, obs).found, t) == Observed(cfg, Own(cfg, m, obs[..k]).memory, obs[k]).found
    decreases |obs|
  {
    var n := |obs| - 1;
    OwnSnoc(cfg, m, obs, t);
    if k == n {
      NotConcerned(cfg, m, obs[..n], t);
    } else {
      OnlyAtStays(cfg, obs, k, t);
      ConcernedOnce(cfg, m, obs[..n], k, t);
    }
  }

  lemma OnlyAtStays(cfg: Config, obs: seq<Obs>, k: nat, t: Topic)
    requires OnlyAt(cfg, obs, k, t) && k < |obs| - 1
    ensures OnlyAt(cfg, obs[..|obs| - 1], k, t) && TopicSeen(cfg, obs[|obs| - 1]) != Some(t)
    ensures obs[..|obs| - 1][..k] == obs[..k] && obs[..|obs| - 1][k] == obs[k]
  {
  }

  /** Nothing is announced but about what was observed. */
  lemma {:induction false} FoundIsSeen(cfg: Config, m: Memory, obs: seq<Obs>, f: Found)
    requires f in Own(cfg, m, obs).found
    ensures exists j :: 0 <= j < |obs| && TopicSeen(cfg, obs[j]) == Some(TopicOf(f))
  {
    if obs != [] {
      var n := |obs| - 1;
      OwnSnoc(cfg, m, obs, TopicOf(f));
      if f in Own(cfg, m, obs[..n]).found {
        FoundIsSeen(cfg, m, obs[..n], f);
        var j :| 0 <= j < n && TopicSeen(cfg, obs[..n][j]) == Some(TopicOf(f));
        assert obs[j] == obs[..n][j];
      } else {
        FoundConcerns(cfg, Own(cfg, m, obs[..n]).memory, obs[n]);
      }
    }
  }

  lemma {:induction false} VerdictStays(cfg: Config, m: Memory, obs: seq<Obs>, k: nat)
    requires k < |obs|
    ensures forall v :: v in Observed(cfg, Own(cfg, m, obs[..k]).memory, obs[k]).verdicts ==>
              v in Own(cfg, m, obs).verdicts
  {
    var n := |obs| - 1;
    if k < n {
      assert obs[..n][..k] == obs[..k];
      VerdictStays(cfg, m, obs[..n], k);
    }
  }

  lemma {:induction false} FlagKept(cfg: Config, m: Memory, obs: seq<Obs>, flag: Flag)
    requires forall j :: 0 <= j < |obs| ==> Says(obs[j], flag) == None
    ensures ValueOf(Own(cfg, m, obs).memory, flag) == ValueOf(m, flag)
  {
    if obs != [] {
      FlagKept(cfg, m, obs[..|obs| - 1], flag);
      FlagStep(cfg, Own(cfg, m, obs[..|obs| - 1]).memory, obs[|obs| - 1], flag);
    }
  }

  lemma {:induction false} FlagTaken(cfg: Config, m: Memory, obs: seq<Obs>, k: nat, flag: Flag)
    requires k < |obs| && Says(obs[k], flag).Some?
    requires forall j :: k < j < |obs| ==> Says(obs[j], flag) == None
    ensures ValueOf(Own(cfg, m, obs).memory, flag) == Says(obs[k], flag).value
  {
    var n := |obs| - 1;
    FlagStep(cfg, Own(cfg, m, obs[..n]).memory, obs[n], flag);
    if k < n {
      FlagTaken(cfg, m, obs[..n], k, flag);
    }
  }

  /** A flag that one observation alone speaks of, when nothing else has the same topic. */
  lemma FlagOnce(cfg: Config, m: Memory, obs: seq<Obs>, k: nat, flag: Flag, t: Topic) returns (between: Memory)
    requires OnlyAt(cfg, obs, k, t) && Says(obs[k], flag).Some?
    requires forall j :: 0 <= j < |obs| && j != k ==> Says(obs[j], flag) == None
    ensures ValueOf(Own(cfg, m, obs).memory, flag) == Says(obs[k], flag).value
    ensures ValueOf(between, flag) == ValueOf(m, flag)
    ensures Concerning(Own(cfg, m, obs).found, t) == Observed(cfg, between, obs[k]).found
  {
    between := Own(cfg, m, obs[..k]).memory;
    FlagKept(cfg, m, obs[..k], flag);
    FlagTaken(cfg, m, obs, k, flag);
    ConcernedOnce(cfg, m, obs, k, t);
  }

  /** Part of one service's or queue's slice, unless an observation of the kind that writes it. */
  lemma {:induction false} DepthKept(cfg: Config, m: Memory, obs: seq<Obs>, key: Key)
    requires forall j :: 0 <= j < |obs| && About(obs[j], key) ==>
               !obs[j].SeenDepth? && (obs[j].SeenBroker? ==> obs[j].up)
    ensures SliceOf(Own(cfg, m, obs).memory, key).depth == SliceOf(m, key).depth
  {
    if obs != [] {
      var n := |obs| - 1;
      DepthKept(cfg, m, obs[..n], key);
      SliceStep(cfg, Own(cfg, m, obs[..n]).memory, obs[n], key);
    }
  }

  lemma {:induction false} WatchKept(cfg: Config, m: Memory, obs: seq<Obs>, key: Key)
    requires forall j :: 0 <= j < |obs| && About(obs[j], key) ==> !obs[j].SeenQueue? && !obs[j].LostQueues?
    ensures SliceOf(Own(cfg, m, obs).memory, key).watch == SliceOf(m, key).watch
  {
    if obs != [] {
      var n := |obs| - 1;
      WatchKept(cfg, m, obs[..n], key);
      SliceStep(cfg, Own(cfg, m, obs[..n]).memory, obs[n], key);
    }
  }

  // ---------------------------------------------------------------- one pipeline

  /** The observations of a pipeline, one by one. */
  lemma PipelineObsAt(cfg: Config, pid: string, p: Pipeline, at: real, j: nat)
    requires j < |PipelineObs(cfg, pid, p, at)|
    ensures var n, q := |p.services|, |p.queues|;
            var o := PipelineObs(cfg, pid, p, at)[j];
            if j < n then o == SeenService(pid, p.services[j])
            else if j == n then o == SeenBroker(pid, p.available)
            else if !p.available then j == n + 1 && o == LostQueues(pid)
            else if j <= n + q then o == SeenDepth(pid, p.queues[j - n - 1])
            else j <= n + q + q && o == SeenQueue(pid, p.queues[j - n - 1 - q],
                                                  Lists(cfg, p.services, p.queues[j - n - 1 - q].name), at)
  {
  }

  lemma PipelineObsCount(cfg: Config, pid: string, p: Pipeline, at: real)
    ensures |PipelineObs(cfg, pid, p, at)| == |p.services| + if p.available then 1 + |p.queues| + |p.queues| else 2
  {
  }

  lemma ServiceIsTold(cfg: Config, m: Memory, pid: string, p: Pipeline, at: real, i: nat)
    requires PipelineNamesApart(p) && i < |p.services|
    ensures var own := Own(cfg, m, PipelineObs(cfg, pid, p, at));
            ServiceTold(m, own.memory, pid, p.services[i], own.found)
  {
    var obs, s := PipelineObs(cfg, pid, p, at), p.services[i];
    PipelineObsCount(cfg, pid, p, at);
    PipelineObsAt(cfg, pid, p, at, i);
    forall j | 0 <= j < |obs| && j != i
      ensures TopicSeen(cfg, obs[j]) != Some(ServiceTopic(s.name)) && Says(obs[j], ServiceFlag((pid, s.name))) == None
    {
      PipelineObsAt(cfg, pid, p, at, j);
    }
    var _ := FlagOnce(cfg, m, obs, i, ServiceFlag((pid, s.name)), ServiceTopic(s.name));
  }

  lemma BrokerIsTold(cfg: Config, m: Memory, pid: string, p: Pipeline, at: real)
    ensures var own := Own(cfg, m, PipelineObs(cfg, pid, p, at));
            BrokerTold(m, own.memory, pid, p.available, own.found)
  {
    var obs, n := PipelineObs(cfg, pid, p, at), |p.services|;
    PipelineObsCount(cfg, pid, p, at);
    PipelineObsAt(cfg, pid, p, at, n);
    forall j | 0 <= j < |obs| && j != n
      ensures TopicSeen(cfg, obs[j]) != Some(BrokerTopic(pid)) && Says(obs[j], BrokerFlag(pid)) == None
    {
      PipelineObsAt(cfg, pid, p, at, j);
    }
    var _ := FlagOnce(cfg, m, obs, n, BrokerFlag(pid), BrokerTopic(pid));
  }

  lemma DepthStep(cfg: Config, m: Memory, pid: string, q: Queue)
    requires q.name in cfg.deadLetter
    ensures var e := Observed(cfg, m, SeenDepth(pid, q));
            var last := SliceOf(m, (pid, q.name)).depth;
            && SliceOf(e.memory, (pid, q.name)).depth == Some(q.messages)
            && e.found == if last.Some? && last.value < q.messages then [Found(Error, DlqGrew, q.name)]
                          else if last.Some? && last.value > q.messages == 0 then [Found(Info, DlqEmptied, q.name)]
                          else []
  {
  }

  /** What comes before and after a dead-letter queue's own observation has no effect on its depth. */
  lemma DepthOnce(cfg: Config, m: Memory, obs: seq<Obs>, k: nat, pid: string, q: Queue)
    requires OnlyAt(cfg, obs, k, DepthTopic(q.name)) && obs[k] == SeenDepth(pid, q) && q.name in cfg.deadLetter
    requires forall j :: 0 <= j < |obs| ==> obs[j].SeenBroker? ==> obs[j].up
    ensures DepthTold(m, Own(cfg, m, obs).memory, pid, q, Own(cfg, m, obs).found)
  {
    var key := (pid, q.name);
    var rest := obs[k + 1..];
    assert obs == (obs[..k] + [obs[k]]) + rest;
    RunConcat(cfg, Log(m, [], []), obs[..k] + [obs[k]], rest);
    RunSnoc(cfg, Log(m, [], []), obs[..k], obs[k]);
    var l := Own(cfg, m, obs[..k] + [obs[k]]);
    RunShift(cfg, l, rest);
    DepthKept(cfg, m, obs[..k], key);
    DepthStep(cfg, Own(cfg, m, obs[..k]).memory, pid, q);
    forall j | 0 <= j < |rest| ensures rest[j].SeenDepth? ==> !About(rest[j], key) {
      assert TopicSeen(cfg, obs[k + 1 + j]) != Some(DepthTopic(q.name));
    }
    DepthKept(cfg, l.memory, rest, key);
    ConcernedOnce(cfg, m, obs, k, DepthTopic(q.name));
  }

  lemma DepthIsTold(cfg: Config, m: Memory, pid: string, p: Pipeline, at: real, i: nat)
    requires PipelineNamesApart(p) && p.available && i < |p.queues| && p.queues[i].name in cfg.deadLetter
    ensures var own := Own(cfg, m, PipelineObs(cfg, pid, p, at));
            DepthTold(m, own.memory, pid, p.queues[i], own.found)
  {
    var obs, k := PipelineObs(cfg, pid, p, at), |p.services| + 1 + i;
    PipelineObsCount(cfg, pid, p, at);
    PipelineObsAt(cfg, pid, p, at, k);
    forall j | 0 <= j < |obs| && j != k
      ensures TopicSeen(cfg, obs[j]) != Some(DepthTopic(p.queues[i].name)) && (obs[j].SeenBroker? ==> obs[j].up)
    {
      PipelineObsAt(cfg, pid, p, at, j);
    }
    DepthOnce(cfg, m, obs, k, pid, p.queues[i]);
  }

  lemma QueueStep(cfg: Config, m: Memory, pid: string, q: Queue, lists: bool, at: real)
    returns (condition: Option<ConditionKind>)
    requires q.name in cfg.work
    ensures var e := Observed(cfg, m, SeenQueue(pid, q, lists, at));
            var kind := if condition == Some(AwaitingMarker) then None else condition;
            var known := SliceOf(m, (pid, q.name)).watch.known;
            && Verdict(pid, q.name, condition) in e.verdicts
            && e.found == if known == None || known == Some(kind) then []
                          else if condition == None then [Found(Info, QueueRecovered, q.name)]
                          else [Found(Error, QueueProblem(kind), q.name)]
  {
    condition := Decided(cfg.bound, WatchOf(m, (pid, q.name)), q, lists, at);
    assert Observed(cfg, m, SeenQueue(pid, q, lists, at)).verdicts == [Verdict(pid, q.name, condition)];
  }

  lemma QueueIsTold(cfg: Config, m: Memory, pid: string, p: Pipeline, at: real, i: nat)
    requires PipelineNamesApart(p) && p.available && i < |p.queues| && p.queues[i].name in cfg.work
    ensures var own := Own(cfg, m, PipelineObs(cfg, pid, p, at));
            QueueTold(m, pid, p.queues[i], own.found, own.verdicts)
  {
    var obs, k, q := PipelineObs(cfg, pid, p, at), |p.services| + 1 + |p.queues| + i, p.queues[i];
    PipelineObsCount(cfg, pid, p, at);
    PipelineObsAt(cfg, pid, p, at, k);
    forall j | 0 <= j < |obs| && j != k
      ensures TopicSeen(cfg, obs[j]) != Some(QueueTopic(q.name)) && !obs[j].LostQueues?
      ensures obs[j].SeenQueue? ==> obs[j].queue.name != q.name
    {
      PipelineObsAt(cfg, pid, p, at, j);
    }
    WatchKept(cfg, m, obs[..k], (pid, q.name));
    ConcernedOnce(cfg, m, obs, k, QueueTopic(q.name));
    VerdictStays(cfg, m, obs, k);
    var condition := QueueStep(cfg, Own(cfg, m, obs[..k]).memory, pid, q, Lists(cfg, p.services, q.name), at);
    assert Verdict(pid, q.name, condition) in Own(cfg, m, obs).verdicts;
  }

  lemma OutageIsTold(cfg: Config, m: Memory, pid: string, p: Pipeline, at: real, name: string)
    requires !p.available
    ensures var slice := SliceOf(Own(cfg, m, PipelineObs(cfg, pid, p, at)).memory, (pid, name));
            slice.depth == None && slice.watch == UNWATCHED
  {
    var obs, n, key := PipelineObs(cfg, pid, p, at), |p.services|, (pid, name);
    PipelineObsCount(cfg, pid, p, at);
    PipelineObsAt(cfg, pid, p, at, n);
    PipelineObsAt(cfg, pid, p, at, n + 1);
    assert obs[..n + 1][..n] == obs[..n];
    assert obs[..n + 2] == obs && obs[..n + 2][..n + 1] == obs[..n + 1];
    SliceStep(cfg, Own(cfg, m, obs[..n]).memory, obs[n], key);
    SliceStep(cfg, Own(cfg, m, obs[..n + 1]).memory, obs[n + 1], key);
  }

  lemma PipelineEventsAreItsOwn(cfg: Config, m: Memory, pid: string, p: Pipeline, at: real, f: Found)
    requires f in Own(cfg, m, PipelineObs(cfg, pid, p, at)).found
    ensures InPipeline(cfg, pid, p, TopicOf(f))
  {
    var obs := PipelineObs(cfg, pid, p, at);
    FoundIsSeen(cfg, m, obs, f);
    var j :| 0 <= j < |obs| && TopicSeen(cfg, obs[j]) == Some(TopicOf(f));
    PipelineObsAt(cfg, pid, p, at, j);
  }

  lemma PipelineIsTold(cfg: Config, m: Memory, pid: string, p: Pipeline, at: real)
    requires PipelineNamesApart(p)
    ensures var own := Own(cfg, m, PipelineObs(cfg, pid, p, at));
            PipelineTold(cfg, m, own.memory, pid, p, own.found, own.verdicts)
  {
    var own := Own(cfg, m, PipelineObs(cfg, pid, p, at));
    forall i | 0 <= i < |p.services| ensures ServiceTold(m, own.memory, pid, p.services[i], own.found) {
      ServiceIsTold(cfg, m, pid, p, at, i);
    }
    BrokerIsTold(cfg, m, pid, p, at);
    if p.available {
      QueuesAreTold(cfg, m, pid, p, at);
    } else {
      forall name: string
        ensures SliceOf(own.memory, (pid, name)).depth == None && SliceOf(own.memory, (pid, name)).watch == UNWATCHED
      {
        OutageIsTold(cfg, m, pid, p, at, name);
      }
    }
    forall f | f in own.found ensures InPipeline(cfg, pid, p, TopicOf(f)) {
      PipelineEventsAreItsOwn(cfg, m, pid, p, at, f);
    }
  }

  lemma QueuesAreTold(cfg: Config, m: Memory, pid: string, p: Pipeline, at: real)
    requires PipelineNamesApart(p) && p.available
    ensures var own := Own(cfg, m, PipelineObs(cfg, pid, p, at));
            forall i :: 0 <= i < |p.queues| ==>
              && (p.queues[i].name in cfg.deadLetter ==> DepthTold(m, own.memory, pid, p.queues[i], own.found))
              && (p.queues[i].name in cfg.work ==> QueueTold(m, pid, p.queues[i], own.found, own.verdicts))
  {
    var own := Own(cfg, m, PipelineObs(cfg, pid, p, at));
    forall i | 0 <= i < |p.queues|
      ensures p.queues[i].name in cfg.deadLetter ==> DepthTold(m, own.memory, pid, p.queues[i], own.found)
      ensures p.queues[i].name in cfg.work ==> QueueTold(m, pid, p.queues[i], own.found, own.verdicts)
    {
      if p.queues[i].name in cfg.deadLetter {
        DepthIsTold(cfg, m, pid, p, at, i);
      }
      if p.queues[i].name in cfg.work {
        QueueIsTold(cfg, m, pid, p, at, i);
      }
    }
  }

  // ---------------------------------------------------------------- the platform and the datastores

  lemma PlatformIsTold(cfg: Config, m: Memory, rows: seq<PlatformService>, i: nat)
    requires ProbesApart(rows) && i < |rows| && rows[i].source == Probe
    ensures var own := Own(cfg, m, PlatformObs(rows)); PlatformTold(m, own.memory, rows[i], own.found)
  {
    var name := rows[i].name;
    var obs := PlatformObs(rows);
    assert forall j :: 0 <= j < |obs| ==> obs[j] == SeenPlatform(rows[j]);
    var _ := FlagOnce(cfg, m, obs, i, PlatformFlag(name), ServiceTopic(name));
  }

  lemma AllPlatformIsTold(cfg: Config, m: Memory, rows: seq<PlatformService>)
    requires ProbesApart(rows)
    ensures var own := Own(cfg, m, PlatformObs(rows)); AllPlatformTold(m, own.memory, rows, own.found)
  {
    var obs := PlatformObs(rows);
    var own := Own(cfg, m, obs);
    forall i | 0 <= i < |rows| && rows[i].source == Probe ensures PlatformTold(m, own.memory, rows[i], own.found) {
      PlatformIsTold(cfg, m, rows, i);
    }
    forall name | !Probed(rows, name) ensures Get(own.memory.platform, name) == Get(m.platform, name) {
      FlagKept(cfg, m, obs, PlatformFlag(name));
    }
    forall f | f in own.found ensures TopicOf(f).ServiceTopic? && Probed(rows, TopicOf(f).name) {
      PlatformEventsAreItsOwn(cfg, m, rows, f);
    }
  }

  lemma PlatformEventsAreItsOwn(cfg: Config, m: Memory, rows: seq<PlatformService>, f: Found)
    requires f in Own(cfg, m, PlatformObs(rows)).found
    ensures TopicOf(f).ServiceTopic? && Probed(rows, TopicOf(f).name)
  {
    var obs := PlatformObs(rows);
    FoundIsSeen(cfg, m, obs, f);
    var j :| 0 <= j < |obs| && TopicSeen(cfg, obs[j]) == Some(TopicOf(f));
    assert rows[j].source == Probe && rows[j].name == TopicOf(f).name;
  }

  lemma DatabaseIsTold(cfg: Config, m: Memory, databases: seq<Database>, i: nat)
    requires DatabasesApart(databases) && i < |databases|
    ensures var own := Own(cfg, m, DatabaseObs(databases)); DatabaseTold(m, own.memory, databases[i], own.found)
  {
    var name := databases[i].name;
    var obs := DatabaseObs(databases);
    assert forall j :: 0 <= j < |obs| ==> obs[j] == SeenDatabase(databases[j]);
    var _ := FlagOnce(cfg, m, obs, i, DatastoreFlag(name), DatastoreTopic(name));
  }

  lemma AllDatabasesAreTold(cfg: Config, m: Memory, databases: seq<Database>)
    requires DatabasesApart(databases)
    ensures var own := Own(cfg, m, DatabaseObs(databases)); AllDatabasesTold(m, own.memory, databases, own.found)
  {
    var obs := DatabaseObs(databases);
    var own := Own(cfg, m, obs);
    forall i | 0 <= i < |databases| ensures DatabaseTold(m, own.memory, databases[i], own.found) {
      DatabaseIsTold(cfg, m, databases, i);
    }
    forall name | !Listed(databases, name) ensures Get(own.memory.datastores, name) == Get(m.datastores, name) {
      FlagKept(cfg, m, obs, DatastoreFlag(name));
    }
    forall f | f in own.found ensures TopicOf(f).DatastoreTopic? && Listed(databases, TopicOf(f).name) {
      DatabaseEventsAreItsOwn(cfg, m, databases, f);
    }
  }

  lemma DatabaseEventsAreItsOwn(cfg: Config, m: Memory, databases: seq<Database>, f: Found)
    requires f in Own(cfg, m, DatabaseObs(databases)).found
    ensures TopicOf(f).DatastoreTopic? && Listed(databases, TopicOf(f).name)
  {
    var obs := DatabaseObs(databases);
    FoundIsSeen(cfg, m, obs, f);
    var j :| 0 <= j < |obs| && TopicSeen(cfg, obs[j]) == Some(TopicOf(f));
    assert databases[j].name == TopicOf(f).name;
  }

  // ---------------------------------------------------------------- the whole reading

  /** Observations of other pipelines, or of none, leave a pipeline as it was. */
  lemma {:induction false} OthersAgree(cfg: Config, m: Memory, obs: seq<Obs>, pid: string)
    requires forall j :: 0 <= j < |obs| ==> Of(obs[j]) != Some(pid)
    ensures Agree(Own(cfg, m, obs).memory, m, pid)
  {
    if obs != [] {
      var n := |obs| - 1;
      OthersAgree(cfg, m, obs[..n], pid);
      OtherStep(cfg, Own(cfg, m, obs[..n]).memory, obs[n], pid);
    }
  }

  lemma ToldAgrees(cfg: Config, b: Memory, b': Memory, a: Memory, a': Memory, pid: string, p: Pipeline,
                   found: seq<Found>, verdicts: seq<Verdict>)
    requires Agree(b', b, pid) && Agree(a', a, pid) && PipelineTold(cfg, b, a, pid, p, found, verdicts)
    ensures PipelineTold(cfg, b', a', pid, p, found, verdicts)
  {
    forall i | 0 <= i < |p.services| ensures ServiceTold(b', a', pid, p.services[i], found) {
      SameSlice(b, b', pid, p.services[i].name);
      SameSlice(a, a', pid, p.services[i].name);
    }
    if p.available {
      forall i | 0 <= i < |p.queues|
        ensures p.queues[i].name in cfg.deadLetter ==> DepthTold(b', a', pid, p.queues[i], found)
        ensures p.queues[i].name in cfg.work ==> QueueTold(b', pid, p.queues[i], found, verdicts)
      {
        SameSlice(b, b', pid, p.queues[i].name);
        SameSlice(a, a', pid, p.queues[i].name);
      }
    }
  }

  lemma SameSlice(m: Memory, n: Memory, pid: string, name: string)
    requires Agree(n, m, pid)
    ensures Get(n.services, (pid, name)) == Get(m.services, (pid, name))
    ensures Get(n.dlqDepth, (pid, name)) == Get(m.dlqDepth, (pid, name))
    ensures Get(n.conditions, (pid, name)) == Get(m.conditions, (pid, name))
  {
    assert SliceOf(n, (pid, name)) == SliceOf(m, (pid, name));
  }

  lemma {:induction false} PipelinesAreOf(cfg: Config, ps: seq<(string, Pipeline)>, at: real, pid: string)
    requires forall k :: 0 <= k < |ps| ==> ps[k].0 != pid
    ensures forall j :: 0 <= j < |PipelinesObs(cfg, ps, at)| ==>
              Of(PipelinesObs(cfg, ps, at)[j]) !in {None, Some(pid)}
  {
    if ps != [] {
      var n := |ps| - 1;
      PipelinesAreOf(cfg, ps[..n], at, pid);
      PipelineObsOf(cfg, ps[n].0, ps[n].1, at);
    }
  }

  lemma OwnConcat(cfg: Config, m: Memory, a: seq<Obs>, b: seq<Obs>)
    ensures var first := Own(cfg, m, a);
            var second := Own(cfg, first.memory, b);
            Own(cfg, m, a + b) == Log(second.memory, first.found + second.found, first.verdicts + second.verdicts)
  {
    RunConcat(cfg, Log(m, [], []), a, b);
    RunShift(cfg, Own(cfg, m, a), b);
  }

  lemma JoinedSnoc<T>(parts: seq<seq<T>>, last: seq<T>)
    ensures Joined(parts + [last]) == Joined(parts) + last
  {
    assert (parts + [last])[..|parts|] == parts;
  }

  /** One more pipeline, of another name, after those told so far. */
  lemma OneMorePipeline(cfg: Config, m: Memory, between: Memory, after: Memory, ps: seq<(string, Pipeline)>,
                        parts: seq<seq<Found>>, verdicts: seq<seq<Verdict>>, own: seq<Found>, ownVerdicts: seq<Verdict>)
    requires ps != [] && PipelinesTold(cfg, m, between, ps[..|ps| - 1], parts, verdicts)
    requires forall k :: 0 <= k < |ps| - 1 ==> Agree(after, between, ps[k].0)
    requires var (pid, p) := ps[|ps| - 1];
             Agree(m, between, pid) && PipelineTold(cfg, between, after, pid, p, own, ownVerdicts)
    ensures PipelinesTold(cfg, m, after, ps, parts + [own], verdicts + [ownVerdicts])
  {
    var n := |ps| - 1;
    forall k | 0 <= k < |ps|
      ensures PipelineTold(cfg, m, after, ps[k].0, ps[k].1, (parts + [own])[k], (verdicts + [ownVerdicts])[k])
    {
      if k < n {
        assert ps[..n][k] == ps[k];
        ToldAgrees(cfg, m, m, between, after, ps[k].0, ps[k].1, parts[k], verdicts[k]);
      } else {
        ToldAgrees(cfg, between, m, after, after, ps[n].0, ps[n].1, own, ownVerdicts);
      }
    }
  }

  lemma {:induction false} PipelinesAreTold(cfg: Config, m: Memory, ps: seq<(string, Pipeline)>, at: real)
    returns (parts: seq<seq<Found>>, verdicts: seq<seq<Verdict>>)
    requires PipelinesApart(ps)
    ensures var own := Own(cfg, m, PipelinesObs(cfg, ps, at));
            && own.found == Joined(parts) && own.verdicts == Joined(verdicts)
            && PipelinesTold(cfg, m, own.memory, ps, parts, verdicts)
  {
    parts, verdicts := [], [];
    if ps != [] {
      var n := |ps| - 1;
      parts, verdicts := PipelinesAreTold(cfg, m, ps[..n], at);
      var own := Own(cfg, Own(cfg, m, PipelinesObs(cfg, ps[..n], at)).memory, PipelineObs(cfg, ps[n].0, ps[n].1, at));
      NextPipelineIsTold(cfg, m, ps, at, parts, verdicts);
      parts, verdicts := parts + [own.found], verdicts + [own.verdicts];
    }
  }

  /** The pipeline after those told so far, which its own observations leave as they were. */
  lemma NextPipelineIsTold(cfg: Config, m: Memory, ps: seq<(string, Pipeline)>, at: real, parts: seq<seq<Found>>,
                           verdicts: seq<seq<Verdict>>)
    requires ps != [] && PipelinesApart(ps)
    requires var own := Own(cfg, m, PipelinesObs(cfg, ps[..|ps| - 1], at));
             && own.found == Joined(parts) && own.verdicts == Joined(verdicts)
             && PipelinesTold(cfg, m, own.memory, ps[..|ps| - 1], parts, verdicts)
    ensures var (pid, p) := ps[|ps| - 1];
            var between := Own(cfg, m, PipelinesObs(cfg, ps[..|ps| - 1], at)).memory;
            var own := Own(cfg, between, PipelineObs(cfg, pid, p, at));
            var all := Own(cfg, m, PipelinesObs(cfg, ps, at));
            && all.found == Joined(parts + [own.found]) && all.verdicts == Joined(verdicts + [own.verdicts])
            && PipelinesTold(cfg, m, all.memory, ps, parts + [own.found], verdicts + [own.verdicts])
  {
    var n := |ps| - 1;
    var init, obs := PipelinesObs(cfg, ps[..n], at), PipelineObs(cfg, ps[n].0, ps[n].1, at);
    var between := Own(cfg, m, init).memory;
    var own := Own(cfg, between, obs);
    OwnConcat(cfg, m, init, obs);
    JoinedSnoc(parts, own.found);
    JoinedSnoc(verdicts, own.verdicts);
    NextAgrees(cfg, m, ps, at);
    OneMorePipeline(cfg, m, between, own.memory, ps, parts, verdicts, own.found, own.verdicts);
  }

  lemma NextAgrees(cfg: Config, m: Memory, ps: seq<(string, Pipeline)>, at: real)
    requires ps != [] && PipelinesApart(ps)
    ensures var (pid, p) := ps[|ps| - 1];
            var between := Own(cfg, m, PipelinesObs(cfg, ps[..|ps| - 1], at)).memory;
            var own := Own(cfg, between, PipelineObs(cfg, pid, p, at));
            && Agree(m, between, pid) && PipelineTold(cfg, between, own.memory, pid, p, own.found, own.verdicts)
            && forall k :: 0 <= k < |ps| - 1 ==> Agree(own.memory, between, ps[k].0)
  {
    var n := |ps| - 1;
    var (pid, p) := ps[n];
    var between := Own(cfg, m, PipelinesObs(cfg, ps[..n], at)).memory;
    PipelineIsTold(cfg, between, pid, p, at);
    PipelinesAreOf(cfg, ps[..n], at, pid);
    OthersAgree(cfg, m, PipelinesObs(cfg, ps[..n], at), pid);
    PipelineObsOf(cfg, pid, p, at);
    forall k | 0 <= k < n ensures Agree(Own(cfg, between, PipelineObs(cfg, pid, p, at)).memory, between, ps[k].0) {
      OthersAgree(cfg, between, PipelineObs(cfg, pid, p, at), ps[k].0);
    }
  }

  lemma PlatformAgrees(b: Memory, b': Memory, a: Memory, a': Memory, rows: seq<PlatformService>, found: seq<Found>)
    requires AllPlatformTold(b, a, rows, found)
    requires forall name :: ValueOf(b', PlatformFlag(name)) == ValueOf(b, PlatformFlag(name))
    requires forall name :: ValueOf(a', PlatformFlag(name)) == ValueOf(a, PlatformFlag(name))
    ensures AllPlatformTold(b', a', rows, found)
  {
    forall name
      ensures Get(b'.platform, name) == Get(b.platform, name) && Get(a'.platform, name) == Get(a.platform, name)
    {
      assert ValueOf(b', PlatformFlag(name)) == ValueOf(b, PlatformFlag(name));
      assert ValueOf(a', PlatformFlag(name)) == ValueOf(a, PlatformFlag(name));
    }
    forall i | 0 <= i < |rows| && rows[i].source == Probe ensures PlatformTold(b', a', rows[i], found) {
      assert PlatformTold(b, a, rows[i], found);
    }
  }

  lemma DatabasesAgree(b: Memory, b': Memory, a: Memory, databases: seq<Database>, found: seq<Found>)
    requires AllDatabasesTold(b, a, databases, found)
    requires forall name :: ValueOf(b', DatastoreFlag(name)) == ValueOf(b, DatastoreFlag(name))
    ensures AllDatabasesTold(b', a, databases, found)
  {
    forall name ensures Get(b'.datastores, name) == Get(b.datastores, name) {
      assert ValueOf(b', DatastoreFlag(name)) == ValueOf(b, DatastoreFlag(name));
    }
    forall i | 0 <= i < |databases| ensures DatabaseTold(b', a, databases[i], found) {
      assert DatabaseTold(b, a, databases[i], found);
    }
  }

  lemma PipelinesAgree(cfg: Config, b: Memory, a: Memory, a': Memory, ps: seq<(string, Pipeline)>,
                       parts: seq<seq<Found>>, verdicts: seq<seq<Verdict>>)
    requires PipelinesTold(cfg, b, a, ps, parts, verdicts) && forall k :: 0 <= k < |ps| ==> Agree(a', a, ps[k].0)
    ensures PipelinesTold(cfg, b, a', ps, parts, verdicts)
  {
    forall k | 0 <= k < |ps| ensures PipelineTold(cfg, b, a', ps[k].0, ps[k].1, parts[k], verdicts[k]) {
      ToldAgrees(cfg, b, b, a, a', ps[k].0, ps[k].1, parts[k], verdicts[k]);
    }
  }

  /** What the pipelines of a reading make of the memory, then its platform rows, then its datastores. */
  function First(cfg: Config, m: Memory, r: Reading): Log {
    Own(cfg, m, PipelinesObs(cfg, r.pipelines, r.at))
  }

  function Second(cfg: Config, m: Memory, r: Reading): Log {
    Own(cfg, First(cfg, m, r).memory, PlatformObs(r.platform))
  }

  function Third(cfg: Config, m: Memory, r: Reading): Log {
    Own(cfg, Second(cfg, m, r).memory, DatabaseObs(r.databases))
  }

  lemma OwnIsThree(cfg: Config, m: Memory, r: Reading)
    ensures var own := Own(cfg, m, Observations(cfg, r));
            && own.memory == Third(cfg, m, r).memory
            && own.found == First(cfg, m, r).found + Second(cfg, m, r).found + Third(cfg, m, r).found
            && own.verdicts == First(cfg, m, r).verdicts
  {
    var a, b, c := PipelinesObs(cfg, r.pipelines, r.at), PlatformObs(r.platform), DatabaseObs(r.databases);
    OwnConcat(cfg, m, a, b);
    OwnConcat(cfg, m, a + b, c);
    RowsDecideNothing(cfg, First(cfg, m, r).memory, b);
    RowsDecideNothing(cfg, Second(cfg, m, r).memory, c);
  }

  lemma PlatformPart(cfg: Config, m: Memory, r: Reading)
    requires ProbesApart(r.platform)
    ensures AllPlatformTold(m, Third(cfg, m, r).memory, r.platform, Second(cfg, m, r).found)
  {
    var first, second := First(cfg, m, r), Second(cfg, m, r);
    AllPlatformIsTold(cfg, first.memory, r.platform);
    PipelinesAreSome(cfg, r.pipelines, r.at);
    forall name ensures ValueOf(m, PlatformFlag(name)) == ValueOf(first.memory, PlatformFlag(name)) {
      FlagKept(cfg, m, PipelinesObs(cfg, r.pipelines, r.at), PlatformFlag(name));
    }
    var third := Third(cfg, m, r);
    forall name ensures ValueOf(third.memory, PlatformFlag(name)) == ValueOf(second.memory, PlatformFlag(name)) {
      FlagKept(cfg, second.memory, DatabaseObs(r.databases), PlatformFlag(name));
    }
    PlatformAgrees(first.memory, m, second.memory, third.memory, r.platform, second.found);
  }

  lemma DatastoreKept(cfg: Config, m: Memory, r: Reading, name: string)
    ensures ValueOf(Second(cfg, m, r).memory, DatastoreFlag(name)) == ValueOf(m, DatastoreFlag(name))
  {
    PipelinesAreSome(cfg, r.pipelines, r.at);
    FlagKept(cfg, m, PipelinesObs(cfg, r.pipelines, r.at), DatastoreFlag(name));
    FlagKept(cfg, First(cfg, m, r).memory, PlatformObs(r.platform), DatastoreFlag(name));
  }

  lemma DatabasesPart(cfg: Config, m: Memory, r: Reading)
    requires DatabasesApart(r.databases)
    ensures AllDatabasesTold(m, Third(cfg, m, r).memory, r.databases, Third(cfg, m, r).found)
  {
    var second := Second(cfg, m, r);
    AllDatabasesAreTold(cfg, second.memory, r.databases);
    forall name ensures ValueOf(m, DatastoreFlag(name)) == ValueOf(second.memory, DatastoreFlag(name)) {
      DatastoreKept(cfg, m, r, name);
    }
    DatabasesAgree(second.memory, m, Third(cfg, m, r).memory, r.databases, Third(cfg, m, r).found);
  }

  /** A reading's observations, taken together, tell what the reading shows and nothing else. */
  lemma ReadingIsTold(cfg: Config, m: Memory, r: Reading)
    requires NamesApart(r)
    ensures var own := Own(cfg, m, Observations(cfg, r)); ReadingTold(cfg, m, own.memory, r, own.found, own.verdicts)
  {
    var pipelines, verdicts := PipelinesAreTold(cfg, m, r.pipelines, r.at);
    OwnIsThree(cfg, m, r);
    PlatformPart(cfg, m, r);
    DatabasesPart(cfg, m, r);
    RestKeepsPipelines(cfg, First(cfg, m, r).memory, r);
    PipelinesAgree(cfg, m, First(cfg, m, r).memory, Third(cfg, m, r).memory, r.pipelines, pipelines, verdicts);
    var parts := Parts(pipelines, verdicts, Second(cfg, m, r).found, Third(cfg, m, r).found);
    assert ToldBy(cfg, m, Third(cfg, m, r).memory, r, parts);
  }

  lemma {:induction false} PipelinesAreSome(cfg: Config, ps: seq<(string, Pipeline)>, at: real)
    ensures forall j :: 0 <= j < |PipelinesObs(cfg, ps, at)| ==> Of(PipelinesObs(cfg, ps, at)[j]) != None
  {
    if ps != [] {
      var n := |ps| - 1;
      PipelinesAreSome(cfg, ps[..n], at);
      PipelineObsOf(cfg, ps[n].0, ps[n].1, at);
    }
  }

  lemma RestKeepsPipelines(cfg: Config, m: Memory, r: Reading)
    ensures var between := Own(cfg, m, PlatformObs(r.platform)).memory;
            forall pid :: Agree(Own(cfg, between, DatabaseObs(r.databases)).memory, m, pid)
  {
    var between := Own(cfg, m, PlatformObs(r.platform)).memory;
    forall pid ensures Agree(Own(cfg, between, DatabaseObs(r.databases)).memory, m, pid) {
      OthersAgree(cfg, m, PlatformObs(r.platform), pid);
      OthersAgree(cfg, between, DatabaseObs(r.databases), pid);
    }
  }

  lemma {:induction false} RowsDecideNothing(cfg: Config, m: Memory, obs: seq<Obs>)
    requires forall j :: 0 <= j < |obs| ==> obs[j].SeenPlatform? || obs[j].SeenDatabase?
    ensures Own(cfg, m, obs).verdicts == []
  {
    if obs != [] {
      RowsDecideNothing(cfg, m, obs[..|obs| - 1]);
    }
  }

  // ---------------------------------------------------------------- the owner's list

  /** A queue counts as listed exactly when the service that owns it, the first of that name in the pipeline,
  says which types it waits for and the queue's is one of them. */
  lemma ListsMeans(cfg: Config, services: seq<Service>, queue: string)
    ensures Lists(cfg, services, queue) <==>
            && queue in cfg.owners
            && exists i :: 0 <= i < |services| && IsFirst(services, i, cfg.owners[queue].0)
                           && services[i].awaiting.Some? && cfg.owners[queue].1 in services[i].awaiting.value
  {
    if queue in cfg.owners {
      FirstIs(services, cfg.owners[queue].0);
    }
  }

  ghost predicate IsFirst(services: seq<Service>, i: nat, name: string) {
    i < |services| && services[i].name == name && forall j :: 0 <= j < i ==> services[j].name != name
  }

  lemma {:induction false} FirstIs(services: seq<Service>, name: string)
    ensures forall i: nat :: IsFirst(services, i, name) ==> FirstNamed(services, name) == Some(services[i])
    ensures FirstNamed(services, name).Some? ==> exists i: nat :: IsFirst(services, i, name)
  {
    if services != [] {
      FirstIs(services[1..], name);
      forall i: nat | IsFirst(services, i, name) && i > 0 ensures IsFirst(services[1..], i - 1, name) {
      }
      if services[0].name == name {
        assert IsFirst(services, 0, name);
      } else if FirstNamed(services, name).Some? {
        var i: nat :| IsFirst(services[1..], i, name);
        forall j | 0 <= j < i + 1 ensures services[j].name != name {
          if j > 0 {
            assert services[1..][j - 1].name != name;
          }
        }
        assert IsFirst(services, i + 1, name);
      }
    }
  }
}
