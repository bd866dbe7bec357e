/** Event delivery: the collection loop broadcasts each new event to the sockets registered at that
moment; a socket registers first and gets the detector's ring as its backlog later; the browser drops
an event whose id it already covers. A state machine over the steps between awaits, with the property
that no interleaving of them loses, repeats or reorders an event. */
module Delivery {
  import opened Events
  import EventDetectors

  /** Detector ids of a frame: the whole ring, or one live event. */
  datatype Frame = Backlog(ids: seq<nat>) | Live(id: nat)

  // ---------------------------------------------------------------- the browser

  /** The server events shown, oldest first, and `lastServerEventId`. */
  datatype Client = Client(shown: seq<nat>, last: nat)

  /** The greatest of the ids, zero for none. */
  function MaxId(ids: seq<nat>): (max: nat)
    ensures forall i :: 0 <= i < |ids| ==> ids[i] <= max
    ensures max == 0 || max in ids
  {
    if ids == [] then 0
    else
      var before := MaxId(ids[..|ids| - 1]);
      if ids[|ids| - 1] > before then ids[|ids| - 1] else before
  }

  function Applied(c: Client, f: Frame): Client {
    match f
    case Backlog(ids) => Client(ids, MaxId(ids))
    case Live(id) => if id <= c.last then c else Client(c.shown + [id], id)
  }

  /** The server's entries in the browser's event log, before it trims the oldest. */
  class EventLog {
    var shown: seq<nat>
    var lastServerEventId: nat

    function View(): Client
      reads this
    {
      Client(shown, lastServerEventId)
    }

    method ApplyEventBacklog(ids: seq<nat>)
      modifies this
      ensures View() == Applied(old(View()), Backlog(ids))
    {
      var max := 0;
      for i := 0 to |ids|
        invariant max == MaxId(ids[..i])
      {
        assert ids[..i + 1][..i] == ids[..i];
        max := if ids[i] > max then ids[i] else max;
      }
      assert ids[..|ids|] == ids;
      lastServerEventId := max;
      shown := ids;
    }

    method ApplyServerEvent(id: nat)
      modifies this
      ensures View() == Applied(old(View()), Live(id))
    {
      if id <= lastServerEventId {
        return;
      }
      lastServerEventId := id;
      shown := shown + [id];
    }
  }

  /** The first id the ring holds after `top` events. */
  function FirstKept(top: nat): nat {
    if top < 200 then 1 else top - 200 + 1
  }

  /** The client shows every id from the first one the ring held at `since`, when its backlog was made, up to
  `last`: each once, in order. */
  ghost predicate Complete(c: Client, since: nat) {
    && since <= c.last && |c.shown| == c.last + 1 - FirstKept(since)
    && forall i :: 0 <= i < |c.shown| ==> c.shown[i] == FirstKept(since) + i
  }

  /** What the client will have shown once `channel` is delivered, in order. */
  function Settled(c: Client, channel: seq<Frame>): Client
    decreases channel
  {
    if channel == [] then c else Settled(Applied(c, channel[0]), channel[1..])
  }

  /** Whether a backlog has been, or is about to be, delivered. */
  predicate Covered(caughtUp: bool, channel: seq<Frame>) {
    caughtUp || exists i :: 0 <= i < |channel| && channel[i].Backlog?
  }

  /** From the backlog on, every delivery leaves the client complete. */
  ghost predicate Orderly(c: Client, caughtUp: bool, channel: seq<Frame>, since: nat)
    decreases channel
  {
    && (caughtUp ==> Complete(c, since))
    && (channel != [] ==> Orderly(Applied(c, channel[0]), caughtUp || channel[0].Backlog?, channel[1..], since))
  }

  lemma {:induction false} SettledSnoc(c: Client, channel: seq<Frame>, f: Frame)
    ensures Settled(c, channel + [f]) == Applied(Settled(c, channel), f)
    decreases channel
  {
    if channel != [] {
      SettledSnoc(Applied(c, channel[0]), channel[1..], f);
      assert (channel + [f])[1..] == channel[1..] + [f];
    }
  }

  lemma {:induction false} OrderlySnoc(c: Client, caughtUp: bool, channel: seq<Frame>, since: nat, f: Frame)
    requires Orderly(c, caughtUp, channel, since)
    requires Covered(caughtUp, channel + [f]) ==> Complete(Applied(Settled(c, channel), f), since)
    ensures Orderly(c, caughtUp, channel + [f], since)
    decreases channel
  {
    if channel == [] {
      assert ([] + [f])[1..] == [];
      assert caughtUp || f.Backlog? ==> Covered(caughtUp, [] + [f]) by {
        assert ([] + [f])[0] == f;
      }
    } else {
      var caughtUp' := caughtUp || channel[0].Backlog?;
      assert (channel + [f])[1..] == channel[1..] + [f];
      if Covered(caughtUp', channel[1..] + [f]) {
        CoveredTail(caughtUp, channel + [f]);
      }
      OrderlySnoc(Applied(c, channel[0]), caughtUp', channel[1..], since, f);
    }
  }

  /** Until a backlog is on its way, nothing is said of what the client shows. */
  lemma {:induction false} OrderlyUncovered(c: Client, caughtUp: bool, channel: seq<Frame>, since: nat)
    requires !Covered(caughtUp, channel)
    ensures Orderly(c, caughtUp, channel, since)
    decreases channel
  {
    if channel != [] {
      CoveredTail(caughtUp, channel);
      OrderlyUncovered(Applied(c, channel[0]), caughtUp || channel[0].Backlog?, channel[1..], since);
    }
  }

  lemma CoveredTail(caughtUp: bool, channel: seq<Frame>)
    requires channel != []
    ensures Covered(caughtUp, channel) <==> Covered(caughtUp || channel[0].Backlog?, channel[1..])
  {
    if i :| 0 <= i < |channel| && channel[i].Backlog? && i > 0 {
      assert channel[1..][i - 1].Backlog?;
    }
    if i :| 0 <= i < |channel| - 1 && channel[1..][i].Backlog? {
      assert channel[i + 1].Backlog?;
    }
  }

  lemma {:induction false} OrderlyEnd(c: Client, caughtUp: bool, channel: seq<Frame>, since: nat)
    requires Orderly(c, caughtUp, channel, since) && Covered(caughtUp, channel)
    ensures Complete(Settled(c, channel), since)
    decreases channel
  {
    if channel != [] {
      CoveredTail(caughtUp, channel);
      OrderlyEnd(Applied(c, channel[0]), caughtUp || channel[0].Backlog?, channel[1..], since);
    }
  }

  // ---------------------------------------------------------------- the server

  /** The ids the ring holds after `top` events. */
  function Retained(top: nat): seq<nat> {
    var kept := if top < EVENT_RING_SIZE then top else EVENT_RING_SIZE;
    seq(kept, i requires 0 <= i < kept => top - kept + 1 + i)
  }

  lemma RetainedIsComplete(top: nat)
    ensures var c := Client(Retained(top), MaxId(Retained(top)));
            Complete(c, top) && c.last == top
  {
    var ids := Retained(top);
    if top > 0 {
      assert ids[|ids| - 1] == top;
    }
  }

  function IdsOf(events: seq<Event>): seq<nat> {
    seq(|events|, i requires 0 <= i < |events| => events[i].id)
  }

  /** The backlog a socket is sent: the detector's ring, whose ids are `Retained`. */
  method BacklogFrame(d: EventDetectors.EventDetector) returns (f: Frame)
    requires d.Valid() && d.capacity == EVENT_RING_SIZE
    ensures f == Backlog(Retained(|d.history|))
  {
    var events := d.Backlog();
    assert IdsOf(events) == Retained(|d.history|);
    f := Backlog(IdsOf(events));
  }

  /** The ids of one reading's events: the next after all those before it, as `Observe` below counts them. */
  method ObservedIds(d: EventDetectors.EventDetector, r: Reading) returns (ids: seq<nat>)
    requires d.Valid()
    modifies d
    ensures d.Valid() && |d.history| == old(|d.history|) + |ids|
    ensures forall i :: 0 <= i < |ids| ==> ids[i] == old(|d.history|) + 1 + i
  {
    ghost var before := d.history;
    var events, _ := d.Observe(r);
    assert forall i :: 0 <= i < |events| ==> d.history[|before| + i] == events[i];
    ids := IdsOf(events);
  }

  /** `since` is how many events had been recorded when the socket's backlog was made. */
  datatype Socket =
    Socket(joined: bool, backlogSent: bool, since: nat, channel: seq<Frame>, caughtUp: bool, client: Client)

  /** Where the collection loop stands. */
  datatype Phase =
    | Resting
    | Observed(next: nat)
    | Between(next: nat)
    | Sending(id: nat, todo: set<nat>, failed: set<nat>)

  /** `top` counts the events the detector has recorded: their ids are 1 to `top`. */
  datatype State = State(top: nat, phase: Phase, sockets: map<nat, Socket>, serial: nat)

  const START := State(0, Resting, map[], 0)

  datatype Outcome = Delivered | FailedUnsent | FailedAfterWrite

  datatype Action =
    | Observe(n: nat)                        // one reading, `n` events found
    | BeginEvents                            // broadcast_events is reached
    | Snapshot                               // broadcast takes its targets
    | Send(socket: nat, outcome: Outcome)    // one target's send ends
    | Finish                                 // every send has ended
    | Join(client: Client)                   // a socket registers, its browser showing anything at all
    | SendBacklog(socket: nat)
    | Deliver(socket: nat)
    | Leave(socket: nat)                     // discarded from the set; what it was sent may still arrive
    | Vanish(socket: nat)                    // gone, with whatever was in flight
    | Restart                                // the console process starts again

  function Joined(s: State): set<nat> {
    set k | k in s.sockets && s.sockets[k].joined
  }

  function After(s: State, id: nat): Phase {
    if id < s.top then Between(id + 1) else Resting
  }

  function Enqueued(k: Socket, f: Frame): Socket {
    k.(channel := k.channel + [f])
  }

  /** One step; an action that is not possible changes nothing. */
  function Step(s: State, a: Action): State {
    match a
    case Observe(n) => if s.phase.Resting? then s.(top := s.top + n, phase := Observed(s.top + 1)) else s
    case BeginEvents =>
      if !s.phase.Observed? then s
      else s.(phase := if s.phase.next > s.top || Joined(s) == {} then Resting else Between(s.phase.next))
    case Snapshot => if s.phase.Between? then s.(phase := Sending(s.phase.next, Joined(s), {})) else s
    case Send(k, outcome) =>
      if !(s.phase.Sending? && k in s.phase.todo) then s
      else
        var failed := if outcome.Delivered? then s.phase.failed else s.phase.failed + {k};
        var phase := Sending(s.phase.id, s.phase.todo - {k}, failed);
        if k !in s.sockets || outcome.FailedUnsent? then s.(phase := phase)
        else s.(phase := phase, sockets := s.sockets[k := Enqueued(s.sockets[k], Live(s.phase.id))])
    case Finish =>
      if !(s.phase.Sending? && s.phase.todo == {}) then s
      else
        s.(phase := After(s, s.phase.id),
           sockets := map k | k in s.sockets ::
             if k in s.phase.failed then s.sockets[k].(joined := false) else s.sockets[k])
    case Join(client) =>
      s.(serial := s.serial + 1, sockets := s.sockets[s.serial := Socket(true, false, 0, [], false, client)])
    case SendBacklog(k) =>
      if k !in s.sockets || s.sockets[k].backlogSent then s
      else
        var sent := Enqueued(s.sockets[k], Backlog(Retained(s.top)));
        s.(sockets := s.sockets[k := sent.(backlogSent := true, since := s.top)])
    case Deliver(k) =>
      if k !in s.sockets || s.sockets[k].channel == [] then s
      else s.(sockets := s.sockets[k := Received(s.sockets[k])])
    case Leave(k) => if k in s.sockets then s.(sockets := s.sockets[k := s.sockets[k].(joined := false)]) else s
    case Vanish(k) => s.(sockets := s.sockets - {k})
    case Restart => START
  }

  function Received(k: Socket): Socket
    requires k.channel != []
  {
    k.(channel := k.channel[1..], caughtUp := k.caughtUp || k.channel[0].Backlog?,
       client := Applied(k.client, k.channel[0]))
  }

  function Run(s: State, actions: seq<Action>): State
    decreases actions
  {
    if actions == [] then s else Run(Step(s, actions[0]), actions[1..])
  }

  // ---------------------------------------------------------------- what every step keeps

  /** The first id the loop may still send the socket. */
  function Owed(s: State, k: nat): nat {
    match s.phase
    case Resting => s.top + 1
    case Observed(next) => next
    case Between(next) => next
    case Sending(id, todo, _) => if k in todo then id else id + 1
  }

  /** The loop may still send the socket something. */
  predicate Served(s: State, k: nat, socket: Socket) {
    (socket.joined || (s.phase.Sending? && k in s.phase.todo)) && !(s.phase.Sending? && k in s.phase.failed)
  }

  function Newest(f: Frame): nat {
    match f
    case Backlog(ids) => MaxId(ids)
    case Live(id) => id
  }

  ghost predicate SocketOk(s: State, k: nat, socket: Socket) {
    && Orderly(socket.client, socket.caughtUp, socket.channel, socket.since)
    && socket.backlogSent == Covered(socket.caughtUp, socket.channel)
    && (socket.caughtUp ==> socket.client.last <= s.top)
    && (forall i :: 0 <= i < |socket.channel| ==> Newest(socket.channel[i]) <= s.top)
    && (socket.backlogSent ==>
         && Settled(socket.client, socket.channel).last <= s.top
         && (Served(s, k, socket) ==> Settled(socket.client, socket.channel).last + 1 >= Owed(s, k)))
  }

  ghost predicate PhaseOk(s: State) {
    match s.phase
    case Resting => true
    case Observed(next) => next <= s.top + 1
    case Between(next) => next <= s.top
    case Sending(id, todo, failed) =>
      id <= s.top && todo !! failed && forall k :: k in todo || k in failed ==> k < s.serial
  }

  ghost predicate Inv(s: State) {
    && PhaseOk(s)
    && (forall k :: k in s.sockets ==> k < s.serial)
    && (forall k :: k in s.sockets ==> SocketOk(s, k, s.sockets[k]))
  }

  /** Appending a live event the socket is due keeps it in order. */
  lemma LiveKeepsOrder(s: State, k: nat, socket: Socket, id: nat)
    requires Orderly(socket.client, socket.caughtUp, socket.channel, socket.since)
    requires socket.backlogSent == Covered(socket.caughtUp, socket.channel)
    requires socket.backlogSent ==> id <= Settled(socket.client, socket.channel).last + 1
    ensures var sent := Enqueued(socket, Live(id));
            && Orderly(sent.client, sent.caughtUp, sent.channel, sent.since)
            && sent.backlogSent == Covered(sent.caughtUp, sent.channel)
            && Settled(sent.client, sent.channel) == Applied(Settled(socket.client, socket.channel), Live(id))
  {
    var sent := Enqueued(socket, Live(id));
    SettledSnoc(socket.client, socket.channel, Live(id));
    assert Covered(sent.caughtUp, sent.channel) <==> Covered(socket.caughtUp, socket.channel) by {
      assert forall i :: 0 <= i < |socket.channel| ==> sent.channel[i] == socket.channel[i];
    }
    if socket.backlogSent {
      OrderlyEnd(socket.client, socket.caughtUp, socket.channel, socket.since);
    }
    OrderlySnoc(socket.client, socket.caughtUp, socket.channel, socket.since, Live(id));
  }

  lemma SendKeepsOthers(s: State, k: nat, outcome: Outcome, j: nat)
    requires Inv(s) && s.phase.Sending? && k in s.phase.todo && j in s.sockets && j != k
    ensures SocketOk(Step(s, Send(k, outcome)), j, s.sockets[j])
  {
    assert SocketOk(s, j, s.sockets[j]);
  }

  lemma SendKeepsOwn(s: State, k: nat, outcome: Outcome)
    requires Inv(s) && s.phase.Sending? && k in s.phase.todo && k in s.sockets
    ensures var s' := Step(s, Send(k, outcome)); SocketOk(s', k, s'.sockets[k])
  {
    assert SocketOk(s, k, s.sockets[k]);
    if !outcome.FailedUnsent? {
      LiveKeepsOrder(s, k, s.sockets[k], s.phase.id);
    }
  }

  lemma SendKeeps(s: State, k: nat, outcome: Outcome)
    requires Inv(s)
    ensures Inv(Step(s, Send(k, outcome)))
  {
    if s.phase.Sending? && k in s.phase.todo {
      var s' := Step(s, Send(k, outcome));
      forall j | j in s'.sockets ensures SocketOk(s', j, s'.sockets[j]) {
        if j == k {
          SendKeepsOwn(s, k, outcome);
        } else {
          SendKeepsOthers(s, k, outcome, j);
        }
      }
    }
  }

  lemma BacklogKeepsOrder(socket: Socket, top: nat)
    requires !Covered(socket.caughtUp, socket.channel)
    ensures var sent := Enqueued(socket, Backlog(Retained(top)));
            && Orderly(sent.client, sent.caughtUp, sent.channel, top) && Covered(sent.caughtUp, sent.channel)
            && Settled(sent.client, sent.channel).last == top
  {
    var f := Backlog(Retained(top));
    RetainedIsComplete(top);
    SettledSnoc(socket.client, socket.channel, f);
    OrderlyUncovered(socket.client, socket.caughtUp, socket.channel, top);
    OrderlySnoc(socket.client, socket.caughtUp, socket.channel, top, f);
    assert (socket.channel + [f])[|socket.channel|] == f;
  }

  lemma BacklogKeepsOwn(s: State, k: nat)
    requires Inv(s) && k in s.sockets && !s.sockets[k].backlogSent
    ensures var s' := Step(s, SendBacklog(k)); SocketOk(s', k, s'.sockets[k])
  {
    var socket := s.sockets[k];
    assert SocketOk(s, k, socket);
    BacklogKeepsOrder(socket, s.top);
    NewestSnoc(socket.channel, Backlog(Retained(s.top)), s.top);
  }

  lemma NewestSnoc(channel: seq<Frame>, f: Frame, top: nat)
    requires (forall i :: 0 <= i < |channel| ==> Newest(channel[i]) <= top) && f == Backlog(Retained(top))
    ensures forall i :: 0 <= i < |channel + [f]| ==> Newest((channel + [f])[i]) <= top
  {
    RetainedIsComplete(top);
  }

  lemma BacklogKeeps(s: State, k: nat)
    requires Inv(s)
    ensures Inv(Step(s, SendBacklog(k)))
  {
    if k in s.sockets && !s.sockets[k].backlogSent {
      var s' := Step(s, SendBacklog(k));
      BacklogKeepsOwn(s, k);
      forall j | j in s'.sockets && j != k ensures SocketOk(s', j, s'.sockets[j]) {
        assert SocketOk(s, j, s.sockets[j]);
      }
    }
  }

  lemma DeliverKeeps(s: State, k: nat)
    requires Inv(s)
    ensures Inv(Step(s, Deliver(k)))
  {
    if k in s.sockets && s.sockets[k].channel != [] {
      var s' := Step(s, Deliver(k));
      CoveredTail(s.sockets[k].caughtUp, s.sockets[k].channel);
      forall j | j in s'.sockets ensures SocketOk(s', j, s'.sockets[j]) {
        assert SocketOk(s, j, s.sockets[j]);
      }
    }
  }

  lemma LoopKeeps(s: State, a: Action)
    requires Inv(s) && (a.Observe? || a.BeginEvents? || a.Snapshot? || a.Finish?)
    ensures Inv(Step(s, a))
  {
    var s' := Step(s, a);
    forall j | j in s'.sockets ensures SocketOk(s', j, s'.sockets[j]) {
      assert SocketOk(s, j, s.sockets[j]);
      assert s.sockets[j].joined ==> j in Joined(s);
    }
  }

  lemma MembershipKeepsSocket(s: State, a: Action, j: nat)
    requires Inv(s) && (a.Join? || a.Leave? || a.Vanish? || a.Restart?) && j in Step(s, a).sockets
    ensures SocketOk(Step(s, a), j, Step(s, a).sockets[j])
  {
    if j in s.sockets {
      assert SocketOk(s, j, s.sockets[j]);
    }
  }

  lemma MembershipKeeps(s: State, a: Action)
    requires Inv(s) && (a.Join? || a.Leave? || a.Vanish? || a.Restart?)
    ensures Inv(Step(s, a))
  {
    var s' := Step(s, a);
    forall j | j in s'.sockets ensures SocketOk(s', j, s'.sockets[j]) {
      MembershipKeepsSocket(s, a, j);
    }
  }

  lemma StepKeeps(s: State, a: Action)
    requires Inv(s)
    ensures Inv(Step(s, a))
  {
    match a
    case Send(k, outcome) => SendKeeps(s, k, outcome);
    case SendBacklog(k) => BacklogKeeps(s, k);
    case Deliver(k) => DeliverKeeps(s, k);
    case Join(_) => MembershipKeeps(s, a);
    case Leave(_) => MembershipKeeps(s, a);
    case Vanish(_) => MembershipKeeps(s, a);
    case Restart => MembershipKeeps(s, a);
    case _ => LoopKeeps(s, a);
  }

  lemma {:induction false} RunKeeps(s: State, actions: seq<Action>)
    requires Inv(s)
    ensures Inv(Run(s, actions))
    decreases actions
  {
    if actions != [] {
      StepKeeps(s, actions[0]);
      RunKeeps(Step(s, actions[0]), actions[1..]);
    }
  }

  /** For every interleaving: once a socket's backlog has been delivered, its browser shows every event from
  the first one in that backlog to its own last one, each once and in order, and none that the detector has
  not recorded. When nothing is left to broadcast or deliver and the socket is still registered, its last
  one is the detector's. */
  lemma EveryEventOnceInOrder(actions: seq<Action>, k: nat)
    ensures var s := Run(START, actions);
            k in s.sockets && s.sockets[k].caughtUp ==>
              && Complete(s.sockets[k].client, s.sockets[k].since)
              && s.sockets[k].client.last <= s.top
              && (s.phase.Resting? && s.sockets[k].joined && s.sockets[k].channel == [] ==>
                  s.sockets[k].client.last == s.top)
  {
    RunKeeps(START, actions);
    var s := Run(START, actions);
    if k in s.sockets && s.sockets[k].caughtUp {
      assert SocketOk(s, k, s.sockets[k]);
    }
  }
}
