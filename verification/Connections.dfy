/** The set of open WebSockets and the gauge that reports its size. A broadcast holds the lock twice, to
copy the set and to drop what failed, with the sends between; sockets come and go meanwhile. */
module Connections {
  type Socket = nat

  datatype Held = Held(connections: set<Socket>, gauge: int)

  function Added(h: Held, x: Socket): Held {
    Held(h.connections + {x}, h.gauge + 1)
  }

  function Discarded(h: Held, x: Socket): Held {
    if x in h.connections then Held(h.connections - {x}, h.gauge - 1) else h
  }

  function Cleared(h: Held): Held {
    Held({}, h.gauge - |h.connections|)
  }

  function Dropped(h: Held, failed: set<Socket>): Held {
    if failed == {} then h else Held(h.connections - failed, h.gauge - |failed|)
  }

  /** Sockets in the set that the gauge does not show. */
  function Shortfall(h: Held): int {
    |h.connections| - h.gauge
  }

  class WebSocketConnections {
    var connections: set<Socket>
    var gauge: int

    function Now(): Held
      reads this
    {
      Held(connections, gauge)
    }

    constructor ()
      ensures Now() == Held({}, 0)
    {
      connections, gauge := {}, 0;
    }

    method Add(x: Socket)
      modifies this
      ensures Now() == Added(old(Now()), x)
      ensures x !in old(connections) ==> Shortfall(Now()) == old(Shortfall(Now()))
    {
      connections := connections + {x};
      gauge := gauge + 1;
    }

    method Discard(x: Socket)
      modifies this
      ensures Now() == Discarded(old(Now()), x)
      ensures x !in connections && Shortfall(Now()) == old(Shortfall(Now()))
    {
      if x in connections {
        connections := connections - {x};
        gauge := gauge - 1;
      }
    }

    method CloseAll() returns (targets: set<Socket>)
      modifies this
      ensures Now() == Cleared(old(Now()))
      ensures targets == old(connections) && Shortfall(Now()) == old(Shortfall(Now()))
    {
      targets := connections;
      connections := {};
      gauge := gauge - |targets|;
    }

    /** The first half of a broadcast: whom to send to. */
    method Targets() returns (targets: set<Socket>)
      ensures targets == connections
    {
      targets := connections;
    }

    /** The second half: the sockets whose send failed, whether or not they are still in the set. */
    method Drop(failed: set<Socket>)
      modifies this
      ensures Now() == Dropped(old(Now()), failed)
      ensures Shortfall(Now()) == old(Shortfall(Now())) + |failed - old(connections)|
    {
      DropShortfall(Now(), failed);
      if failed == {} {
        return;
      }
      connections := connections - failed;
      gauge := gauge - |failed|;
    }
  }

  /** Dropping counts the failed sockets, not the ones it removes, so the gauge loses one for each failed
  socket that had already gone. */
  lemma DropShortfall(h: Held, failed: set<Socket>)
    ensures Shortfall(Dropped(h, failed)) == Shortfall(h) + |failed - h.connections|
  {
    if failed != {} {
      var both := failed * h.connections;
      assert failed == both + (failed - h.connections);
      assert h.connections == both + (h.connections - failed);
    }
  }

  // ---------------------------------------------------------------- every interleaving

  /** A broadcast whose sends are pending: whom it copied, and how many sockets had ever joined by then. */
  datatype Flight = Flight(targets: set<Socket>, joined: nat)

  datatype State = State(held: Held, joined: nat, flights: map<nat, Flight>, begun: nat)

  const START := State(Held({}, 0), 0, map[], 0)

  /** Every socket that joins is a new one, numbered in the order they come. */
  datatype Op = Join | Leave(x: Socket) | CloseEvery | Begin | Finish(id: nat, failed: set<Socket>)

  function Step(s: State, o: Op): State {
    match o
    case Join => s.(held := Added(s.held, s.joined), joined := s.joined + 1)
    case Leave(x) => s.(held := Discarded(s.held, x))
    case CloseEvery => s.(held := Cleared(s.held))
    case Begin => s.(flights := s.flights[s.begun := Flight(s.held.connections, s.joined)], begun := s.begun + 1)
    case Finish(id, failed) =>
      if id in s.flights && failed <= s.flights[id].targets
      then s.(held := Dropped(s.held, failed), flights := s.flights - {id})
      else s
  }

  function Run(ops: seq<Op>): State {
    if ops == [] then START else Step(Run(ops[..|ops| - 1]), ops[|ops| - 1])
  }

  /** The failed sockets that had already left when a broadcast finished. */
  function Gone(s: State, o: Op): set<Socket> {
    if o.Finish? && o.id in s.flights && o.failed <= s.flights[o.id].targets then o.failed - s.held.connections else {}
  }

  function GoneOver(ops: seq<Op>): nat {
    if ops == [] then 0 else GoneOver(ops[..|ops| - 1]) + |Gone(Run(ops[..|ops| - 1]), ops[|ops| - 1])|
  }

  ghost predicate Known(s: State) {
    && (forall x :: x in s.held.connections ==> x < s.joined)
    && (forall id :: id in s.flights ==> id < s.begun)
    && (forall id, x :: id in s.flights && x in s.flights[id].targets ==> x < s.flights[id].joined)
  }

  lemma StepShortfall(s: State, o: Op)
    requires Known(s)
    ensures Known(Step(s, o))
    ensures Shortfall(Step(s, o).held) == Shortfall(s.held) + |Gone(s, o)|
  {
    if o.Finish? {
      DropShortfall(s.held, o.failed);
    }
  }

  /** Over every interleaving, the gauge falls short of the set by exactly the failed sockets that were
  already gone when their broadcasts finished; it never exceeds the set. */
  lemma {:induction false} GaugeShortfall(ops: seq<Op>)
    ensures Known(Run(ops))
    ensures Run(ops).held.gauge == |Run(ops).held.connections| - GoneOver(ops)
  {
    if ops != [] {
      GaugeShortfall(ops[..|ops| - 1]);
      StepShortfall(Run(ops[..|ops| - 1]), ops[|ops| - 1]);
    }
  }

  lemma RunSnoc(ops: seq<Op>, o: Op)
    ensures Run(ops + [o]) == Step(Run(ops), o)
    ensures GoneOver(ops + [o]) == GoneOver(ops) + |Gone(Run(ops), o)|
  {
    assert (ops + [o])[..|ops + [o]| - 1] == ops;
  }

  /** No broadcast of the run failed on a socket that had already left at its finish. */
  ghost predicate NoneGone(ops: seq<Op>) {
    forall k :: 0 <= k < |ops| ==> Gone(Run(ops[..k]), ops[k]) == {}
  }

  lemma NoneGoneSnoc(ops: seq<Op>, o: Op)
    ensures NoneGone(ops + [o]) <==> NoneGone(ops) && Gone(Run(ops), o) == {}
  {
    var all := ops + [o];
    assert all[..|ops|] == ops && all[|ops|] == o;
    assert forall k :: 0 <= k < |ops| ==> all[k] == ops[k] && all[..k] == ops[..k];
    if NoneGone(ops) && Gone(Run(ops), o) == {} {
      forall k | 0 <= k < |all| ensures Gone(Run(all[..k]), all[k]) == {} {
        if k < |ops| {
          assert all[..k] == ops[..k];
        }
      }
    }
  }

  lemma GoneNoneSnoc(ops: seq<Op>, o: Op)
    requires GoneOver(ops) == 0 <==> NoneGone(ops)
    ensures GoneOver(ops + [o]) == 0 <==> NoneGone(ops + [o])
  {
    NoneGoneSnoc(ops, o);
    RunSnoc(ops, o);
    assert |Gone(Run(ops), o)| == 0 <==> Gone(Run(ops), o) == {};
  }

  lemma {:induction false} GoneNone(ops: seq<Op>)
    ensures GoneOver(ops) == 0 <==> NoneGone(ops)
  {
    if ops != [] {
      GoneNone(ops[..|ops| - 1]);
      GoneNoneSnoc(ops[..|ops| - 1], ops[|ops| - 1]);
      assert ops[..|ops| - 1] + [ops[|ops| - 1]] == ops;
    }
  }

  /** The gauge is right at the end of a run exactly when every socket a broadcast failed on was still in
  the set at its finish. */
  lemma GaugeExact(ops: seq<Op>)
    ensures Run(ops).held.gauge == |Run(ops).held.connections| <==> NoneGone(ops)
  {
    GaugeShortfall(ops);
    GoneNone(ops);
  }

  lemma ShortfallSnoc(ops: seq<Op>, o: Op)
    ensures Shortfall(Run(ops).held) <= Shortfall(Run(ops + [o]).held)
  {
    RunSnoc(ops, o);
    GaugeShortfall(ops);
    StepShortfall(Run(ops), o);
  }

  /** The shortfall never shrinks. */
  lemma {:induction false} ShortfallStays(ops: seq<Op>, more: seq<Op>)
    ensures Shortfall(Run(ops).held) <= Shortfall(Run(ops + more).held)
  {
    if more == [] {
      assert ops + more == ops;
    } else {
      var init := more[..|more| - 1];
      ShortfallStays(ops, init);
      assert ops + more == (ops + init) + [more[|more| - 1]];
      ShortfallSnoc(ops + init, more[|more| - 1]);
    }
  }

  // ---------------------------------------------------------------- who is removed

  function From(s: State, ops: seq<Op>): State {
    if ops == [] then s else Step(From(s, ops[..|ops| - 1]), ops[|ops| - 1])
  }

  /** A broadcast's targets stay as copied until it finishes. */
  lemma {:induction false} FlightStays(s: State, ops: seq<Op>, id: nat)
    requires Known(s) && id < s.begun
    ensures Known(From(s, ops)) && s.begun <= From(s, ops).begun && s.joined <= From(s, ops).joined
    ensures id in From(s, ops).flights ==> id in s.flights && From(s, ops).flights[id] == s.flights[id]
  {
    if ops != [] {
      FlightStays(s, ops[..|ops| - 1], id);
      StepShortfall(From(s, ops[..|ops| - 1]), ops[|ops| - 1]);
    }
  }

  lemma TargetsJoinedBefore(before: seq<Op>, between: seq<Op>)
    ensures var s := Run(before);
            var t := From(Step(s, Begin), between);
            s.begun in t.flights ==> forall x :: x in t.flights[s.begun].targets ==> x < s.joined
  {
    GaugeShortfall(before);
    StepShortfall(Run(before), Begin);
    FlightStays(Step(Run(before), Begin), between, Run(before).begun);
  }

  lemma FinishKeeps(t: State, id: nat, failed: set<Socket>, x: Socket)
    requires id in t.flights ==> x !in t.flights[id].targets
    ensures x in t.held.connections ==> x in Step(t, Finish(id, failed)).held.connections
  {
  }

  /** A socket that joins while a broadcast's sends are pending is never removed by that broadcast. */
  lemma JoinerStays(before: seq<Op>, between: seq<Op>, failed: set<Socket>, x: Socket)
    ensures var s := Run(before);
            var t := From(Step(s, Begin), between);
            s.joined <= x && x in t.held.connections ==> x in Step(t, Finish(s.begun, failed)).held.connections
  {
    TargetsJoinedBefore(before, between);
    var s := Run(before);
    if s.joined <= x {
      FinishKeeps(From(Step(s, Begin), between), s.begun, failed, x);
    }
  }

  /** A socket taken out of the set never returns to it. */
  lemma {:induction false} GoneForGood(s: State, ops: seq<Op>, x: Socket)
    requires Known(s) && x < s.joined && x !in s.held.connections
    ensures Known(From(s, ops)) && x < From(s, ops).joined && x !in From(s, ops).held.connections
  {
    if ops != [] {
      GoneForGood(s, ops[..|ops| - 1], x);
      StepShortfall(From(s, ops[..|ops| - 1]), ops[|ops| - 1]);
    }
  }

  /** One socket, failed in a broadcast after its own handler discarded it: the gauge reads one short. */
  lemma LeavesDuringBroadcast()
    ensures var ops := [Join, Join, Begin, Leave(0), Finish(0, {0})];
            Run(ops).held == Held({1}, 0)
  {
    RunSnoc([], Join);
    RunSnoc([Join], Join);
    RunSnoc([Join, Join], Begin);
    RunSnoc([Join, Join, Begin], Leave(0));
    RunSnoc([Join, Join, Begin, Leave(0)], Finish(0, {0}));
    assert Run([Join, Join, Begin]).held == Held({0, 1}, 2);
    assert Run([Join, Join, Begin]).flights == map[0 := Flight({0, 1}, 2)];
    assert [Join, Join, Begin] + [Leave(0)] == [Join, Join, Begin, Leave(0)];
    assert [Join, Join, Begin, Leave(0)] + [Finish(0, {0})] == [Join, Join, Begin, Leave(0), Finish(0, {0})];
  }
}
