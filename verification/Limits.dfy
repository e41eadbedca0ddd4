/**
 Where the promise of progress to a lossless command's client stops: a client that has closed its
 input can no longer confirm.
 */
module Limits {
  import opened OutputRing
  import opened CommandStream
  import opened Alignment
  import opened Lossless
  import opened Progress
  import opened Options

  // ------------------------------------------------------------------ half-closed streams

  /** The client is on a stream whose send side it has closed and drained. */
  predicate HalfClosed(sys: System, s: nat) {
    && |sys.clients| == 1
    && s < |sys.streams| && sys.streams[s].sendClosed && sys.streams[s].up == []
    && (sys.clients[0].phase == Reading(s) || sys.clients[0].phase.Done?)
  }

  /** Writing, closing, and every step the daemon and the client take on their own. */
  predicate Unbroken(e: Event, s: nat) {
    e.OnRing? || Internal(e, s)
  }

  predicate AllUnbroken(events: seq<Event>, s: nat) {
    forall i :: 0 <= i < |events| ==> Unbroken(events[i], s)
  }

  lemma HalfClosedMove(rings: Pair<Ring>, st: Stream, current: bool, exited: Option<int>, e: StreamEvent)
    requires st.sendClosed && st.up == []
    requires e.InputStep? || e.PumpRead? || e.PumpSend?
    ensures
      var (rings', st') := Moved(rings, st, current, exited, e);
      rings' == rings && st'.sendClosed && st'.up == []
  {
  }

  lemma HalfClosedReceive(st: Stream, cl: Client, s: nat)
    requires st.sendClosed && st.up == [] && cl.phase == Reading(s)
    ensures
      var (st', cl') := Receive(st, cl, s, true);
      st'.sendClosed && st'.up == [] && (cl'.phase == Reading(s) || cl'.phase.Done?)
  {
  }

  lemma HalfClosedStep(sys: System, s: nat, e: Event)
    requires HalfClosed(sys, s) && Unbroken(e, s)
    ensures HalfClosed(Step(sys, e), s)
    ensures Released(Step(sys, e).rings) == Released(sys.rings)
  {
    match e {
      case OnRing(k, r) =>
        assert RingStep(sys.rings.Get(k), r).released == sys.rings.Get(k).released;
      case OnStream(_, e) =>
        HalfClosedMove(sys.rings, sys.streams[s], sys.current == Some(s), sys.exited, e);
      case OnClient(_, _) =>
        if sys.clients[0].phase.Reading? {
          HalfClosedReceive(sys.streams[s], sys.clients[0], s);
        }
    }
  }

  lemma UnbrokenKeepsCapacity(sys: System, s: nat, e: Event, k: Kind)
    requires Unbroken(e, s)
    ensures Step(sys, e).rings.Get(k).capacity == sys.rings.Get(k).capacity
  {
    if !e.OnRing? {
      StepKeepsCapacity(sys, s, e, k);
    }
  }

  lemma {:induction false} HalfClosedRun(sys: System, s: nat, events: seq<Event>, k: Kind)
    requires HalfClosed(sys, s) && AllUnbroken(events, s)
    ensures HalfClosed(Run(sys, events), s)
    ensures Run(sys, events).rings.Get(k).released == sys.rings.Get(k).released
    ensures Run(sys, events).rings.Get(k).capacity == sys.rings.Get(k).capacity
    decreases |events|
  {
    if events != [] {
      assert Unbroken(events[0], s);
      HalfClosedStep(sys, s, events[0]);
      UnbrokenKeepsCapacity(sys, s, events[0], k);
      HalfClosedRun(Step(sys, events[0]), s, events[1..], k);
    }
  }

  /** Once the send side is closed, and until the stream breaks, a writer is blocked exactly when
      the output has reached one capacity past what was confirmed before: no delivery frees any more
      space. */
  lemma HalfClosedBlocksIff(capacity: Pair<nat>, past: seq<Event>, s: nat, k: Kind, events: seq<Event>)
    requires GoodCapacity(capacity) && NoJoin(past)
    requires HalfClosed(Run(Init(capacity, true), past), s)
    requires AllUnbroken(events, s)
    ensures
      var before := Run(Init(capacity, true), past).rings.Get(k);
      var now := Run(Run(Init(capacity, true), past), events).rings.Get(k);
      now.Room() <= 0 <==> |now.hist| == before.released + before.capacity
  {
    LosslessReachable(capacity, past);
    var sys := Run(Init(capacity, true), past);
    HalfClosedRun(sys, s, events, k);
    RunKeepsLossless(sys, events);
    RoomIsCapacityLessUnconfirmed(Run(sys, events).rings.Get(k));
  }

  /** Everything one write goes through on its way to a client with closed input. */
  lemma DeliveredHalfClosed(sys: System, p: seq<byte>) returns (events: seq<Event>, done: System)
    requires |sys.streams| == 1 && |sys.clients| == 1 && sys.clients[0].phase == Reading(0) && p != []
    requires
      var st := sys.streams[0];
      && st.sendClosed && st.down == [] && st.phase.Serving? && !st.broken
      && st.pumps.out == Pump(0, [], Tailing)
    requires sys.rings.out.hist == p && sys.rings.out.Start() == 0 && sys.clients[0].offset.out == 0
    ensures done == Run(sys, events) && NoJoin(events)
    ensures
      var st := sys.streams[0];
      done == sys.(streams := [st.(pumps := Pair(Pump(|p|, [], Tailing), st.pumps.err))],
                   clients := [Deliver(sys.clients[0], Stdout, p)])
  {
    var e3, e4, e5 := OnStream(0, PumpRead(Stdout)), OnStream(0, PumpSend(Stdout, false)), OnClient(0, Recv(true));
    events := [e3] + ([e4] + ([e5] + []));
    var s3 := Step(sys, e3);
    var s4 := Step(s3, e4);
    done := Step(s4, e5);
    RunOne(sys, e3, [e4] + ([e5] + []));
    RunOne(s3, e4, [e5] + []);
    RunOne(s4, e5, []);
    var st := sys.streams[0];
    assert p[0..] == p;
    assert s3.streams[0] == st.(pumps := Pair(Pump(|p|, p, Tailing), st.pumps.err));
    assert [] + [Output(Stdout, p)] == [Output(Stdout, p)];
    assert s4.streams[0] == st.(pumps := Pair(Pump(|p|, [], Tailing), st.pumps.err), down := [Output(Stdout, p)]);
    assert [Output(Stdout, p)][1..] == [];
    assert done.streams[0] == st.(pumps := Pair(Pump(|p|, [], Tailing), st.pumps.err));
  }

  /** The stall is real at every capacity: a client closes its input, the command fills its ring,
      everything is delivered, and yet the writer is blocked and nothing is left to happen. */
  lemma HalfCloseStalls(capacity: Pair<nat>, p: seq<byte>) returns (events: seq<Event>)
    requires GoodCapacity(capacity) && |p| == capacity.out
    ensures NoJoin(events)
    ensures
      var sys := Run(Init(capacity, true), events);
      && |sys.clients| == 1 && sys.clients[0].phase == Reading(0) && 0 < |sys.streams|
      && Joined(sys.clients[0].got.out) == p == sys.rings.out.hist
      && !sys.streams[0].broken && !sys.streams[0].stop
      && sys.rings.out.Room() <= 0
      && (forall e :: Internal(e, 0) ==> Step(sys, e) == sys)
  {
    var s0 := Init(capacity, true);
    var e1, e2 := OnClient(0, CloseStdin), OnRing(Stdout, Write(p));
    var s1 := Step(s0, e1);
    var s2 := Step(s1, e2);
    assert s1 == s0.(streams := [s0.streams[0].(sendClosed := true)], clients := [s0.clients[0].(stdinDone := true)]);
    assert s1.rings.out.Accepts(p) == |p| && [] + p[..|p|] == p;
    assert s2.rings.out.hist == p && s2.streams == s1.streams;
    var rest, done := DeliveredHalfClosed(s2, p);
    events := [e1] + ([e2] + rest);
    RunOne(s0, e1, [e2] + rest);
    RunOne(s1, e2, rest);
    JoinedAppend([], Chunk(0, p));
    assert done.clients[0].got.out == [] + [Chunk(0, p)];
    assert Joined(done.clients[0].got.out) == p;
    assert done.rings.out.released == 0 && |done.rings.out.hist| == capacity.out;
    forall e | Internal(e, 0)
      ensures Step(done, e) == done
    {
      NothingMoves(done, e);
    }
  }

  lemma NothingMoves(sys: System, e: Event)
    requires |sys.streams| == 1 && |sys.clients| == 1 && sys.clients[0].phase == Reading(0)
    requires Internal(e, 0)
    requires
      var st := sys.streams[0];
      && st.down == [] && st.up == [] && st.phase.Serving?
      && !sys.rings.out.closed && !sys.rings.err.closed
      && Drained(sys.rings.out, st.pumps.out) && Drained(sys.rings.err, st.pumps.err)
    ensures Step(sys, e) == sys
  {
    if e.OnStream? {
      StreamIsStill(sys.rings, sys.streams[0], sys.current == Some(0), sys.exited, e.stream);
      assert sys.streams[0 := sys.streams[0]] == sys.streams;
    } else {
      assert sys.streams[0 := sys.streams[0]] == sys.streams && sys.clients[0 := sys.clients[0]] == sys.clients;
    }
  }

  lemma StreamIsStill(rings: Pair<Ring>, st: Stream, current: bool, exited: Option<int>, e: StreamEvent)
    requires e.InputStep? || e.PumpRead? || e.PumpSend?
    requires st.up == [] && !rings.out.closed && !rings.err.closed
    requires Drained(rings.out, st.pumps.out) && Drained(rings.err, st.pumps.err)
    ensures Moved(rings, st, current, exited, e) == (rings, st)
  {
    assert st.pumps == Pair(st.pumps.out, st.pumps.err);
  }
}
