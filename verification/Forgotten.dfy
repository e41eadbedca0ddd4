/**
 A command killed on disconnect is forgotten when it exits with nobody attached, and any exited command
 can be reaped once its client is gone. What its rings then still hold can never be read: exactly when
 the one client of a lossless command does not get everything, over all its runs.
 */
module Forgotten {
  import opened OutputRing
  import opened CommandStream
  import opened Alignment
  import opened Lossless
  import opened Options

  // ------------------------------------------------------------------------------ invariant

  /** A stream that has been served to its end sends nothing more. */
  predicate Idle(st: Stream) {
    st.phase.Returned? ==> st.pumps.out.held == [] && st.pumps.err.held == []
  }

  /** The one client is on the newest stream, if on any, and so is the attachment; without one, and
      without an explicit detach, that stream has been served to its end. */
  predicate Newest(sys: System) {
    && sys.streams != [] && |sys.clients| == 1
    && var last := |sys.streams| - 1;
       && (StreamOf(sys.clients[0]).Some? ==> StreamOf(sys.clients[0]).value == last)
       && (sys.current.Some? ==> sys.current.value == last)
       && (sys.current.None? && !sys.kept ==> sys.streams[last].phase.Returned?)
       && Idle(sys.streams[last])
  }

  predicate ExitKnown(sys: System) {
    && (sys.exited.Some? ==> sys.rings.out.closed && sys.rings.err.closed)
    && (sys.forgotten ==> sys.exited.Some? && sys.current.None?)
  }

  predicate ForgetInv(sys: System) {
    LosslessInv(sys) && Newest(sys) && ExitKnown(sys)
  }

  lemma MoveKeepsIdle(rings: Pair<Ring>, st: Stream, current: bool, exited: Option<int>, e: StreamEvent)
    requires PumpOk(rings.out, st.pumps.out, st.stop) && PumpOk(rings.err, st.pumps.err, st.stop)
    requires st.phase.Finishing? ==> st.pumps.out.phase.AtEof? && st.pumps.err.phase.AtEof?
    requires Idle(st)
    ensures Idle(Moved(rings, st, current, exited, e).1)
    ensures st.phase.Returned? ==> Moved(rings, st, current, exited, e).1.phase.Returned?
  {
  }

  lemma MoveKeepsClosed(rings: Pair<Ring>, st: Stream, current: bool, exited: Option<int>, e: StreamEvent)
    ensures
      var rings' := Moved(rings, st, current, exited, e).0;
      && rings'.out.closed == rings.out.closed && rings'.err.closed == rings.err.closed
      && rings'.out.hist == rings.out.hist && rings'.err.hist == rings.err.hist
  {
  }

  lemma StreamStepKeepsNewest(sys: System, s: nat, e: StreamEvent)
    requires Newest(sys) && ExitKnown(sys) && s < |sys.streams| && StreamOk(sys.rings, sys.streams[s])
    ensures Newest(StreamStep(sys, s, e)) && ExitKnown(StreamStep(sys, s, e))
  {
    if s == |sys.streams| - 1 {
      MoveKeepsIdle(sys.rings, sys.streams[s], sys.current == Some(s), sys.exited, e);
    }
    MoveKeepsClosed(sys.rings, sys.streams[s], sys.current == Some(s), sys.exited, e);
  }

  lemma TogetherKeepsPhase(st: Stream, cl: Client, s: nat, e: ClientEvent)
    requires StreamOf(cl) == Some(s)
    ensures
      var (st', cl') := Together(st, cl, s, e);
      st'.phase == st.phase && st'.pumps == st.pumps && (StreamOf(cl').Some? ==> StreamOf(cl') == Some(s))
  {
  }

  lemma ClientStepKeepsNewest(sys: System, e: ClientEvent)
    requires Newest(sys) && ExitKnown(sys)
    ensures Newest(ClientStep(sys, 0, e)) && ExitKnown(ClientStep(sys, 0, e))
  {
    var on := StreamOf(sys.clients[0]);
    if on.Some? {
      TogetherKeepsPhase(sys.streams[on.value], sys.clients[0], on.value, e);
    }
  }

  lemma StepKeepsNewest(sys: System, e: Event)
    requires Newest(sys) && ExitKnown(sys) && !e.Join?
    requires e.OnStream? && e.s < |sys.streams| ==> StreamOk(sys.rings, sys.streams[e.s])
    ensures Newest(Step(sys, e)) && ExitKnown(Step(sys, e))
  {
    match e {
      case OnStream(s, e) => if s < |sys.streams| { StreamStepKeepsNewest(sys, s, e); }
      case OnClient(c, e) => if c == 0 { ClientStepKeepsNewest(sys, e); }
      case _ =>
    }
  }

  lemma StepKeepsForgetInv(sys: System, e: Event)
    requires ForgetInv(sys) && !e.Join?
    ensures ForgetInv(Step(sys, e))
  {
    StepKeepsLossless(sys, e);
    StepKeepsNewest(sys, e);
  }

  lemma {:induction false} RunKeepsForgetInv(sys: System, events: seq<Event>)
    requires ForgetInv(sys) && NoJoin(events)
    ensures ForgetInv(Run(sys, events))
    decreases |events|
  {
    if events != [] {
      StepKeepsForgetInv(sys, events[0]);
      RunKeepsForgetInv(Step(sys, events[0]), events[1..]);
    }
  }

  lemma ForgetReachable(capacity: Pair<nat>, events: seq<Event>)
    requires GoodCapacity(capacity) && NoJoin(events)
    ensures ForgetInv(Run(Init(capacity, true), events))
  {
    LosslessReachable(capacity, []);
    RunKeepsForgetInv(Init(capacity, true), events);
  }

  // ---------------------------------------------------------- what can still reach the client

  /** Bytes already on their way. */
  function InFlight(sys: System, k: Kind): nat
    requires |sys.clients| == 1
  {
    var on := StreamOf(sys.clients[0]);
    if on.Some? && on.value < |sys.streams| then |Bytes(sys.streams[on.value].down, k)| else 0
  }

  /** The registry has forgotten a command that nobody detached from. */
  predicate Gone(sys: System) {
    sys.forgotten && !sys.kept
  }

  function Reach(sys: System, k: Kind): nat
    requires |sys.clients| == 1
  {
    sys.clients[0].offset.Get(k) + InFlight(sys, k)
  }

  lemma EndedMoveSendsNothing(rings: Pair<Ring>, st: Stream, current: bool, exited: Option<int>, e: StreamEvent, k: Kind)
    requires st.phase.Returned? && Idle(st)
    ensures |Bytes(Moved(rings, st, current, exited, e).1.down, k)| <= |Bytes(st.down, k)|
  {
    if e.Break? {
      BytesOfPrefix(st.down, Min(e.keepDown, |st.down|), k);
    }
  }

  /** The next message continues the output, or answers the attach at the client's own offset. */
  predicate InLine(st: Stream, cl: Client) {
    st.down != [] ==>
      if cl.phase.Attaching? then st.down[0] == Hello(cl.offset) && cl.welcomed
      else cl.phase.Reading? && !st.down[0].Hello?
  }

  lemma LinkedIsInLine(rings: Pair<Ring>, st: Stream, cl: Client)
    requires StreamOf(cl).Some? && Linked(rings, st, cl) && Exact(st, cl) && cl.welcomed
    requires HandshakeOk(rings, st)
    ensures InLine(st, cl)
  {
  }

  lemma AckKeepsOffset(st: Stream, cl: Client, sent: bool)
    ensures MaybeAck(st, cl, sent).1.offset == cl.offset && MaybeAck(st, cl, sent).0.down == st.down
  {
  }

  lemma OutputReaches(st: Stream, cl: Client, s: nat, sent: bool, k: Kind)
    requires cl.phase.Reading? && st.down != [] && st.down[0].Output?
    ensures
      var (st', cl') := Receive(st, cl, s, sent);
      st'.down == st.down[1..] && cl'.offset.Get(k) == cl.offset.Get(k) + |BytesOf(st.down[0], k)|
  {
    AckKeepsOffset(st.(down := st.down[1..]), Deliver(cl, st.down[0].kind, st.down[0].bytes), sent);
  }

  lemma ReceiveReaches(st: Stream, cl: Client, s: nat, sent: bool, k: Kind)
    requires InLine(st, cl) && st.down != []
    ensures
      var (st', cl') := Receive(st, cl, s, sent);
      st'.down == st.down[1..] && cl'.offset.Get(k) == cl.offset.Get(k) + |BytesOf(st.down[0], k)|
  {
    if st.down[0].Output? {
      OutputReaches(st, cl, s, sent, k);
    }
  }

  function ReachOn(st: Stream, cl: Client, k: Kind): nat {
    cl.offset.Get(k) + if StreamOf(cl).Some? then |Bytes(st.down, k)| else 0
  }

  lemma TogetherReaches(st: Stream, cl: Client, s: nat, e: ClientEvent, k: Kind)
    requires StreamOf(cl) == Some(s) && InLine(st, cl)
    ensures
      var (st', cl') := Together(st, cl, s, e);
      ReachOn(st', cl', k) <= ReachOn(st, cl, k)
  {
    if e.Recv? && st.down != [] {
      ReceiveReaches(st, cl, s, e.sent, k);
      assert Bytes(st.down, k) == BytesOf(st.down[0], k) + Bytes(st.down[1..], k);
    }
  }

  lemma ClientReaches(sys: System, e: ClientEvent, k: Kind)
    requires Newest(sys) && Gone(sys)
    requires StreamOf(sys.clients[0]).Some? ==> InLine(sys.streams[|sys.streams| - 1], sys.clients[0])
    ensures |ClientStep(sys, 0, e).clients| == 1
    ensures Reach(ClientStep(sys, 0, e), k) <= Reach(sys, k)
  {
    var on := StreamOf(sys.clients[0]);
    if on.Some? && !e.Attach? {
      TogetherKeepsPhase(sys.streams[on.value], sys.clients[0], on.value, e);
      TogetherReaches(sys.streams[on.value], sys.clients[0], on.value, e, k);
    }
  }

  lemma StreamReaches(sys: System, s: nat, e: StreamEvent, k: Kind)
    requires ForgetInv(sys) && Gone(sys) && s < |sys.streams|
    ensures Reach(StreamStep(sys, s, e), k) <= Reach(sys, k)
  {
    if s == |sys.streams| - 1 {
      EndedMoveSendsNothing(sys.rings, sys.streams[s], sys.current == Some(s), sys.exited, e, k);
    }
  }

  lemma GoneStream(sys: System, s: nat, e: StreamEvent, k: Kind)
    requires ForgetInv(sys) && Gone(sys) && s < |sys.streams|
    ensures
      var sys' := StreamStep(sys, s, e);
      Gone(sys') && |sys'.clients| == 1 && Reach(sys', k) <= Reach(sys, k) && sys'.rings.Get(k).hist == sys.rings.Get(k).hist
  {
    StreamReaches(sys, s, e, k);
    MoveKeepsClosed(sys.rings, sys.streams[s], sys.current == Some(s), sys.exited, e);
  }

  lemma GoneClient(sys: System, e: ClientEvent, k: Kind)
    requires ForgetInv(sys) && Gone(sys)
    ensures
      var sys' := ClientStep(sys, 0, e);
      Gone(sys') && |sys'.clients| == 1 && Reach(sys', k) <= Reach(sys, k) && sys'.rings == sys.rings
  {
    if StreamOf(sys.clients[0]).Some? {
      ClientIsInLine(sys);
    }
    ClientReaches(sys, e, k);
  }

  /** Nothing that happens afterwards brings the client further than what is already on its way. */
  lemma GoneStep(sys: System, e: Event, k: Kind)
    requires ForgetInv(sys) && Gone(sys) && !e.Join?
    ensures Gone(Step(sys, e)) && |Step(sys, e).clients| == 1
    ensures Reach(Step(sys, e), k) <= Reach(sys, k)
    ensures Step(sys, e).rings.Get(k).hist == sys.rings.Get(k).hist
  {
    match e {
      case OnRing(_, r) => if r.Write? { assert r.p[..0] == []; }
      case OnStream(s, e) => if s < |sys.streams| { GoneStream(sys, s, e, k); }
      case OnClient(c, e) => if c == 0 { GoneClient(sys, e, k); }
      case _ =>
    }
  }

  lemma ClientIsInLine(sys: System)
    requires ForgetInv(sys) && StreamOf(sys.clients[0]).Some?
    ensures InLine(sys.streams[|sys.streams| - 1], sys.clients[0])
  {
    var s := |sys.streams| - 1;
    assert Attached(sys, 0) && StreamOk(sys.rings, sys.streams[s]);
    LinkedIsInLine(sys.rings, sys.streams[s], sys.clients[0]);
  }

  lemma {:induction false} GoneRun(sys: System, events: seq<Event>, k: Kind)
    requires ForgetInv(sys) && Gone(sys) && NoJoin(events)
    ensures ForgetInv(Run(sys, events)) && Reach(Run(sys, events), k) <= Reach(sys, k)
    ensures Run(sys, events).rings.Get(k).hist == sys.rings.Get(k).hist
    decreases |events|
  {
    if events != [] {
      GoneStep(sys, events[0], k);
      StepKeepsForgetInv(sys, events[0]);
      GoneRun(Step(sys, events[0]), events[1..], k);
    }
  }

  // ----------------------------------------------------------------- and does, if it is read

  lemma ReceiveIsExact(st: Stream, cl: Client, s: nat, k: Kind)
    requires StreamOf(cl) == Some(s) && InLine(st, cl) && st.down != []
    requires st.down[0].ExitStatus? ==> |st.down| == 1
    ensures
      var (st', cl') := Receive(st, cl, s, true);
      ReachOn(st', cl', k) == ReachOn(st, cl, k)
  {
    ReceiveReaches(st, cl, s, true, k);
    assert Bytes(st.down, k) == BytesOf(st.down[0], k) + Bytes(st.down[1..], k);
    if st.down[0].ExitStatus? {
      assert st.down[1..] == [];
    }
  }

  lemma FrontExitIsLast(sys: System)
    requires ForgetInv(sys) && StreamOf(sys.clients[0]).Some? && sys.streams[|sys.streams| - 1].down != []
    ensures
      var down := sys.streams[|sys.streams| - 1].down;
      down[0].ExitStatus? ==> |down| == 1
  {
    var s := |sys.streams| - 1;
    var st, cl := sys.streams[s], sys.clients[0];
    assert Attached(sys, 0) && StreamOk(sys.rings, st);
    if st.down[0].ExitStatus? {
      assert EndsWell(sys.rings, st, st.down, cl.offset);
    }
  }

  lemma RecvReaches(sys: System, k: Kind)
    requires ForgetInv(sys) && StreamOf(sys.clients[0]).Some? && sys.streams[|sys.streams| - 1].down != []
    ensures
      var last, sys' := |sys.streams| - 1, Step(sys, OnClient(0, Recv(true)));
      && |sys'.streams| == |sys.streams| && sys'.streams[last].down == sys.streams[last].down[1..]
      && |sys'.clients| == 1 && Reach(sys', k) == Reach(sys, k)
  {
    var s := |sys.streams| - 1;
    ClientIsInLine(sys);
    FrontExitIsLast(sys);
    ReceiveIsExact(sys.streams[s], sys.clients[0], s, k);
    ReceiveReaches(sys.streams[s], sys.clients[0], s, true, k);
    TogetherKeepsPhase(sys.streams[s], sys.clients[0], s, Recv(true));
  }

  lemma RecvStep(sys: System) returns (sys': System)
    requires ForgetInv(sys) && StreamOf(sys.clients[0]).Some? && sys.streams[|sys.streams| - 1].down != []
    ensures sys' == Step(sys, OnClient(0, Recv(true))) && ForgetInv(sys')
    ensures |sys'.streams[|sys'.streams| - 1].down| < |sys.streams[|sys.streams| - 1].down|
    ensures forall k :: Reach(sys', k) == Reach(sys, k)
  {
    sys' := Step(sys, OnClient(0, Recv(true)));
    StepKeepsForgetInv(sys, OnClient(0, Recv(true)));
    RecvReaches(sys, Stdout);
    forall k ensures Reach(sys', k) == Reach(sys, k) {
      RecvReaches(sys, k);
    }
  }

  /** Receiving everything on its way takes the client exactly that far. */
  lemma {:induction false} DrainAll(sys: System) returns (events: seq<Event>)
    requires ForgetInv(sys)
    ensures NoJoin(events) && |Run(sys, events).clients| == 1
    ensures forall k :: Run(sys, events).clients[0].offset.Get(k) == Reach(sys, k)
    decreases |sys.streams[|sys.streams| - 1].down|
  {
    if StreamOf(sys.clients[0]).None? || sys.streams[|sys.streams| - 1].down == [] {
      events := [];
    } else {
      var sys' := RecvStep(sys);
      var rest := DrainAll(sys');
      events := [OnClient(0, Recv(true))] + rest;
      RunOne(sys, OnClient(0, Recv(true)), rest);
    }
  }

  // ------------------------------------------------------------------------------- theorems

  /** The client has everything the ring was given. */
  predicate Complete(sys: System, k: Kind)
    requires |sys.clients| == 1
  {
    Joined(sys.clients[0].got.Get(k)) == sys.rings.Get(k).hist
  }

  lemma CompleteIff(sys: System, k: Kind)
    requires LosslessInv(sys)
    ensures Complete(sys, k) <==> sys.clients[0].offset.Get(k) == |sys.rings.Get(k).hist|
  {
    var hist := sys.rings.Get(k).hist;
    assert hist[..|hist|] == hist;
  }

  ghost predicate CanComplete(sys: System, events: seq<Event>, k: Kind) {
    NoJoin(events) && |Run(sys, events).clients| == 1 && Complete(Run(sys, events), k)
  }

  /** Once a command killed on disconnect is forgotten, its client can still get the whole output, in
      some continuation, exactly when all of it was delivered or on its way by then. Every other byte
      the ring accepted is lost. */
  lemma ForgottenLosesIff(capacity: Pair<nat>, past: seq<Event>, k: Kind)
    requires GoodCapacity(capacity) && NoJoin(past) && Gone(Run(Init(capacity, true), past))
    ensures |Run(Init(capacity, true), past).clients| == 1
    ensures
      var sys := Run(Init(capacity, true), past);
      (exists events :: CanComplete(sys, events, k)) <==> Reach(sys, k) == |sys.rings.Get(k).hist|
  {
    ForgetReachable(capacity, past);
    var sys := Run(Init(capacity, true), past);
    if Reach(sys, k) == |sys.rings.Get(k).hist| {
      var events := DrainAll(sys);
      GoneRun(sys, events, k);
      CompleteIff(Run(sys, events), k);
      assert CanComplete(sys, events, k);
    }
    forall events | CanComplete(sys, events, k) ensures Reach(sys, k) == |sys.rings.Get(k).hist| {
      GoneRun(sys, events, k);
      CompleteIff(Run(sys, events), k);
      ReachIsWritten(sys, k);
    }
  }

  lemma ReachOnIsWritten(rings: Pair<Ring>, st: Stream, cl: Client, k: Kind)
    requires StreamOf(cl).Some? && Linked(rings, st, cl) && InLine(st, cl) && HandshakeOk(rings, st)
    requires cl.offset.Get(k) <= |rings.Get(k).hist|
    ensures ReachOn(st, cl, k) <= |rings.Get(k).hist|
  {
    if st.down != [] && cl.phase.Attaching? {
      assert Bytes(st.down, k) == BytesOf(st.down[0], k) + Bytes(st.down[1..], k);
      assert BytesOf(st.down[0], k) == [];
    }
  }

  /** What is on its way was written. */
  lemma ReachIsWritten(sys: System, k: Kind)
    requires ForgetInv(sys)
    ensures Reach(sys, k) <= |sys.rings.Get(k).hist|
  {
    if StreamOf(sys.clients[0]).Some? {
      assert Attached(sys, 0) && StreamOk(sys.rings, sys.streams[|sys.streams| - 1]);
      ClientIsInLine(sys);
      ReachOnIsWritten(sys.rings, sys.streams[|sys.streams| - 1], sys.clients[0], k);
    }
  }

  /** It happens at every capacity: a command that wrote something exits while its client's stream is
      down, and the client never gets any of it. */
  lemma ForgottenLosesOutput(capacity: Pair<nat>, p: seq<byte>) returns (events: seq<Event>)
    requires GoodCapacity(capacity) && 0 < |p| <= capacity.out
    ensures NoJoin(events)
    ensures
      var sys := Run(Init(capacity, true), events);
      && Gone(sys) && sys.rings.out.hist == p && |sys.clients| == 1 && sys.clients[0].got.out == []
      && (forall es :: !CanComplete(sys, es, Stdout))
  {
    var s0 := Init(capacity, true);
    var a, s1 := BrokenOff(capacity, p);
    var b, s2 := GivenUp(s1);
    var c, s3 := ExitedAlone(s2);
    events := a + (b + c);
    RunAll(s1, b, c);
    RunAll(s0, a, b + c);
    ForgottenLosesIff(capacity, events, Stdout);
  }

  /** Output is written and the stream breaks before it is read. */
  lemma BrokenOff(capacity: Pair<nat>, p: seq<byte>) returns (events: seq<Event>, done: System)
    requires GoodCapacity(capacity) && 0 < |p| <= capacity.out
    ensures NoJoin(events) && done == Run(Init(capacity, true), events)
    ensures
      var s0 := Init(capacity, true);
      done == s0.(rings := s0.rings.Set(Stdout, s0.rings.out.(hist := p)), streams := [s0.streams[0].(broken := true)])
  {
    var s0 := Init(capacity, true);
    var e1, e2 := OnRing(Stdout, Write(p)), OnStream(0, Break(0, 0));
    assert p[..|p|] == p && [] + p == p;
    var s1 := Step(s0, e1);
    assert s1.rings.out == s0.rings.out.(hist := p);
    done := Step(s1, e2);
    assert done.streams[0] == s0.streams[0].(broken := true);
    events := [e1] + ([e2] + []);
    RunOne(s0, e1, [e2] + []);
    RunOne(s1, e2, []);
  }

  /** The daemon notices, and gives the attachment up. */
  lemma GivenUp(sys: System) returns (events: seq<Event>, done: System)
    requires |sys.streams| == 1 && sys.current == Some(0)
    requires
      var st := sys.streams[0];
      st.broken && st.phase.Serving? && st.pumps == Pair(Pump(0, [], Tailing), Pump(0, [], Tailing))
    ensures NoJoin(events) && done == Run(sys, events)
    ensures
      var halted := Pump(0, [], Halted);
      done == sys.(current := None,
                   streams := [sys.streams[0].(stop := true, pumps := Pair(halted, halted), phase := Returned)])
  {
    var e1, e2, e3 := OnStream(0, StopServe), OnStream(0, PumpCancel(Stdout)), OnStream(0, PumpCancel(Stderr));
    var e4, e5 := OnStream(0, ServeReturn), OnStream(0, ClientGone);
    var s3 := Step(Step(Step(sys, e1), e2), e3);
    var halted := Pump(0, [], Halted);
    assert s3.streams == [sys.streams[0].(stop := true, pumps := Pair(halted, halted))];
    done := Step(Step(s3, e4), e5);
    events := [e1] + ([e2] + ([e3] + ([e4] + ([e5] + []))));
    RunOne(sys, e1, [e2] + ([e3] + ([e4] + ([e5] + []))));
    RunOne(Step(sys, e1), e2, [e3] + ([e4] + ([e5] + [])));
    RunOne(Step(Step(sys, e1), e2), e3, [e4] + ([e5] + []));
    RunOne(s3, e4, [e5] + []);
    RunOne(Step(s3, e4), e5, []);
  }

  /** Then the command exits. */
  lemma ExitedAlone(sys: System) returns (events: seq<Event>, done: System)
    requires sys.current.None? && sys.exited.None? && !sys.kept
    ensures NoJoin(events) && done == Run(sys, events)
    ensures Gone(done) && done.clients == sys.clients && done.streams == sys.streams
    ensures done.rings == Pair(sys.rings.out.Close(), sys.rings.err.Close())
  {
    var e6, e7, e8 := OnRing(Stdout, CloseRing), OnRing(Stderr, CloseRing), Exit(0);
    var s7 := Step(Step(sys, e6), e7);
    done := Step(s7, e8);
    events := [e6] + ([e7] + ([e8] + []));
    RunOne(sys, e6, [e7] + ([e8] + []));
    RunOne(Step(sys, e6), e7, [e8] + []);
    RunOne(s7, e8, []);
  }
}
