/**
 Several clients on one lossless command. An attach or a confirmation releases everything below it,
 whoever has seen it, so a client can come back to find bytes gone: exactly when, over runs with any
 number of clients.
 */
module SecondClients {
  import opened OutputRing
  import opened CommandStream
  import opened Alignment
  import opened Options

  // ------------------------------------------------------------- what a ring may overwrite

  /** Bytes at the offset are overwritten already, or writing alone can overwrite them. */
  predicate Exposed(r: Ring, offset: nat) {
    || r.Start() > offset
    || (r.released > r.Start() && AsInt(r.released - r.Start()) > offset - r.Start())
  }

  /** Short of confirmations 2^63 bytes ahead, that is: something beyond the offset is confirmed. */
  lemma ExposedIffReleased(r: Ring, offset: nat)
    requires r.Safe() && r.lossless && r.released < r.Start() + TWO_63
    ensures Exposed(r, offset) <==> r.released > offset
  {
  }

  /** A distance counted down keeps counting under the signed conversion while it is positive. */
  lemma AsIntCountsDown(d: nat, n: nat)
    requires n <= AsInt(d) && n <= d
    ensures AsInt(d - n) == AsInt(d) - n
  {
    var q, m := d / TWO_64, d % TWO_64;
    assert d == q * TWO_64 + m;
    assert d - n == q * TWO_64 + (m - n);
    assert (d - n) % TWO_64 == m - n;
  }

  lemma ShelteredAppend(r: Ring, offset: nat, p: seq<byte>)
    requires r.Safe() && r.lossless && !Exposed(r, offset)
    ensures !Exposed(r.Append(p), offset)
  {
    var r', n := r.Append(p), r.Accepts(p);
    var moved := r'.Start() - r.Start();
    if moved > 0 {
      assert r.released > r.Start();
      AsIntNeverExceeds(r.released - r.Start());
      AsIntCountsDown(r.released - r.Start(), moved);
    }
  }

  lemma ShelteredRelease(r: Ring, offset: nat, o: nat)
    requires r.Safe() && r.lossless && !Exposed(r, offset) && o <= offset
    ensures !Exposed(r.Release(o), offset)
  {
    if o > r.released {
      AsIntNeverExceeds(o - r.Start());
    }
  }

  /** An exposed offset that is still retained leaves the writer room, and stays exposed. */
  lemma ExposedAppend(r: Ring, offset: nat, x: byte)
    requires r.Safe() && r.lossless && !r.closed && r.capacity > 0 && Exposed(r, offset) && r.Start() <= offset
    ensures r.Append([x]) == r.(hist := r.hist + [x]) && Exposed(r.Append([x]), offset)
  {
    assert r.Room() > 0;
    assert [x][..1] == [x];
    var r' := r.Append([x]);
    if r'.Start() > r.Start() {
      AsIntNeverExceeds(r.released - r.Start());
      AsIntCountsDown(r.released - r.Start(), 1);
    }
  }

  function Appended(r: Ring, x: byte, n: nat): Ring
    decreases n
  {
    if n == 0 then r else Appended(r.Append([x]), x, n - 1)
  }

  /** Writing one byte after another then overwrites it. */
  lemma {:induction false} ExposedIsOverwritten(r: Ring, offset: nat, x: byte) returns (n: nat)
    requires r.Safe() && r.lossless && !r.closed && r.capacity > 0 && Exposed(r, offset)
    ensures Appended(r, x, n).Start() > offset
    decreases Max(0, offset + 1 + r.capacity - |r.hist|)
  {
    if r.Start() > offset {
      n := 0;
    } else {
      ExposedAppend(r, offset, x);
      StepsKeepSafe(r, [x], 0);
      var m := ExposedIsOverwritten(r.Append([x]), offset, x);
      n := m + 1;
    }
  }

  // --------------------------------------------------- a gap only after an early release

  /** Where a handshake under way will let the client go on, as far as it is decided. */
  function Decided(st: Stream, k: Kind): Option<nat> {
    if st.phase.Handshake? then
      if st.phase.stage > (if k.Stdout? then 2 else 3) then Some(st.pumps.Get(k).offset) else None
    else if st.down != [] && st.down[0].Hello? then Some(st.down[0].at.Get(k))
    else None
  }

  /** A replay offset beyond the client's own was caused by a confirmation beyond it. */
  predicate Justified(r: Ring, st: Stream, offset: nat, k: Kind) {
    Decided(st, k).Some? && Decided(st, k).value > offset ==> r.released > offset
  }

  predicate AllJustified(sys: System, c: nat)
    requires c < |sys.clients|
  {
    var cl := sys.clients[c];
    cl.phase.Attaching? && cl.phase.stream < |sys.streams| ==>
      BothJustified(sys.rings, sys.streams[cl.phase.stream], cl)
  }

  predicate GapInv(sys: System) {
    && Inv(sys)
    && sys.rings.out.lossless && sys.rings.err.lossless
    && (forall c :: 0 <= c < |sys.clients| ==> AllJustified(sys, c))
    && (sys.exited.Some? ==> sys.rings.out.closed && sys.rings.err.closed)
    && (sys.forgotten ==> sys.exited.Some?)
  }

  lemma HandshakeJustifies(rings: Pair<Ring>, st: Stream, cl: Client, k: Kind)
    requires rings.out.Safe() && rings.err.Safe() && rings.out.lossless && rings.err.lossless
    requires HandshakeOk(rings, st) && st.asked == cl.offset
    requires Justified(rings.Get(k), st, cl.offset.Get(k), k)
    ensures Justified(Handshaken(rings, st).0.Get(k), Handshaken(rings, st).1, cl.offset.Get(k), k)
  {
    if st.phase.Handshake? {
      if st.phase.stage == 4 {
        AnswerJustifies(rings, st, cl.offset.Get(k), k);
      } else {
        PlacingJustifies(rings, st, cl, k);
      }
    }
  }

  lemma AnswerJustifies(rings: Pair<Ring>, st: Stream, offset: nat, k: Kind)
    requires st.phase == Handshake(4) && st.down == [] && Justified(rings.Get(k), st, offset, k)
    ensures Justified(rings.Get(k), Handshaken(rings, st).1, offset, k) && Handshaken(rings, st).0 == rings
  {
    assert ([] + [Hello(Pair(st.pumps.out.offset, st.pumps.err.offset))])[0].Hello?;
  }

  lemma PlacingJustifies(rings: Pair<Ring>, st: Stream, cl: Client, k: Kind)
    requires rings.out.Safe() && rings.err.Safe() && rings.out.lossless && rings.err.lossless
    requires st.phase.Handshake? && st.phase.stage < 4 && st.asked == cl.offset
    requires Justified(rings.Get(k), st, cl.offset.Get(k), k)
    ensures Justified(Handshaken(rings, st).0.Get(k), Handshaken(rings, st).1, cl.offset.Get(k), k)
  {
  }

  /** After the handshake the answer stays in front until it is received or lost. */
  predicate FrontKept(st: Stream, st': Stream) {
    && (st'.phase.Handshake? <==> st.phase.Handshake?)
    && (st.phase.Handshake? ==> st'.phase == st.phase && st'.pumps == st.pumps)
    && (!st.phase.Handshake? && st'.down != [] ==> st.down != [] && st'.down[0] == st.down[0])
  }

  lemma SendKeepsFront(st: Stream, k: Kind, fails: bool)
    requires st.phase.Handshake? ==> st.pumps.out.held == [] && st.pumps.err.held == []
    requires st.broken || st.down != [] || st.phase.Handshake?
    ensures FrontKept(st, SendPump(st, k, fails))
  {
  }

  lemma ExitKeepsFront(st: Stream, status: int, ok: bool)
    requires st.broken || st.down != [] || st.phase.Handshake?
    ensures FrontKept(st, ReportExit(st, status, ok))
  {
  }

  lemma OtherMovesKeepFront(rings: Pair<Ring>, st: Stream, current: bool, exited: Option<int>, e: StreamEvent)
    requires !e.AttachStep?
    requires st.phase.Handshake? ==> st.pumps.out.held == [] && st.pumps.err.held == []
    requires st.broken || st.down != [] || st.phase.Handshake?
    ensures FrontKept(st, Moved(rings, st, current, exited, e).1)
  {
    match e
    case PumpSend(k, fails) => SendKeepsFront(st, k, fails);
    case SendExit(ok) => if exited.Some? { ExitKeepsFront(st, exited.value, ok); }
    case AttachStep =>
    case _ =>
  }

  lemma MoveNeverRetracts(rings: Pair<Ring>, st: Stream, current: bool, exited: Option<int>, e: StreamEvent)
    ensures
      var rings' := Moved(rings, st, current, exited, e).0;
      rings.out.released <= rings'.out.released && rings.err.released <= rings'.err.released
  {
  }

  lemma MoveJustifies(rings: Pair<Ring>, st: Stream, current: bool, exited: Option<int>, e: StreamEvent,
                      cl: Client, k: Kind)
    requires RingOk(rings.out) && RingOk(rings.err) && rings.out.lossless && rings.err.lossless
    requires StreamOk(rings, st) && cl.phase.Attaching? && Linked(rings, st, cl)
    requires Justified(rings.Get(k), st, cl.offset.Get(k), k)
    ensures
      var (rings', st') := Moved(rings, st, current, exited, e);
      Justified(rings'.Get(k), st', cl.offset.Get(k), k)
  {
    if e.AttachStep? {
      HandshakeJustifies(rings, st, cl, k);
    } else {
      OtherMovesKeepFront(rings, st, current, exited, e);
      MoveNeverRetracts(rings, st, current, exited, e);
    }
  }

  /** Both outputs of a client that waits on a stream. */
  predicate BothJustified(rings: Pair<Ring>, st: Stream, cl: Client) {
    && Justified(rings.out, st, cl.offset.out, Stdout)
    && Justified(rings.err, st, cl.offset.err, Stderr)
  }

  lemma MoveJustifiesBoth(rings: Pair<Ring>, st: Stream, current: bool, exited: Option<int>, e: StreamEvent, cl: Client)
    requires RingOk(rings.out) && RingOk(rings.err) && rings.out.lossless && rings.err.lossless
    requires StreamOk(rings, st) && cl.phase.Attaching? && Linked(rings, st, cl) && BothJustified(rings, st, cl)
    ensures BothJustified(Moved(rings, st, current, exited, e).0, Moved(rings, st, current, exited, e).1, cl)
  {
    MoveJustifies(rings, st, current, exited, e, cl, Stdout);
    MoveJustifies(rings, st, current, exited, e, cl, Stderr);
  }

  lemma StreamStepJustifies(sys: System, s: nat, e: StreamEvent, c: nat)
    requires RingOk(sys.rings.out) && RingOk(sys.rings.err) && sys.rings.out.lossless && sys.rings.err.lossless
    requires s < |sys.streams| && StreamOk(sys.rings, sys.streams[s])
    requires c < |sys.clients| && Attached(sys, c) && AllJustified(sys, c)
    ensures AllJustified(StreamStep(sys, s, e), c)
  {
    var cl, st, mine := sys.clients[c], sys.streams[s], sys.current == Some(s);
    var (rings', st') := Moved(sys.rings, st, mine, sys.exited, e);
    var sys' := StreamStep(sys, s, e);
    assert sys'.rings == rings' && sys'.streams == sys.streams[s := st'] && sys'.clients == sys.clients;
    if cl.phase.Attaching? && cl.phase.stream == s {
      MoveJustifiesBoth(sys.rings, st, mine, sys.exited, e, cl);
    } else {
      MoveNeverRetracts(sys.rings, st, mine, sys.exited, e);
    }
  }

  lemma StreamStepKeepsGapInv(sys: System, s: nat, e: StreamEvent)
    requires GapInv(sys) && s < |sys.streams|
    ensures GapInv(StreamStep(sys, s, e))
  {
    StreamStepKeepsInv(sys, s, e);
    MovedCarries(sys.rings, sys.streams[s], sys.current == Some(s), sys.exited, e);
    forall c | 0 <= c < |sys.clients| ensures AllJustified(StreamStep(sys, s, e), c) {
      assert Attached(sys, c);
      StreamStepJustifies(sys, s, e, c);
    }
  }

  lemma RingStepKeepsGapInv(sys: System, k: Kind, e: RingEvent)
    requires GapInv(sys)
    ensures GapInv(Step(sys, OnRing(k, e)))
  {
    var sys' := Step(sys, OnRing(k, e));
    StepKeepsInv(sys, OnRing(k, e));
    RingStepGrows(sys.rings.Get(k), e);
    forall c | 0 <= c < |sys'.clients| ensures AllJustified(sys', c) {
      assert AllJustified(sys, c);
    }
  }

  /** A client that still waits for its answer has not changed what it waits for. */
  lemma WaitingStays(st: Stream, cl: Client, s: nat, e: ClientEvent)
    requires cl.phase == Attaching(s) || cl.phase == Reading(s)
    ensures
      var (st', cl') := Together(st, cl, s, e);
      cl'.phase.Attaching? ==>
        && cl'.phase == cl.phase && cl'.offset == cl.offset
        && st'.phase == st.phase && st'.pumps == st.pumps && st'.down == st.down
  {
  }

  lemma TogetherJustifies(sys: System, c: nat, s: nat, e: ClientEvent, d: nat)
    requires c < |sys.clients| && StreamOf(sys.clients[c]) == Some(s) && s < |sys.streams| && !e.Attach?
    requires d < |sys.clients| && AllJustified(sys, d)
    requires d != c ==> StreamOf(sys.clients[d]) != Some(s)
    ensures AllJustified(ClientStep(sys, c, e), d)
  {
    WaitingStays(sys.streams[s], sys.clients[c], s, e);
  }

  /** Two clients are never on one stream. */
  lemma StreamsAreOwned(sys: System, c: nat, d: nat)
    requires c < |sys.clients| && d < |sys.clients| && c != d && Attached(sys, c) && Attached(sys, d)
    requires StreamOf(sys.clients[c]).Some?
    ensures StreamOf(sys.clients[d]) != StreamOf(sys.clients[c])
  {
  }

  lemma AttachJustifies(sys: System, c: nat, d: nat)
    requires c < |sys.clients| && d < |sys.clients| && AllJustified(sys, d) && Attached(sys, d)
    ensures AllJustified(Attaches(sys, c), d)
  {
  }

  lemma ClientStepJustifies(sys: System, c: nat, e: ClientEvent, d: nat)
    requires c < |sys.clients| && Attached(sys, c)
    requires d < |sys.clients| && Attached(sys, d) && AllJustified(sys, d)
    ensures AllJustified(ClientStep(sys, c, e), d)
  {
    var on := StreamOf(sys.clients[c]);
    if e.Attach? {
      AttachJustifies(sys, c, d);
    } else if on.Some? {
      if c != d {
        StreamsAreOwned(sys, c, d);
      }
      TogetherJustifies(sys, c, on.value, e, d);
    }
  }

  lemma ClientStepKeepsGapInv(sys: System, c: nat, e: ClientEvent)
    requires GapInv(sys) && c < |sys.clients|
    ensures GapInv(ClientStep(sys, c, e))
  {
    ClientStepKeepsInv(sys, c, e);
    forall d | 0 <= d < |sys.clients| ensures AllJustified(ClientStep(sys, c, e), d) {
      assert Attached(sys, c) && Attached(sys, d);
      ClientStepJustifies(sys, c, e, d);
    }
  }

  lemma StepKeepsGapInv(sys: System, e: Event)
    requires GapInv(sys)
    ensures GapInv(Step(sys, e))
  {
    match e {
      case OnRing(k, r) => RingStepKeepsGapInv(sys, k, r);
      case OnStream(s, e) => if s < |sys.streams| { StreamStepKeepsGapInv(sys, s, e); }
      case OnClient(c, e) => if c < |sys.clients| { ClientStepKeepsGapInv(sys, c, e); }
      case _ =>
        StepKeepsInv(sys, e);
        forall c | 0 <= c < |Step(sys, e).clients| ensures AllJustified(Step(sys, e), c) {
          assert c < |sys.clients| ==> AllJustified(sys, c);
        }
    }
  }

  lemma {:induction false} RunKeepsGapInv(sys: System, events: seq<Event>)
    requires GapInv(sys)
    ensures GapInv(Run(sys, events))
    decreases |events|
  {
    if events != [] {
      StepKeepsGapInv(sys, events[0]);
      RunKeepsGapInv(Step(sys, events[0]), events[1..]);
    }
  }

  lemma GapReachable(capacity: Pair<nat>, events: seq<Event>)
    requires GoodCapacity(capacity)
    ensures GapInv(Run(Init(capacity, true), events))
  {
    InitInv(capacity, true);
    RunKeepsGapInv(Init(capacity, true), events);
  }

  lemma GapMeansLateAnswer(st: Stream, cl: Client, s: nat, e: ClientEvent, k: Kind)
    requires Together(st, cl, s, e).1.gaps.Get(k) > cl.gaps.Get(k)
    ensures cl.phase.Attaching? && st.down != [] && st.down[0].Hello? && st.down[0].at.Get(k) > cl.offset.Get(k)
  {
  }

  lemma GapMeansReleased(sys: System, c: nat, e: Event, k: Kind)
    requires c < |sys.clients| && Attached(sys, c) && AllJustified(sys, c)
    requires StreamOf(sys.clients[c]).Some? ==> StreamOk(sys.rings, sys.streams[StreamOf(sys.clients[c]).value])
    ensures c < |Step(sys, e).clients|
    ensures Step(sys, e).clients[c].gaps.Get(k) > sys.clients[c].gaps.Get(k) ==>
      sys.rings.Get(k).released > sys.clients[c].offset.Get(k)
  {
    if e.OnClient? && e.c == c && StreamOf(sys.clients[c]).Some? && !e.client.Attach? {
      var s := StreamOf(sys.clients[c]).value;
      var st := sys.streams[s];
      if Together(st, sys.clients[c], s, e.client).1.gaps.Get(k) > sys.clients[c].gaps.Get(k) {
        GapMeansLateAnswer(st, sys.clients[c], s, e.client, k);
        assert Decided(st, k) == Some(st.down[0].at.Get(k));
      }
    }
  }

  /** With any number of clients, whatever they ask for and confirm: a step can give a client a gap
      only while something beyond what that client has is confirmed. */
  lemma GapOnlyAfterEarlyRelease(capacity: Pair<nat>, events: seq<Event>, e: Event, c: nat, k: Kind)
    requires GoodCapacity(capacity)
    requires c < |Run(Init(capacity, true), events).clients|
    ensures
      var sys := Run(Init(capacity, true), events);
      var sys' := Step(sys, e);
      && c < |sys'.clients|
      && (sys'.clients[c].gaps.Get(k) > sys.clients[c].gaps.Get(k) ==>
            sys.rings.Get(k).released > sys.clients[c].offset.Get(k))
  {
    GapReachable(capacity, events);
    assert Attached(Run(Init(capacity, true), events), c);
    GapMeansReleased(Run(Init(capacity, true), events), c, e, k);
  }

  // ------------------------------------------------------------------------ a client's own steps

  /** Writes, and the steps of one client's attach: its own, and those of streams opened from now on. */
  predicate Own(e: Event, c: nat, from: nat) {
    || (e.OnRing? && e.ring.Write?)
    || (e.OnClient? && e.c == c && (e.client.Attach? || e.client.Recv?))
    || (e.OnStream? && e.s >= from && e.stream.AttachStep?)
  }

  predicate AllOwn(es: seq<Event>, c: nat, from: nat) {
    forall i :: 0 <= i < |es| ==> Own(es[i], c, from)
  }

  lemma AllOwnAppend(a: seq<Event>, b: seq<Event>, c: nat, from: nat)
    requires AllOwn(a, c, from) && AllOwn(b, c, from)
    ensures AllOwn(a + b, c, from)
  {
  }

  // ------------------------------------------------------------------- an attach, undisturbed

  /** The five steps of an uninterrupted attach handshake. */
  lemma HandshakeAt(sys: System, s: nat) returns (done: System, events: seq<Event>)
    requires s < |sys.streams|
    requires sys.streams[s] == OpenStream(sys.streams[s].owner, sys.streams[s].asked)
    ensures done == Run(sys, events) && events == seq(5, _ => OnStream(s, AttachStep))
    ensures done.clients == sys.clients && |done.streams| == |sys.streams|
    ensures
      var st := sys.streams[s];
      var at := Pair(Max(st.asked.out, sys.rings.out.Start()), Max(st.asked.err, sys.rings.err.Start()));
      && done.rings == Pair(sys.rings.out.Release(st.asked.out), sys.rings.err.Release(st.asked.err))
      && done.streams[s].down == [Hello(at)] && !done.streams[s].broken
  {
    var e := OnStream(s, AttachStep);
    var s2 := Step(Step(sys, e), e);
    assert s2.streams[s] == sys.streams[s].(phase := Handshake(2));
    var s4 := Step(Step(s2, e), e);
    assert s4.streams[s].phase == Handshake(4) && s4.streams[s].down == [] && !s4.streams[s].broken;
    done := Step(s4, e);
    events := seq(5, _ => e);
    assert events == [e] + ([e] + ([e] + ([e] + ([e] + []))));
    RunOne(sys, e, [e] + ([e] + ([e] + ([e] + []))));
    RunOne(Step(sys, e), e, [e] + ([e] + ([e] + [])));
    RunOne(s2, e, [e] + ([e] + []));
    RunOne(Step(s2, e), e, [e] + []);
    RunOne(s4, e, []);
  }

  /** The next undisturbed attach of a client that was there before reports exactly the bytes that
      were overwritten beyond its offset, in either ring mode: a gap, just when more than a capacity
      was written past it. */
  lemma NextAttachReportsOverwritten(sys: System, c: nat) returns (events: seq<Event>)
    requires c < |sys.clients| && sys.clients[c].phase.Detached? && sys.clients[c].welcomed && !sys.forgotten
    ensures AllOwn(events, c, |sys.streams|)
    ensures
      var cl, done := sys.clients[c], Run(sys, events);
      && c < |done.clients| && done.clients[c].phase == Reading(|sys.streams|)
      && (forall k :: done.clients[c].gaps.Get(k) == cl.gaps.Get(k) + Max(0, sys.rings.Get(k).Start() - cl.offset.Get(k)))
      && (forall k :: done.clients[c].gaps.Get(k) > cl.gaps.Get(k) <==>
            |sys.rings.Get(k).hist| > cl.offset.Get(k) + sys.rings.Get(k).capacity)
  {
    var s := |sys.streams|;
    var e0, e9 := OnClient(c, Attach), OnClient(c, Recv(true));
    var s1 := Step(sys, e0);
    assert s1.streams[s] == OpenStream(c, sys.clients[c].offset);
    var s2, h := HandshakeAt(s1, s);
    var s3 := Step(s2, e9);
    events := [e0] + (h + ([e9] + []));
    RunOne(s2, e9, []);
    RunAll(s1, h, [e9] + []);
    RunOne(sys, e0, h + ([e9] + []));
  }

  // ------------------------------------------------------------------- a gap that can be made

  lemma {:induction false} RunWrites(sys: System, k: Kind, x: byte, n: nat) returns (events: seq<Event>)
    ensures AllOwn(events, 0, 0) && forall i :: 0 <= i < |events| ==> events[i].OnRing? && events[i].ring.Write?
    ensures Run(sys, events) == sys.(rings := sys.rings.Set(k, Appended(sys.rings.Get(k), x, n)))
    decreases n
  {
    if n == 0 {
      events := [];
      assert sys.rings.Set(k, sys.rings.Get(k)) == sys.rings;
    } else {
      var e := OnRing(k, Write([x]));
      var rest := RunWrites(Step(sys, e), k, x, n - 1);
      events := [e] + rest;
      RunOne(sys, e, rest);
    }
  }

  ghost predicate CausesGap(sys: System, es: seq<Event>, c: nat, k: Kind)
    requires c < |sys.clients|
  {
    && AllOwn(es, c, |sys.streams|)
    && c < |Run(sys, es).clients| && Run(sys, es).clients[c].gaps.Get(k) > sys.clients[c].gaps.Get(k)
  }

  lemma ExposedCausesGap(sys: System, c: nat, k: Kind) returns (events: seq<Event>)
    requires c < |sys.clients| && sys.clients[c].phase.Detached? && sys.clients[c].welcomed && !sys.forgotten
    requires RingOk(sys.rings.Get(k)) && sys.rings.Get(k).lossless && !sys.rings.Get(k).closed
    requires Exposed(sys.rings.Get(k), sys.clients[c].offset.Get(k))
    ensures CausesGap(sys, events, c, k)
  {
    var n := ExposedIsOverwritten(sys.rings.Get(k), sys.clients[c].offset.Get(k), 0);
    var a := RunWrites(sys, k, 0, n);
    var sys' := Run(sys, a);
    assert sys'.rings.Get(k) == Appended(sys.rings.Get(k), 0, n);
    var b := NextAttachReportsOverwritten(sys', c);
    events := a + b;
    RunAll(sys, a, b);
    AllOwnAppend(a, b, c, |sys.streams|);
  }

  // --------------------------------------------------------------- a gap that cannot be made

  /** The client's one attach has not got past its own offset, and cannot. */
  predicate HeldAt(st: Stream, offset: Pair<nat>, k: Kind) {
    && st.asked == offset && !st.broken
    && (if st.phase.Handshake?
        then st.down == [] && st.phase.stage <= 4
             && (st.phase.stage > (if k.Stdout? then 2 else 3) ==> st.pumps.Get(k).offset == offset.Get(k))
        else |st.down| <= 1 && (st.down != [] ==> st.down[0].Hello? && st.down[0].at.Get(k) == offset.Get(k)))
  }

  predicate Sheltered(sys: System, c: nat, k: Kind, from: nat, offset: Pair<nat>, gap: nat) {
    && c < |sys.clients| && sys.clients[c].welcomed && sys.clients[c].gaps.Get(k) == gap
    && sys.rings.Get(k).Safe() && sys.rings.Get(k).lossless && !Exposed(sys.rings.Get(k), offset.Get(k))
    && match sys.clients[c].phase
       case Detached => sys.clients[c].offset == offset && |sys.streams| == from
       case Attaching(s) =>
         sys.clients[c].offset == offset && s == from && |sys.streams| == from + 1 && HeldAt(sys.streams[from], offset, k)
       case Reading(s) => s == from && |sys.streams| == from + 1 && sys.streams[from].down == []
                          && !sys.streams[from].phase.Handshake?
       case Done(_) => |sys.streams| == from
  }

  lemma ShelteredHandshake(rings: Pair<Ring>, st: Stream, offset: Pair<nat>, k: Kind)
    requires HeldAt(st, offset, k)
    requires rings.Get(k).Safe() && rings.Get(k).lossless && !Exposed(rings.Get(k), offset.Get(k))
    ensures
      var (rings', st') := Handshaken(rings, st);
      && HeldAt(st', offset, k)
      && rings'.Get(k).Safe() && rings'.Get(k).lossless && !Exposed(rings'.Get(k), offset.Get(k))
  {
    ShelteredRelease(rings.Get(k), offset.Get(k), offset.Get(k));
  }

  lemma ShelteredStep(sys: System, e: Event, c: nat, k: Kind, from: nat, offset: Pair<nat>, gap: nat)
    requires Sheltered(sys, c, k, from, offset, gap) && Own(e, c, from)
    ensures Sheltered(Step(sys, e), c, k, from, offset, gap)
  {
    match e {
      case OnRing(j, r) =>
        ShelteredAppend(sys.rings.Get(k), offset.Get(k), r.p);
        StepsKeepSafe(sys.rings.Get(k), r.p, 0);
      case OnStream(s, _) =>
        if s < |sys.streams| {
          ShelteredStream(sys, s, c, k, from, offset, gap);
        }
      case OnClient(_, r) => ShelteredClient(sys, r, c, k, from, offset, gap);
      case _ =>
    }
  }

  lemma ShelteredStream(sys: System, s: nat, c: nat, k: Kind, from: nat, offset: Pair<nat>, gap: nat)
    requires Sheltered(sys, c, k, from, offset, gap) && from <= s < |sys.streams|
    ensures Sheltered(StreamStep(sys, s, AttachStep), c, k, from, offset, gap)
  {
    if sys.clients[c].phase.Attaching? {
      ShelteredHandshake(sys.rings, sys.streams[s], offset, k);
    }
  }

  lemma ShelteredClient(sys: System, e: ClientEvent, c: nat, k: Kind, from: nat, offset: Pair<nat>, gap: nat)
    requires Sheltered(sys, c, k, from, offset, gap) && (e.Attach? || e.Recv?)
    ensures Sheltered(ClientStep(sys, c, e), c, k, from, offset, gap)
  {
  }

  lemma {:induction false} ShelteredRun(sys: System, es: seq<Event>, c: nat, k: Kind, from: nat, offset: Pair<nat>, gap: nat)
    requires Sheltered(sys, c, k, from, offset, gap) && AllOwn(es, c, from)
    ensures Sheltered(Run(sys, es), c, k, from, offset, gap)
    decreases |es|
  {
    if es != [] {
      assert Own(es[0], c, from);
      ShelteredStep(sys, es[0], c, k, from, offset, gap);
      ShelteredRun(Step(sys, es[0]), es[1..], c, k, from, offset, gap);
    }
  }

  // -------------------------------------------------------------------------------- theorems

  /** When a client of a lossless command can lose output, over runs with any number of clients: a
      client that is away from an open ring can come back to a gap, by nothing but further writing and
      its own attach, exactly when bytes at its offset are overwritten or released to be. */
  lemma LosesOutputIff(capacity: Pair<nat>, past: seq<Event>, c: nat, k: Kind)
    requires GoodCapacity(capacity)
    requires
      var sys := Run(Init(capacity, true), past);
      c < |sys.clients| && sys.clients[c].welcomed && sys.clients[c].phase.Detached? && !sys.rings.Get(k).closed
    ensures
      var sys := Run(Init(capacity, true), past);
      (exists es :: CausesGap(sys, es, c, k)) <==> Exposed(sys.rings.Get(k), sys.clients[c].offset.Get(k))
  {
    var sys := Run(Init(capacity, true), past);
    GapReachable(capacity, past);
    if Exposed(sys.rings.Get(k), sys.clients[c].offset.Get(k)) {
      var es := ExposedCausesGap(sys, c, k);
    } else {
      var cl := sys.clients[c];
      forall es | AllOwn(es, c, |sys.streams|) ensures !CausesGap(sys, es, c, k) {
        ShelteredRun(sys, es, c, k, |sys.streams|, cl.offset, cl.gaps.Get(k));
      }
    }
  }

  /** Short of confirmations 2^63 bytes ahead, that is exactly when more was confirmed than the client
      has: by another client's confirmation or attach, or by an attach of its own that asked too much. */
  lemma LosesOutputIffReleased(capacity: Pair<nat>, past: seq<Event>, c: nat, k: Kind)
    requires GoodCapacity(capacity)
    requires
      var sys := Run(Init(capacity, true), past);
      && c < |sys.clients| && sys.clients[c].welcomed && sys.clients[c].phase.Detached? && !sys.rings.Get(k).closed
      && sys.rings.Get(k).released < TWO_63
    ensures
      var sys := Run(Init(capacity, true), past);
      (exists es :: CausesGap(sys, es, c, k)) <==> sys.rings.Get(k).released > sys.clients[c].offset.Get(k)
  {
    var sys := Run(Init(capacity, true), past);
    LosesOutputIff(capacity, past, c, k);
    GapReachable(capacity, past);
    ExposedIffReleased(sys.rings.Get(k), sys.clients[c].offset.Get(k));
  }

  // ---------------------------------------------------------------------------- it happens

  /** At every capacity: the command fills its ring, the first client's stream breaks before anything
      is read, and a second client attaches having seen one byte. That one byte is released. */
  lemma SecondClientReleases(capacity: Pair<nat>, p: seq<byte>) returns (events: seq<Event>)
    requires GoodCapacity(capacity) && |p| == capacity.out
    ensures
      var sys := Run(Init(capacity, true), events);
      && sys.rings.out == Ring(p, capacity.out, true, 1, false)
      && |sys.clients| == 2
      && sys.clients[0] == Init(capacity, true).clients[0].(phase := Detached)
  {
    var s0 := Init(capacity, true);
    var e1, e2, e3 := OnRing(Stdout, Write(p)), OnStream(0, Break(0, 0)), OnClient(0, RecvError(false));
    var e4, e5, e6 := Join(Pair(1, 0)), OnClient(1, Attach), OnStream(1, AttachStep);
    var s1 := Step(s0, e1);
    assert p[..|p|] == p && [] + p == p;
    assert s1.rings.out == Ring(p, capacity.out, true, 0, false);
    var s3 := Step(Step(s1, e2), e3);
    assert s3.clients == [s0.clients[0].(phase := Detached)];
    var s5 := Step(Step(s3, e4), e5);
    assert s5.streams[1] == OpenStream(1, Pair(1, 0));
    var t := [e4] + ([e5] + ([e6] + []));
    events := [e1] + ([e2] + ([e3] + t));
    RunOne(s0, e1, [e2] + ([e3] + t));
    RunOne(s1, e2, [e3] + t);
    RunOne(Step(s1, e2), e3, t);
    RunOne(s3, e4, [e5] + ([e6] + []));
    RunOne(Step(s3, e4), e5, [e6] + []);
    RunOne(s5, e6, []);
  }

  /** So at every capacity, and whatever was written, a lossless command can lose output of its first
      client. */
  lemma SecondClientCausesGap(capacity: Pair<nat>, p: seq<byte>) returns (events: seq<Event>)
    requires GoodCapacity(capacity) && |p| == capacity.out
    ensures
      var sys := Run(Init(capacity, true), events);
      && |sys.clients| == 2 && sys.clients[0].gaps.out > 0
      && p <= sys.rings.out.hist && sys.rings.out.lossless
  {
    var past := SecondClientReleases(capacity, p);
    var sys := Run(Init(capacity, true), past);
    LosesOutputIffReleased(capacity, past, 0, Stdout);
    var es :| CausesGap(sys, es, 0, Stdout);
    events := past + es;
    RunAll(Init(capacity, true), past, es);
    GapReachable(capacity, past);
    OwnRunGrows(sys, es, 0, |sys.streams|);
  }

  lemma {:induction false} OwnRunGrows(sys: System, es: seq<Event>, c: nat, from: nat)
    requires Inv(sys) && AllOwn(es, c, from)
    ensures Grows(sys.rings, Run(sys, es).rings) && |Run(sys, es).clients| == |sys.clients|
    decreases |es|
  {
    if es != [] {
      assert Own(es[0], c, from);
      StepKeepsInv(sys, es[0]);
      OwnStepGrows(sys, es[0], c, from);
      OwnRunGrows(Step(sys, es[0]), es[1..], c, from);
    }
  }

  lemma OwnStepGrows(sys: System, e: Event, c: nat, from: nat)
    requires Inv(sys) && Own(e, c, from)
    ensures Grows(sys.rings, Step(sys, e).rings) && |Step(sys, e).clients| == |sys.clients|
  {
    match e {
      case OnRing(k, r) => RingStepGrows(sys.rings.Get(k), r);
      case OnStream(s, _) =>
        if s < |sys.streams| {
          HandshakenRings(sys.rings, sys.streams[s]);
          assert Step(sys, e).rings == Handshaken(sys.rings, sys.streams[s]).0;
        }
      case OnClient(_, r) => assert Step(sys, e).rings == sys.rings;
      case _ =>
    }
  }
}
