/**
 What a lossless command promises its one client: nothing is dropped, nothing is repeated, and the
 exit status comes after everything.
 */
module Lossless {
  import opened OutputRing
  import opened CommandStream
  import opened Alignment
  import opened Options

  // -------------------------------------------------------------------------- definitions

  /** Everything handed to the consumer, in order. */
  function Joined(got: seq<Chunk>): seq<byte>
    decreases |got|
  {
    if got == [] then [] else Joined(got[..|got| - 1]) + got[|got| - 1].bytes
  }

  predicate AtMost(a: Pair<nat>, b: Pair<nat>) {
    a.out <= b.out && a.err <= b.err
  }

  /** Nothing is confirmed that the client has not delivered. */
  predicate Honest(r: Request, offset: Pair<nat>) {
    match r
    case Ack(at) => AtMost(at, offset)
    case AckRest(err) => err <= offset.err
    case Input => true
  }

  predicate StreamSide(st: Stream, offset: Pair<nat>) {
    && AtMost(st.asked, offset)
    && (forall i :: 0 <= i < |st.up| ==> Honest(st.up[i], offset))
  }

  predicate RingSide(rings: Pair<Ring>, offset: Pair<nat>) {
    && rings.out.lossless && rings.err.lossless
    && rings.out.released <= offset.out <= |rings.out.hist|
    && rings.err.released <= offset.err <= |rings.err.hist|
  }

  predicate ClientSide(rings: Pair<Ring>, cl: Client) {
    && cl.welcomed && cl.gaps == Pair(0, 0)
    && RingSide(rings, cl.offset)
    && Joined(cl.got.out) == rings.out.hist[..cl.offset.out]
    && Joined(cl.got.err) == rings.err.hist[..cl.offset.err]
  }

  /** An attach in progress will replay from exactly where the client stands. */
  predicate Exact(st: Stream, cl: Client) {
    cl.phase.Attaching? ==>
      && (st.phase.Handshake? ==>
            && (st.phase.stage > 2 ==> st.pumps.out.offset == cl.offset.out)
            && (st.phase.stage > 3 ==> st.pumps.err.offset == cl.offset.err))
      && (st.down != [] ==> st.down[0].Hello? && st.down[0].at == cl.offset)
  }

  /** What will be confirmed once the daemon has taken every queued request. */
  function Settle(released: Pair<nat>, up: seq<Request>): Pair<nat>
    decreases |up|
  {
    if up == [] then released
    else
      match up[0]
      case Ack(at) => Settle(Pair(Max(released.out, at.out), Max(released.err, at.err)), up[1..])
      case AckRest(err) => Settle(Pair(released.out, Max(released.err, err)), up[1..])
      case Input => Settle(released, up[1..])
  }

  function Released(rings: Pair<Ring>): Pair<nat> {
    Pair(rings.out.released, rings.err.released)
  }

  /** On a stream that can still carry confirmations, less than one confirmation is outstanding. */
  predicate AckSide(rings: Pair<Ring>, st: Stream, cl: Client) {
    cl.phase.Reading? && !st.broken && !st.sendClosed ==>
      var settled := Total(Settle(Released(rings), st.up));
      cl.acked <= settled && Total(cl.offset) < settled + ACK_EVERY
  }

  predicate Paired(rings: Pair<Ring>, st: Stream, cl: Client) {
    Exact(st, cl) && AckSide(rings, st, cl)
  }

  predicate LosslessInv(sys: System) {
    && Inv(sys)
    && |sys.clients| == 1
    && ClientSide(sys.rings, sys.clients[0])
    && (forall s :: 0 <= s < |sys.streams| ==> StreamSide(sys.streams[s], sys.clients[0].offset))
    && (StreamOf(sys.clients[0]).Some? ==>
          StreamOf(sys.clients[0]).value < |sys.streams| &&
          Paired(sys.rings, sys.streams[StreamOf(sys.clients[0]).value], sys.clients[0]))
  }

  // ----------------------------------------------------------------------- facts on settling

  lemma {:induction false} SettleMonotone(a: Pair<nat>, b: Pair<nat>, up: seq<Request>)
    requires AtMost(a, b)
    ensures AtMost(a, Settle(a, up)) && AtMost(Settle(a, up), Settle(b, up))
    decreases |up|
  {
    if up != [] {
      match up[0] {
        case Ack(at) =>
          SettleMonotone(Pair(Max(a.out, at.out), Max(a.err, at.err)), Pair(Max(b.out, at.out), Max(b.err, at.err)), up[1..]);
        case AckRest(err) =>
          SettleMonotone(Pair(a.out, Max(a.err, err)), Pair(b.out, Max(b.err, err)), up[1..]);
        case Input =>
          SettleMonotone(a, b, up[1..]);
      }
    }
  }

  lemma {:induction false} SettleAppend(a: Pair<nat>, up: seq<Request>, r: Request)
    ensures Settle(a, up + [r]) == Settle(Settle(a, up), [r])
    decreases |up|
  {
    if up == [] {
      assert up + [r] == [r];
    } else {
      assert (up + [r])[1..] == up[1..] + [r];
      match up[0] {
        case Ack(at) => SettleAppend(Pair(Max(a.out, at.out), Max(a.err, at.err)), up[1..], r);
        case AckRest(err) => SettleAppend(Pair(a.out, Max(a.err, err)), up[1..], r);
        case Input => SettleAppend(a, up[1..], r);
      }
    }
  }

  lemma SettleOne(a: Pair<nat>, at: Pair<nat>)
    ensures AtMost(at, Settle(a, [Ack(at)])) && AtMost(a, Settle(a, [Ack(at)]))
    ensures Settle(a, [Input]) == a
  {
    assert [Ack(at)][1..] == [];
    assert [Input][1..] == [];
  }

  /** Taking a request moves it from the queue into the rings and changes nothing overall. */
  lemma TakeInputSettles(rings: Pair<Ring>, st: Stream)
    ensures
      var (rings', st') := TakeInput(rings, st);
      Settle(Released(rings'), st'.up) == Settle(Released(rings), st.up)
  {
    var (rings', st') := TakeInput(rings, st);
    if !st.inputDone && !st.phase.Handshake? && st.up != [] && st.up[0].Ack? {
      assert st'.up[1..] == st.up[1..];
    }
  }

  // -------------------------------------------------------------------- steps in isolation

  /** Rings grow with the confirmed offsets still honest. */
  predicate HonestGrowth(rings: Pair<Ring>, rings': Pair<Ring>, offset: Pair<nat>) {
    && Grows(rings, rings')
    && AtMost(Released(rings'), offset)
  }

  lemma ClientSideGrows(rings: Pair<Ring>, rings': Pair<Ring>, cl: Client)
    requires ClientSide(rings, cl) && HonestGrowth(rings, rings', cl.offset)
    ensures ClientSide(rings', cl)
  {
    assert rings'.out.hist[..cl.offset.out] == rings.out.hist[..cl.offset.out];
    assert rings'.err.hist[..cl.offset.err] == rings.err.hist[..cl.offset.err];
  }

  lemma PairedGrows(rings: Pair<Ring>, rings': Pair<Ring>, st: Stream, cl: Client)
    requires Paired(rings, st, cl) && Grows(rings, rings')
    ensures Paired(rings', st, cl)
  {
    SettleMonotone(Released(rings), Released(rings'), st.up);
  }

  /** A new state of one stream keeps what the lossless argument needs of it. */
  predicate Fair(rings: Pair<Ring>, st: Stream, rings': Pair<Ring>, st': Stream, cl: Client) {
    && HonestGrowth(rings, rings', cl.offset)
    && StreamSide(st', cl.offset)
    && (Paired(rings, st, cl) && Linked(rings, st, cl) ==> Paired(rings', st', cl))
  }

  lemma HandshakeIsExact(rings: Pair<Ring>, st: Stream, cl: Client)
    requires RingOk(rings.out) && RingOk(rings.err) && StreamOk(rings, st)
    requires RingSide(rings, cl.offset) && Exact(st, cl) && Linked(rings, st, cl)
    ensures Exact(Handshaken(rings, st).1, cl)
  {
  }

  lemma HandshakeConfirms(rings: Pair<Ring>, st: Stream, offset: Pair<nat>)
    requires AtMost(Released(rings), offset) && AtMost(st.asked, offset)
    ensures AtMost(Released(Handshaken(rings, st).0), offset)
    ensures
      var st' := Handshaken(rings, st).1;
      st'.up == st.up && st'.asked == st.asked && st'.broken == st.broken && st'.sendClosed == st.sendClosed
  {
  }

  lemma FairHandshake(rings: Pair<Ring>, st: Stream, cl: Client)
    requires RingOk(rings.out) && RingOk(rings.err) && StreamOk(rings, st)
    requires RingSide(rings, cl.offset) && StreamSide(st, cl.offset)
    ensures Fair(rings, st, Handshaken(rings, st).0, Handshaken(rings, st).1, cl)
  {
    var (rings', st') := Handshaken(rings, st);
    HandshakenRings(rings, st);
    HandshakeConfirms(rings, st, cl.offset);
    if Paired(rings, st, cl) && Linked(rings, st, cl) {
      HandshakeIsExact(rings, st, cl);
      PairedGrows(rings, rings', st, cl);
    }
  }

  lemma FairInput(rings: Pair<Ring>, st: Stream, cl: Client)
    requires RingOk(rings.out) && RingOk(rings.err)
    requires RingSide(rings, cl.offset) && StreamSide(st, cl.offset)
    ensures Fair(rings, st, TakeInput(rings, st).0, TakeInput(rings, st).1, cl)
  {
    var (rings', st') := TakeInput(rings, st);
    TakeInputRings(rings, st);
    TakeInputSettles(rings, st);
    if !st.inputDone && !st.phase.Handshake? && st.up != [] {
      assert Honest(st.up[0], cl.offset);
      forall i | 0 <= i < |st'.up|
        ensures Honest(st'.up[i], cl.offset)
      {
        if st.up[0].Ack? {
          if i > 0 {
            assert st'.up[i] == st.up[i];
          }
        } else {
          assert st'.up[i] == st.up[i + 1];
        }
      }
    }
  }

  lemma FairBreak(rings: Pair<Ring>, st: Stream, keepDown: nat, keepUp: nat, cl: Client)
    requires StreamSide(st, cl.offset) && AtMost(Released(rings), cl.offset)
    ensures Fair(rings, st, rings, BreakStream(st, keepDown, keepUp), cl)
  {
  }

  lemma FairRead(rings: Pair<Ring>, st: Stream, k: Kind, cl: Client)
    requires StreamOk(rings, st) && StreamSide(st, cl.offset) && AtMost(Released(rings), cl.offset)
    ensures Fair(rings, st, rings, ReadPump(rings, st, k), cl)
  {
  }

  lemma FairSend(rings: Pair<Ring>, st: Stream, k: Kind, fails: bool, cl: Client)
    requires StreamOk(rings, st) && StreamSide(st, cl.offset) && AtMost(Released(rings), cl.offset)
    ensures Fair(rings, st, rings, SendPump(st, k, fails), cl)
  {
  }

  lemma FairExit(rings: Pair<Ring>, st: Stream, exited: Option<int>, ok: bool, cl: Client)
    requires StreamOk(rings, st) && StreamSide(st, cl.offset) && AtMost(Released(rings), cl.offset)
    ensures Fair(rings, st, rings, if exited.Some? then ReportExit(st, exited.value, ok) else st, cl)
  {
  }

  /** Flags and phases that neither the queues nor the pumps depend on. */
  lemma FairSame(rings: Pair<Ring>, st: Stream, st': Stream, cl: Client)
    requires StreamSide(st, cl.offset) && AtMost(Released(rings), cl.offset)
    requires st'.asked == st.asked && st'.up == st.up && st'.down == st.down
    requires st'.broken == st.broken && st'.sendClosed == st.sendClosed
    requires st.phase.Handshake? || st'.phase.Handshake? ==> st'.phase == st.phase && st'.pumps == st.pumps
    ensures Fair(rings, st, rings, st', cl)
  {
  }

  /** The moves that only set flags and phases. */
  lemma FairFlags(rings: Pair<Ring>, st: Stream, current: bool, exited: Option<int>, e: StreamEvent, cl: Client)
    requires e.PumpCancel? || e.StopServe? || e.ServeReturn? || e.ClientGone? || e.InputLeave?
    requires RingSide(rings, cl.offset) && StreamSide(st, cl.offset)
    ensures Moved(rings, st, current, exited, e).0 == rings
    ensures Fair(rings, st, rings, Moved(rings, st, current, exited, e).1, cl)
  {
    FairSame(rings, st, Moved(rings, st, current, exited, e).1, cl);
  }

  /** Every move of a stream is fair to the one client. */
  lemma FairMoved(rings: Pair<Ring>, st: Stream, current: bool, exited: Option<int>, e: StreamEvent, cl: Client)
    requires RingOk(rings.out) && RingOk(rings.err) && StreamOk(rings, st)
    requires RingSide(rings, cl.offset) && StreamSide(st, cl.offset)
    ensures Fair(rings, st, Moved(rings, st, current, exited, e).0, Moved(rings, st, current, exited, e).1, cl)
  {
    match e {
      case AttachStep => FairHandshake(rings, st, cl);
      case InputStep => FairInput(rings, st, cl);
      case Break(keepDown, keepUp) => FairBreak(rings, st, keepDown, keepUp, cl);
      case PumpRead(k) => FairRead(rings, st, k, cl);
      case PumpSend(k, fails) => FairSend(rings, st, k, fails, cl);
      case SendExit(ok) => FairExit(rings, st, exited, ok, cl);
      case _ => FairFlags(rings, st, current, exited, e, cl);
    }
  }

  lemma StreamStepKeepsLossless(sys: System, s: nat, e: StreamEvent)
    requires LosslessInv(sys) && s < |sys.streams|
    ensures LosslessInv(StreamStep(sys, s, e))
  {
    var sys' := StreamStep(sys, s, e);
    var cl := sys.clients[0];
    StreamStepKeepsInv(sys, s, e);
    FairMoved(sys.rings, sys.streams[s], sys.current == Some(s), sys.exited, e, cl);
    ClientSideGrows(sys.rings, sys'.rings, cl);
    assert Attached(sys, 0);
    var on := StreamOf(cl);
    if on.Some? && on.value != s {
      PairedGrows(sys.rings, sys'.rings, sys.streams[on.value], cl);
    }
  }

  // --------------------------------------------------------------------- the client's steps

  lemma JoinedAppend(got: seq<Chunk>, c: Chunk)
    ensures Joined(got + [c]) == Joined(got) + c.bytes
  {
    assert (got + [c])[..|got|] == got;
  }

  lemma StreamSideGrows(st: Stream, offset: Pair<nat>, offset': Pair<nat>)
    requires StreamSide(st, offset) && AtMost(offset, offset')
    ensures StreamSide(st, offset')
  {
  }

  lemma JoinedContinues(hist: seq<byte>, got: seq<Chunk>, at: nat, b: seq<byte>)
    requires at <= |hist| && Joined(got) == hist[..at] && b != [] && SliceAt(hist, at, b)
    ensures at + |b| <= |hist| && Joined(got + [Chunk(at, b)]) == hist[..at + |b|]
  {
    JoinedAppend(got, Chunk(at, b));
    assert hist[..at + |b|] == hist[..at] + hist[at..at + |b|];
  }

  lemma DeliverKeepsClientSide(rings: Pair<Ring>, cl: Client, k: Kind, b: seq<byte>)
    requires ClientSide(rings, cl) && b != [] && SliceAt(rings.Get(k).hist, cl.offset.Get(k), b)
    ensures ClientSide(rings, Deliver(cl, k, b))
    ensures AtMost(cl.offset, Deliver(cl, k, b).offset)
  {
    JoinedContinues(rings.Get(k).hist, cl.got.Get(k), cl.offset.Get(k), b);
  }

  lemma MaybeAckKeepsLossless(rings: Pair<Ring>, st: Stream, cl: Client, sent: bool)
    requires StreamSide(st, cl.offset) && ClientSide(rings, cl) && cl.phase.Reading?
    requires !st.broken && !st.sendClosed ==> cl.acked <= Total(Settle(Released(rings), st.up))
    ensures
      var (st', cl') := MaybeAck(st, cl, sent);
      && StreamSide(st', cl'.offset) && ClientSide(rings, cl') && cl'.offset == cl.offset
      && Paired(rings, st', cl')
  {
    var (st', cl') := MaybeAck(st, cl, sent);
    if st' != st {
      SettleAppend(Released(rings), st.up, Ack(cl.offset));
      SettleOne(Settle(Released(rings), st.up), cl.offset);
    }
  }

  lemma ReceiveKeepsLossless(rings: Pair<Ring>, st: Stream, cl: Client, s: nat, sent: bool)
    requires StreamOk(rings, st) && ClientOk(rings, cl) && StreamOf(cl) == Some(s) && Linked(rings, st, cl)
    requires ClientSide(rings, cl) && StreamSide(st, cl.offset) && Paired(rings, st, cl)
    ensures
      var (st', cl') := Receive(st, cl, s, sent);
      && StreamSide(st', cl'.offset) && ClientSide(rings, cl') && AtMost(cl.offset, cl'.offset)
      && (StreamOf(cl').Some? ==> Paired(rings, st', cl'))
  {
    if st.down != [] {
      if cl.phase.Attaching? {
        ReceiveHelloLossless(rings, st, cl, s, sent);
      } else if st.down[0].Output? {
        ReceiveOutputLossless(rings, st, cl, s, sent);
      }
    }
  }

  lemma ReceiveOutputLossless(rings: Pair<Ring>, st: Stream, cl: Client, s: nat, sent: bool)
    requires StreamOk(rings, st) && ClientOk(rings, cl) && cl.phase == Reading(s) && Linked(rings, st, cl)
    requires ClientSide(rings, cl) && StreamSide(st, cl.offset) && Paired(rings, st, cl)
    requires st.down != [] && st.down[0].Output?
    ensures
      var (st', cl') := Receive(st, cl, s, sent);
      && StreamSide(st', cl'.offset) && ClientSide(rings, cl') && AtMost(cl.offset, cl'.offset)
      && Paired(rings, st', cl')
  {
    var (k, bytes) := (st.down[0].kind, st.down[0].bytes);
    PopLink(rings, st, st.(down := st.down[1..]), cl);
    DeliverKeepsClientSide(rings, cl, k, bytes);
    StreamSideGrows(st, cl.offset, Deliver(cl, k, bytes).offset);
    MaybeAckKeepsLossless(rings, st.(down := st.down[1..]), Deliver(cl, k, bytes), sent);
  }

  lemma ReceiveHelloLossless(rings: Pair<Ring>, st: Stream, cl: Client, s: nat, sent: bool)
    requires StreamOk(rings, st) && ClientOk(rings, cl) && cl.phase == Attaching(s) && Linked(rings, st, cl)
    requires ClientSide(rings, cl) && StreamSide(st, cl.offset) && Paired(rings, st, cl) && st.down != []
    ensures
      var (st', cl') := Receive(st, cl, s, sent);
      && StreamSide(st', cl'.offset) && ClientSide(rings, cl') && cl'.offset == cl.offset
      && Paired(rings, st', cl')
  {
    SettleMonotone(Released(rings), Released(rings), st.up);
  }

  /** Replacing the client, and possibly the stream it is on. */
  lemma ReplaceBothLossless(sys: System, s: nat, st': Stream, cl': Client)
    requires LosslessInv(sys) && s < |sys.streams|
    requires Inv(WithBoth(sys, s, st', 0, cl'))
    requires AtMost(sys.clients[0].offset, cl'.offset)
    requires ClientSide(sys.rings, cl')
    requires StreamSide(st', cl'.offset)
    requires StreamOf(cl').Some? ==> StreamOf(cl') == Some(s) && Paired(sys.rings, st', cl')
    ensures LosslessInv(WithBoth(sys, s, st', 0, cl'))
  {
    var sys' := WithBoth(sys, s, st', 0, cl');
    forall t | 0 <= t < |sys'.streams|
      ensures StreamSide(sys'.streams[t], cl'.offset)
    {
      if t != s {
        StreamSideGrows(sys.streams[t], sys.clients[0].offset, cl'.offset);
      }
    }
  }

  lemma SendInputKeepsLossless(rings: Pair<Ring>, st: Stream, cl: Client, s: nat)
    requires StreamSide(st, cl.offset) && Paired(rings, st, cl)
    ensures
      var st' := Together(st, cl, s, SendInput).0;
      StreamSide(st', cl.offset) && Paired(rings, st', cl)
  {
    SettleAppend(Released(rings), st.up, Input);
    SettleOne(Settle(Released(rings), st.up), cl.offset);
  }

  lemma TogetherKeepsLossless(rings: Pair<Ring>, st: Stream, cl: Client, s: nat, e: ClientEvent)
    requires StreamOk(rings, st) && ClientOk(rings, cl) && StreamOf(cl) == Some(s) && Linked(rings, st, cl)
    requires ClientSide(rings, cl) && StreamSide(st, cl.offset) && Paired(rings, st, cl)
    ensures
      var (st', cl') := Together(st, cl, s, e);
      && StreamSide(st', cl'.offset) && ClientSide(rings, cl') && AtMost(cl.offset, cl'.offset)
      && (StreamOf(cl').Some? ==> Paired(rings, st', cl'))
  {
    match e {
      case Recv(sent) => ReceiveKeepsLossless(rings, st, cl, s, sent);
      case SendInput => SendInputKeepsLossless(rings, st, cl, s);
      case _ =>
    }
  }

  lemma AttachKeepsLossless(sys: System)
    requires LosslessInv(sys)
    ensures LosslessInv(Attaches(sys, 0))
  {
    var sys' := Attaches(sys, 0);
    AttachKeepsInv(sys, 0);
    forall t | 0 <= t < |sys'.streams|
      ensures StreamSide(sys'.streams[t], sys'.clients[0].offset)
    {
      if t < |sys.streams| {
        assert sys'.streams[t] == sys.streams[t];
      }
    }
  }

  lemma ClientStepKeepsLossless(sys: System, e: ClientEvent)
    requires LosslessInv(sys)
    ensures LosslessInv(ClientStep(sys, 0, e))
  {
    var cl := sys.clients[0];
    var on := StreamOf(cl);
    assert Attached(sys, 0);
    if e.Attach? {
      AttachKeepsLossless(sys);
    } else if on.Some? {
      var st := sys.streams[on.value];
      ClientStepKeepsInv(sys, 0, e);
      TogetherKeeps(sys.rings, st, cl, on.value, e);
      TogetherKeepsLossless(sys.rings, st, cl, on.value, e);
      var (st', cl') := Together(st, cl, on.value, e);
      ReplaceBothLossless(sys, on.value, st', cl');
    } else {
      ClientStepKeepsInv(sys, 0, e);
    }
  }

  lemma RingStepKeepsLossless(sys: System, k: Kind, e: RingEvent)
    requires LosslessInv(sys)
    ensures LosslessInv(Step(sys, OnRing(k, e)))
  {
    var sys' := Step(sys, OnRing(k, e));
    var cl := sys.clients[0];
    StepKeepsInv(sys, OnRing(k, e));
    RingStepGrows(sys.rings.Get(k), e);
    ClientSideGrows(sys.rings, sys'.rings, cl);
    if StreamOf(cl).Some? {
      PairedGrows(sys.rings, sys'.rings, sys.streams[StreamOf(cl).value], cl);
    }
  }

  lemma StepKeepsLossless(sys: System, e: Event)
    requires LosslessInv(sys) && !e.Join?
    ensures LosslessInv(Step(sys, e))
  {
    match e {
      case OnRing(k, r) => RingStepKeepsLossless(sys, k, r);
      case OnStream(s, e) => if s < |sys.streams| { StreamStepKeepsLossless(sys, s, e); }
      case OnClient(c, e) => if c == 0 { ClientStepKeepsLossless(sys, e); }
      case Join(_) =>
      case _ => StepKeepsInv(sys, e);
    }
  }

  predicate NoJoin(events: seq<Event>) {
    forall i :: 0 <= i < |events| ==> !events[i].Join?
  }

  lemma {:induction false} RunKeepsLossless(sys: System, events: seq<Event>)
    requires LosslessInv(sys) && NoJoin(events)
    ensures LosslessInv(Run(sys, events))
    decreases |events|
  {
    if events != [] {
      StepKeepsLossless(sys, events[0]);
      RunKeepsLossless(Step(sys, events[0]), events[1..]);
    }
  }

  lemma LosslessReachable(capacity: Pair<nat>, events: seq<Event>)
    requires GoodCapacity(capacity) && NoJoin(events)
    ensures LosslessInv(Run(Init(capacity, true), events))
  {
    InitInv(capacity, true);
    RunKeepsLossless(Init(capacity, true), events);
  }

  // ------------------------------------------------------------------------------ theorems

  /** No output is ever dropped or repeated: in every run, across any breaks, lost confirmations
      and re-attaches, what the consumer has is exactly the history up to the client's offset. */
  lemma NothingDropped(capacity: Pair<nat>, events: seq<Event>, k: Kind)
    requires GoodCapacity(capacity) && NoJoin(events)
    ensures
      var sys := Run(Init(capacity, true), events);
      && |sys.clients| == 1
      && var cl := sys.clients[0];
         && cl.offset.Get(k) <= |sys.rings.Get(k).hist|
         && Joined(cl.got.Get(k)) == sys.rings.Get(k).hist[..cl.offset.Get(k)]
         && cl.gaps.Get(k) == 0
  {
    LosslessReachable(capacity, events);
  }

  /** Every re-attach replays from exactly the client's offset. */
  lemma ReplayIsExact(capacity: Pair<nat>, events: seq<Event>)
    requires GoodCapacity(capacity) && NoJoin(events)
    ensures
      var sys := Run(Init(capacity, true), events);
      && |sys.clients| == 1
      && var cl := sys.clients[0];
         cl.phase.Attaching? ==>
           && cl.phase.stream < |sys.streams|
           && var down := sys.streams[cl.phase.stream].down;
              down != [] ==> down[0] == Hello(cl.offset)
  {
    LosslessReachable(capacity, events);
  }

  /** A client that was given the exit status has the whole of both outputs. */
  lemma ExitStatusIsComplete(capacity: Pair<nat>, events: seq<Event>, k: Kind)
    requires GoodCapacity(capacity) && NoJoin(events)
    ensures
      var sys := Run(Init(capacity, true), events);
      && |sys.clients| == 1
      && (sys.clients[0].phase.Done? && sys.clients[0].phase.status.Some? ==>
            sys.rings.Get(k).closed && Joined(sys.clients[0].got.Get(k)) == sys.rings.Get(k).hist)
  {
    LosslessReachable(capacity, events);
    var sys := Run(Init(capacity, true), events);
    assert ClientOk(sys.rings, sys.clients[0]);
    var hist := sys.rings.Get(k).hist;
    assert hist[..|hist|] == hist;
  }
}
