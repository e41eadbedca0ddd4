/**
 Progress of a lossless command whose client is listening: confirmations lag by less than one
 confirmation's worth, so a writer blocked on a full ring is always waiting for something that is
 already on its way, and the protocol's own steps run out only when that writer has room.
 */
module Progress {
  import opened OutputRing
  import opened CommandStream
  import opened Alignment
  import opened Lossless

  /** The one client reads an unbroken stream that can carry its confirmations. */
  predicate Live(sys: System, s: nat) {
    && |sys.clients| == 1 && sys.clients[0].phase == Reading(s)
    && s < |sys.streams|
    && var st := sys.streams[s];
       st.phase.Serving? && !st.stop && !st.broken && !st.sendClosed && !st.inputDone
  }

  predicate Drained(r: Ring, pump: Pump) {
    pump.held == [] && |r.hist| <= pump.offset
  }

  /** Everything written has been delivered and every confirmation taken. */
  predicate Quiescent(sys: System, s: nat)
    requires s < |sys.streams|
  {
    var st := sys.streams[s];
    st.down == [] && st.up == [] && Drained(sys.rings.out, st.pumps.out) && Drained(sys.rings.err, st.pumps.err)
  }

  function Unconfirmed(rings: Pair<Ring>): int {
    |rings.out.hist| - rings.out.released + |rings.err.hist| - rings.err.released
  }

  lemma QuiescentIsConfirmed(sys: System, s: nat)
    requires LosslessInv(sys) && Live(sys, s) && Quiescent(sys, s)
    ensures Unconfirmed(sys.rings) < ACK_EVERY
  {
    assert Attached(sys, 0);
    assert Linked(sys.rings, sys.streams[s], sys.clients[0]);
    assert AckSide(sys.rings, sys.streams[s], sys.clients[0]);
  }

  lemma ConfirmedHasRoom(sys: System, k: Kind)
    requires LosslessInv(sys) && Unconfirmed(sys.rings) < ACK_EVERY <= sys.rings.Get(k).capacity
    ensures sys.rings.Get(k).Room() > 0
  {
    RoomIsCapacityLessUnconfirmed(sys.rings.Get(k));
  }

  /** The confirmation bound: in every quiescent state of a live stream, whatever confirmations
      earlier breaks lost, less than one confirmation's worth of output is unconfirmed over both
      rings, so a ring at least that large never blocks its writer there. */
  lemma AckBound(capacity: Pair<nat>, events: seq<Event>, s: nat, k: Kind)
    requires GoodCapacity(capacity) && NoJoin(events)
    ensures
      var sys := Run(Init(capacity, true), events);
      Live(sys, s) && Quiescent(sys, s) ==>
        && Unconfirmed(sys.rings) < ACK_EVERY
        && (ACK_EVERY <= sys.rings.Get(k).capacity ==> sys.rings.Get(k).Room() > 0)
  {
    LosslessReachable(capacity, events);
    var sys := Run(Init(capacity, true), events);
    if Live(sys, s) && Quiescent(sys, s) {
      QuiescentIsConfirmed(sys, s);
      if ACK_EVERY <= sys.rings.Get(k).capacity {
        ConfirmedHasRoom(sys, k);
      }
    }
  }

  // ----------------------------------------------------------------- no blocked writer waits in vain

  /** Steps the daemon and the client take on their own, given only that they are scheduled. */
  predicate Internal(e: Event, s: nat) {
    || e == OnClient(0, Recv(true))
    || e == OnStream(s, InputStep)
    || e == OnStream(s, PumpRead(Stdout)) || e == OnStream(s, PumpRead(Stderr))
    || e == OnStream(s, PumpSend(Stdout, false)) || e == OnStream(s, PumpSend(Stderr, false))
  }

  function RequestWork(r: Request): nat {
    if r.Ack? then 2 else 1
  }

  function UpWork(up: seq<Request>): nat
    decreases |up|
  {
    if up == [] then 0 else RequestWork(up[0]) + UpWork(up[1..])
  }

  function PumpWork(r: Ring, pump: Pump): nat {
    10 * Max(0, |r.hist| - pump.offset) + (if pump.held != [] then 9 else 0) + (if pump.phase.Tailing? then 1 else 0)
  }

  /** How much is left to do on a stream if nothing more is written. */
  function Work(rings: Pair<Ring>, st: Stream): nat {
    PumpWork(rings.out, st.pumps.out) + PumpWork(rings.err, st.pumps.err) + 7 * |st.down| + UpWork(st.up)
  }

  lemma {:induction false} UpWorkAppend(up: seq<Request>, r: Request)
    ensures UpWork(up + [r]) == UpWork(up) + RequestWork(r)
    decreases |up|
  {
    if up == [] {
      assert up + [r] == [r] && [r][1..] == [];
    } else {
      assert (up + [r])[1..] == up[1..] + [r];
      UpWorkAppend(up[1..], r);
    }
  }

  /** A pump of a live stream is never behind the ring's earliest byte. */
  lemma PumpKeepsUp(sys: System, s: nat, k: Kind)
    requires LosslessInv(sys) && Live(sys, s)
    ensures sys.rings.Get(k).Start() <= sys.streams[s].pumps.Get(k).offset
    ensures !sys.streams[s].pumps.Get(k).phase.Halted?
  {
    assert Attached(sys, 0);
    assert Linked(sys.rings, sys.streams[s], sys.clients[0]);
    assert StreamOk(sys.rings, sys.streams[s]);
  }

  /** Reading uses up work of the pump that reads. */
  lemma TailWorks(r: Ring, pump: Pump)
    requires r.Start() <= pump.offset && pump.held == [] && pump.phase.Tailing? && Tail(r, pump) != pump
    ensures PumpWork(r, Tail(r, pump)) < PumpWork(r, pump) && !Tail(r, pump).phase.Halted?
  {
  }

  lemma ReadPumpWorks(rings: Pair<Ring>, st: Stream, k: Kind)
    requires st.phase.Serving? && rings.Get(k).Start() <= st.pumps.Get(k).offset
    ensures
      var st' := ReadPump(rings, st, k);
      && (st' != st ==> st' == st.(pumps := st'.pumps) && Work(rings, st') < Work(rings, st))
      && (st.pumps.Get(k).phase.Tailing? && st.pumps.Get(k).held == [] && st.pumps.Get(k).offset < |rings.Get(k).hist|
          ==> st' != st)
  {
    var pump := st.pumps.Get(k);
    if pump.phase.Tailing? && pump.held == [] && Tail(rings.Get(k), pump) != pump {
      TailWorks(rings.Get(k), pump);
    }
  }

  lemma ReadWorks(sys: System, s: nat, k: Kind)
    requires LosslessInv(sys) && Live(sys, s)
    ensures
      var sys' := Step(sys, OnStream(s, PumpRead(k)));
      sys' != sys ==> Live(sys', s) && Work(sys'.rings, sys'.streams[s]) < Work(sys.rings, sys.streams[s])
    ensures
      var pump := sys.streams[s].pumps.Get(k);
      pump.held == [] && pump.offset < |sys.rings.Get(k).hist| ==> Step(sys, OnStream(s, PumpRead(k))) != sys
  {
    PumpKeepsUp(sys, s, k);
    PumpIsPlaced(sys, s, k);
    ReadPumpWorks(sys.rings, sys.streams[s], k);
    var sys' := Step(sys, OnStream(s, PumpRead(k)));
    assert sys'.streams[s] == ReadPump(sys.rings, sys.streams[s], k);
    if sys'.streams[s] == sys.streams[s] {
      assert sys'.streams == sys.streams;
    }
  }

  /** A pump of a live stream with something to read is tailing. */
  lemma PumpIsPlaced(sys: System, s: nat, k: Kind)
    requires LosslessInv(sys) && Live(sys, s)
    ensures
      var pump := sys.streams[s].pumps.Get(k);
      pump.offset < |sys.rings.Get(k).hist| ==> pump.phase.Tailing?
  {
    assert StreamOk(sys.rings, sys.streams[s]);
  }

  lemma SendWorks(sys: System, s: nat, k: Kind)
    requires LosslessInv(sys) && Live(sys, s)
    ensures
      var sys' := Step(sys, OnStream(s, PumpSend(k, false)));
      sys' != sys ==> Live(sys', s) && Work(sys'.rings, sys'.streams[s]) < Work(sys.rings, sys.streams[s])
    ensures sys.streams[s].pumps.Get(k).held != [] ==> Step(sys, OnStream(s, PumpSend(k, false))) != sys
  {
    var sys' := Step(sys, OnStream(s, PumpSend(k, false)));
    assert sys'.streams[s] == SendPump(sys.streams[s], k, false);
    if sys'.streams[s] == sys.streams[s] {
      assert sys'.streams == sys.streams;
    }
  }

  lemma TakeWorks(sys: System, s: nat)
    requires LosslessInv(sys) && Live(sys, s)
    ensures
      var sys' := Step(sys, OnStream(s, InputStep));
      sys' != sys ==> Live(sys', s) && Work(sys'.rings, sys'.streams[s]) < Work(sys.rings, sys.streams[s])
    ensures sys.streams[s].up != [] ==> Step(sys, OnStream(s, InputStep)) != sys
  {
    var st := sys.streams[s];
    var sys' := Step(sys, OnStream(s, InputStep));
    assert sys'.streams[s] == TakeInput(sys.rings, st).1;
    if st.up != [] {
      if st.up[0].Ack? {
        assert ([AckRest(st.up[0].at.err)] + st.up[1..])[1..] == st.up[1..];
      }
    } else {
      assert sys'.streams == sys.streams;
    }
  }

  lemma ReceiveWorks(rings: Pair<Ring>, st: Stream, cl: Client, s: nat)
    requires cl.phase == Reading(s) && Linked(rings, st, cl) && st.phase.Serving? && !st.broken && st.down != []
    ensures
      var (st', cl') := Receive(st, cl, s, true);
      && cl'.phase == Reading(s) && st' == st.(down := st.down[1..], up := st'.up)
      && Work(rings, st') < Work(rings, st)
  {
    assert !st.down[0].Hello? && !st.down[0].ExitStatus?;
    var m := st.down[0];
    var (st', cl') := Receive(st, cl, s, true);
    UpWorkAppend(st.up, Ack(Deliver(cl, m.kind, m.bytes).offset));
  }

  lemma RecvWorks(sys: System, s: nat)
    requires LosslessInv(sys) && Live(sys, s)
    ensures
      var sys' := Step(sys, OnClient(0, Recv(true)));
      sys' != sys ==> Live(sys', s) && Work(sys'.rings, sys'.streams[s]) < Work(sys.rings, sys.streams[s])
    ensures sys.streams[s].down != [] ==> Step(sys, OnClient(0, Recv(true))) != sys
  {
    var st := sys.streams[s];
    var cl := sys.clients[0];
    var sys' := Step(sys, OnClient(0, Recv(true)));
    assert Attached(sys, 0);
    if st.down != [] {
      ReceiveWorks(sys.rings, st, cl, s);
      assert sys'.streams[s] == Receive(st, cl, s, true).0;
    } else {
      assert sys'.streams == sys.streams && sys'.clients == sys.clients;
    }
  }

  /** Every internal step that does anything leaves less to do, and leaves the stream live. */
  lemma InternalStepsFinish(sys: System, s: nat, e: Event)
    requires LosslessInv(sys) && Live(sys, s) && Internal(e, s)
    ensures
      var sys' := Step(sys, e);
      && LosslessInv(sys')
      && (sys' != sys ==> Live(sys', s) && Work(sys'.rings, sys'.streams[s]) < Work(sys.rings, sys.streams[s]))
  {
    StepKeepsLossless(sys, e);
    if e.OnClient? {
      RecvWorks(sys, s);
    } else if e.stream.InputStep? {
      TakeWorks(sys, s);
    } else if e.stream.PumpRead? {
      ReadWorks(sys, s, e.stream.kind);
    } else {
      SendWorks(sys, s, e.stream.kind);
    }
  }

  /** A live stream on which a writer is blocked always has an internal step to take. */
  lemma BlockedWriterIsServed(sys: System, s: nat, k: Kind) returns (e: Event)
    requires LosslessInv(sys) && Live(sys, s)
    requires ACK_EVERY <= sys.rings.Get(k).capacity && sys.rings.Get(k).Room() <= 0
    ensures Internal(e, s) && Step(sys, e) != sys
  {
    var st := sys.streams[s];
    if st.down != [] {
      RecvWorks(sys, s);
      return OnClient(0, Recv(true));
    }
    if st.up != [] {
      TakeWorks(sys, s);
      return OnStream(s, InputStep);
    }
    if !Drained(sys.rings.out, st.pumps.out) {
      e := UndrainedPumpMoves(sys, s, Stdout);
      return;
    }
    if !Drained(sys.rings.err, st.pumps.err) {
      e := UndrainedPumpMoves(sys, s, Stderr);
      return;
    }
    e := OnStream(s, InputStep);
    QuiescentIsConfirmed(sys, s);
    ConfirmedHasRoom(sys, k);
  }

  lemma UndrainedPumpMoves(sys: System, s: nat, k: Kind) returns (e: Event)
    requires LosslessInv(sys) && Live(sys, s) && !Drained(sys.rings.Get(k), sys.streams[s].pumps.Get(k))
    ensures Internal(e, s) && Step(sys, e) != sys
  {
    if sys.streams[s].pumps.Get(k).held != [] {
      SendWorks(sys, s, k);
      return OnStream(s, PumpSend(k, false));
    }
    ReadWorks(sys, s, k);
    return OnStream(s, PumpRead(k));
  }

  predicate AllInternal(events: seq<Event>, s: nat) {
    forall i :: 0 <= i < |events| ==> Internal(events[i], s)
  }

  /** Each event does something. */
  predicate Effective(sys: System, events: seq<Event>)
    decreases |events|
  {
    events != [] ==> Step(sys, events[0]) != sys && Effective(Step(sys, events[0]), events[1..])
  }

  /** Whatever order the internal steps are scheduled in, they run out: no schedule of them is
      longer than the work left. */
  lemma {:induction false} SchedulesAreBounded(sys: System, s: nat, events: seq<Event>)
    requires LosslessInv(sys) && Live(sys, s) && AllInternal(events, s) && Effective(sys, events)
    ensures |events| <= Work(sys.rings, sys.streams[s])
    ensures LosslessInv(Run(sys, events)) && Live(Run(sys, events), s)
    decreases |events|
  {
    if events != [] {
      assert Internal(events[0], s);
      InternalStepsFinish(sys, s, events[0]);
      SchedulesAreBounded(Step(sys, events[0]), s, events[1..]);
    }
  }

  /** A lossless command is never left blocked by a client that listens: from every reachable live
      state, every effective schedule of internal steps is bounded, and when one can be extended no
      further the writer has room. */
  lemma {:induction false} WriterUnblocks(capacity: Pair<nat>, past: seq<Event>, s: nat, k: Kind, schedule: seq<Event>)
    requires GoodCapacity(capacity) && NoJoin(past)
    requires Live(Run(Init(capacity, true), past), s)
    requires ACK_EVERY <= Run(Init(capacity, true), past).rings.Get(k).capacity
    requires AllInternal(schedule, s) && Effective(Run(Init(capacity, true), past), schedule)
    ensures
      var now := Run(Init(capacity, true), past);
      var later := Run(now, schedule);
      && |schedule| <= Work(now.rings, now.streams[s])
      && ((forall e :: Internal(e, s) ==> Step(later, e) == later) ==> later.rings.Get(k).Room() > 0)
  {
    LosslessReachable(capacity, past);
    var now := Run(Init(capacity, true), past);
    SchedulesAreBounded(now, s, schedule);
    var later := Run(now, schedule);
    InternalKeepsCapacity(now, s, schedule, k);
    if later.rings.Get(k).Room() <= 0 {
      var e := BlockedWriterIsServed(later, s, k);
    }
  }

  lemma StepKeepsCapacity(sys: System, s: nat, e: Event, k: Kind)
    requires Internal(e, s)
    ensures Step(sys, e).rings.Get(k).capacity == sys.rings.Get(k).capacity
  {
  }

  lemma {:induction false} InternalKeepsCapacity(sys: System, s: nat, events: seq<Event>, k: Kind)
    requires AllInternal(events, s)
    ensures Run(sys, events).rings.Get(k).capacity == sys.rings.Get(k).capacity
    decreases |events|
  {
    if events != [] {
      assert Internal(events[0], s);
      StepKeepsCapacity(sys, s, events[0], k);
      InternalKeepsCapacity(Step(sys, events[0]), s, events[1..], k);
    }
  }
}
