/**
 Offset alignment: in every run, in either ring mode and with any number of clients taking the
 command from one another, a client's offset and the history never drift apart.
 */
module Alignment {
  import opened OutputRing
  import opened CommandStream
  import opened Options

  // -------------------------------------------------------------------------- definitions

  /** `b` is what the history holds at `at`. */
  predicate SliceAt(hist: seq<byte>, at: nat, b: seq<byte>) {
    b == [] || (at + |b| <= |hist| && hist[at..at + |b|] == b)
  }

  function BytesOf(m: Msg, k: Kind): seq<byte> {
    if m.Output? && m.kind == k then m.bytes else []
  }

  /** The output of one kind still in a queue, in order. */
  function Bytes(q: seq<Msg>, k: Kind): seq<byte>
    decreases |q|
  {
    if q == [] then []
    else BytesOf(q[0], k) + Bytes(q[1..], k)
  }

  predicate PumpOk(r: Ring, pump: Pump, stop: bool) {
    && (pump.held != [] ==>
          pump.phase.Tailing? && |pump.held| <= pump.offset && SliceAt(r.hist, pump.offset - |pump.held|, pump.held))
    && (pump.phase.AtEof? ==> r.closed && |r.hist| <= pump.offset)
    && (pump.phase.Halted? ==> stop)
  }

  predicate HandshakeOk(rings: Pair<Ring>, st: Stream) {
    st.phase.Handshake? ==>
      && st.phase.stage <= 4
      && st.down == [] && st.up == []
      && st.pumps.out.held == [] && st.pumps.err.held == []
      && (st.phase.stage <= 2 <==> st.pumps.out.phase.Unplaced?)
      && (st.phase.stage <= 3 <==> st.pumps.err.phase.Unplaced?)
      && (st.phase.stage > 2 ==> st.pumps.out.phase.Tailing? && st.pumps.out.offset >= st.asked.out)
      && (st.phase.stage > 3 ==> st.pumps.err.phase.Tailing? && st.pumps.err.offset >= st.asked.err)
  }

  predicate Confirmed(rings: Pair<Ring>, st: Stream) {
    && ((st.phase.Handshake? && st.phase.stage == 0) || rings.out.released >= st.asked.out)
    && ((st.phase.Handshake? && st.phase.stage <= 1) || rings.err.released >= st.asked.err)
  }

  predicate StreamOk(rings: Pair<Ring>, st: Stream) {
    && PumpOk(rings.out, st.pumps.out, st.stop)
    && PumpOk(rings.err, st.pumps.err, st.stop)
    && HandshakeOk(rings, st)
    && Confirmed(rings, st)
    && (!st.phase.Handshake? ==> !st.pumps.out.phase.Unplaced? && !st.pumps.err.phase.Unplaced?)
    && (st.phase.Finishing? ==> st.pumps.out.phase.AtEof? && st.pumps.err.phase.AtEof?)
  }

  /** The queue continues the client's output of one kind, and on an unbroken stream client
      offset, queued bytes and held bytes add up to the pump's offset. */
  predicate Continues(r: Ring, pump: Pump, broken: bool, b: seq<byte>, from: nat) {
    && SliceAt(r.hist, from, b)
    && (!broken ==> from + |b| + |pump.held| == pump.offset)
  }

  predicate Finished(rings: Pair<Ring>, st: Stream, q: seq<Msg>, from: Pair<nat>) {
    && st.phase.Returned?
    && st.pumps.out.phase.AtEof? && st.pumps.err.phase.AtEof?
    && rings.out.closed && rings.err.closed
    && |rings.out.hist| <= from.out + |Bytes(q, Stdout)|
    && |rings.err.hist| <= from.err + |Bytes(q, Stderr)|
  }

  /** A queued exit status is the last message, and with everything before it the client has the
      whole history. */
  predicate EndsWell(rings: Pair<Ring>, st: Stream, q: seq<Msg>, from: Pair<nat>) {
    forall i :: 0 <= i < |q| && q[i].ExitStatus? ==> i == |q| - 1 && Finished(rings, st, q, from)
  }

  /** Past the handshake a queue holds non-empty output and at most an exit status. */
  predicate Plain(q: seq<Msg>) {
    forall i :: 0 <= i < |q| ==> !q[i].Hello? && (q[i].Output? ==> q[i].bytes != [])
  }

  predicate Queue(rings: Pair<Ring>, st: Stream, q: seq<Msg>, from: Pair<nat>) {
    && Continues(rings.out, st.pumps.out, st.broken, Bytes(q, Stdout), from.out)
    && Continues(rings.err, st.pumps.err, st.broken, Bytes(q, Stderr), from.err)
    && Plain(q)
    && EndsWell(rings, st, q, from)
  }

  /** How a client and the stream it is on fit together. */
  predicate Linked(rings: Pair<Ring>, st: Stream, cl: Client) {
    match cl.phase
    case Reading(_) => !st.phase.Handshake? && Queue(rings, st, st.down, cl.offset)
    case Attaching(_) =>
      && st.asked == cl.offset
      && (st.phase.Handshake?
          || (st.broken && st.down == [])
          || (&& st.down != [] && st.down[0].Hello?
              && cl.offset.out <= st.down[0].at.out && cl.offset.err <= st.down[0].at.err
              && Queue(rings, st, st.down[1..], st.down[0].at)))
    case _ => true
  }

  function Size(got: seq<Chunk>): nat
    decreases |got|
  {
    if got == [] then 0 else Size(got[..|got| - 1]) + |got[|got| - 1].bytes|
  }

  /** Deliveries are pieces of the history at strictly increasing, non-overlapping offsets. */
  predicate ChunksOk(hist: seq<byte>, got: seq<Chunk>, first: nat, offset: nat) {
    && (forall i :: 0 <= i < |got| ==>
          && got[i].bytes != [] && SliceAt(hist, got[i].at, got[i].bytes)
          && first <= got[i].at && got[i].at + |got[i].bytes| <= offset)
    && (forall i, j :: 0 <= i < j < |got| ==> got[i].at + |got[i].bytes| <= got[j].at)
  }

  predicate AccountOk(r: Ring, got: seq<Chunk>, first: nat, gaps: nat, offset: nat) {
    && ChunksOk(r.hist, got, first, offset)
    && first + Size(got) + gaps == offset
  }

  predicate ClientOk(rings: Pair<Ring>, cl: Client) {
    && AccountOk(rings.out, cl.got.out, cl.first.out, cl.gaps.out, cl.offset.out)
    && AccountOk(rings.err, cl.got.err, cl.first.err, cl.gaps.err, cl.offset.err)
    && cl.acked <= Total(cl.offset)
    && (!cl.welcomed ==> cl.got == Pair([], []) && cl.gaps == Pair(0, 0) && !cl.phase.Reading? && !(cl.phase.Done? && cl.phase.status.Some?))
    && (cl.phase.Done? && cl.phase.status.Some? ==>
          && rings.out.closed && rings.err.closed
          && |rings.out.hist| <= cl.offset.out && |rings.err.hist| <= cl.offset.err)
  }

  predicate RingOk(r: Ring) {
    r.Safe() && 0 < r.capacity
  }

  predicate Attached(sys: System, c: nat)
    requires c < |sys.clients|
  {
    var on := StreamOf(sys.clients[c]);
    on.Some? ==>
      && on.value < |sys.streams|
      && sys.streams[on.value].owner == c
      && Linked(sys.rings, sys.streams[on.value], sys.clients[c])
  }

  predicate Inv(sys: System) {
    && RingOk(sys.rings.out) && RingOk(sys.rings.err)
    && (forall s :: 0 <= s < |sys.streams| ==> StreamOk(sys.rings, sys.streams[s]))
    && (forall c :: 0 <= c < |sys.clients| ==> ClientOk(sys.rings, sys.clients[c]))
    && (forall c :: 0 <= c < |sys.clients| ==> Attached(sys, c))
  }

  // ---------------------------------------------------------------------- facts on queues

  lemma {:induction false} BytesOfAppend(q: seq<Msg>, m: Msg, k: Kind)
    ensures Bytes(q + [m], k) == Bytes(q, k) + BytesOf(m, k)
    decreases |q|
  {
    var q' := q + [m];
    if q == [] {
      assert q' == [m] && q'[1..] == [];
      assert Bytes(q', k) == BytesOf(m, k) + [];
    } else {
      assert q'[0] == q[0] && q'[1..] == q[1..] + [m];
      BytesOfAppend(q[1..], m, k);
      assert Bytes(q', k) == BytesOf(q[0], k) + (Bytes(q[1..], k) + BytesOf(m, k));
    }
  }

  lemma {:induction false} BytesOfPrefix(q: seq<Msg>, n: nat, k: Kind)
    requires n <= |q|
    ensures Bytes(q[..n], k) <= Bytes(q, k)
    decreases |q|
  {
    if n > 0 {
      assert q[..n][1..] == q[1..][..n - 1];
      BytesOfPrefix(q[1..], n - 1, k);
    }
  }

  lemma SliceOfPrefix(hist: seq<byte>, at: nat, b: seq<byte>, a: seq<byte>)
    requires SliceAt(hist, at, b) && a <= b
    ensures SliceAt(hist, at, a)
  {
    if a != [] {
      assert hist[at..at + |a|] == hist[at..at + |b|][..|a|];
    }
  }

  lemma SliceSplit(hist: seq<byte>, at: nat, a: seq<byte>, b: seq<byte>)
    requires SliceAt(hist, at, a + b)
    ensures SliceAt(hist, at, a) && SliceAt(hist, at + |a|, b)
  {
    if a + b != [] {
      assert hist[at..at + |a|] == (a + b)[..|a|] == a;
      assert hist[at + |a|..at + |a| + |b|] == (a + b)[|a|..] == b;
    } else {
      assert b == (a + b)[|a|..];
    }
  }

  lemma SliceJoin(hist: seq<byte>, at: nat, a: seq<byte>, b: seq<byte>)
    requires SliceAt(hist, at, a) && SliceAt(hist, at + |a|, b)
    ensures SliceAt(hist, at, a + b)
  {
    if a == [] {
      assert a + b == b;
    } else if b == [] {
      assert a + b == a;
    } else {
      assert hist[at..at + |a| + |b|] == hist[at..at + |a|] + hist[at + |a|..at + |a| + |b|];
    }
  }

  // ------------------------------------------------------------------ growth of the rings

  predicate RingGrows(r: Ring, r': Ring) {
    && r.hist <= r'.hist && r.released <= r'.released
    && r.capacity == r'.capacity && r.lossless == r'.lossless
    && (r.closed ==> r'.closed && r.hist == r'.hist)
  }

  predicate Grows(rings: Pair<Ring>, rings': Pair<Ring>) {
    RingGrows(rings.out, rings'.out) && RingGrows(rings.err, rings'.err)
  }

  lemma RingStepsGrow(r: Ring, p: seq<byte>, offset: nat)
    requires RingOk(r)
    ensures RingGrows(r, r.Append(p)) && RingOk(r.Append(p))
    ensures RingGrows(r, r.Release(offset)) && RingOk(r.Release(offset))
    ensures RingGrows(r, r.Close()) && RingOk(r.Close())
  {
    StepsKeepSafe(r, p, offset);
    if r.closed {
      assert p[..0] == [];
    }
  }

  lemma SliceGrows(hist: seq<byte>, hist': seq<byte>, at: nat, b: seq<byte>)
    requires hist <= hist' && SliceAt(hist, at, b)
    ensures SliceAt(hist', at, b)
  {
    if b != [] {
      assert hist'[at..at + |b|] == hist[at..at + |b|];
    }
  }

  lemma StreamGrows(rings: Pair<Ring>, rings': Pair<Ring>, st: Stream)
    requires Grows(rings, rings') && StreamOk(rings, st)
    ensures StreamOk(rings', st)
  {
    if st.pumps.out.held != [] {
      SliceGrows(rings.out.hist, rings'.out.hist, st.pumps.out.offset - |st.pumps.out.held|, st.pumps.out.held);
    }
    if st.pumps.err.held != [] {
      SliceGrows(rings.err.hist, rings'.err.hist, st.pumps.err.offset - |st.pumps.err.held|, st.pumps.err.held);
    }
  }

  lemma QueueGrows(rings: Pair<Ring>, rings': Pair<Ring>, st: Stream, q: seq<Msg>, from: Pair<nat>)
    requires Grows(rings, rings') && Queue(rings, st, q, from)
    ensures Queue(rings', st, q, from)
  {
    SliceGrows(rings.out.hist, rings'.out.hist, from.out, Bytes(q, Stdout));
    SliceGrows(rings.err.hist, rings'.err.hist, from.err, Bytes(q, Stderr));
  }

  lemma LinkGrows(rings: Pair<Ring>, rings': Pair<Ring>, st: Stream, cl: Client)
    requires Grows(rings, rings') && Linked(rings, st, cl)
    ensures Linked(rings', st, cl)
  {
    if cl.phase.Reading? {
      QueueGrows(rings, rings', st, st.down, cl.offset);
    } else if cl.phase.Attaching? && !st.phase.Handshake? && st.down != [] {
      QueueGrows(rings, rings', st, st.down[1..], st.down[0].at);
    }
  }

  lemma ChunksGrow(hist: seq<byte>, hist': seq<byte>, got: seq<Chunk>, first: nat, offset: nat)
    requires hist <= hist' && ChunksOk(hist, got, first, offset)
    ensures ChunksOk(hist', got, first, offset)
  {
    forall i | 0 <= i < |got|
      ensures SliceAt(hist', got[i].at, got[i].bytes)
    {
      SliceGrows(hist, hist', got[i].at, got[i].bytes);
    }
  }

  lemma ClientGrows(rings: Pair<Ring>, rings': Pair<Ring>, cl: Client)
    requires Grows(rings, rings') && ClientOk(rings, cl)
    ensures ClientOk(rings', cl)
  {
    ChunksGrow(rings.out.hist, rings'.out.hist, cl.got.out, cl.first.out, cl.offset.out);
    ChunksGrow(rings.err.hist, rings'.err.hist, cl.got.err, cl.first.err, cl.offset.err);
  }

  lemma InvGrows(sys: System, rings': Pair<Ring>)
    requires Inv(sys) && Grows(sys.rings, rings') && RingOk(rings'.out) && RingOk(rings'.err)
    ensures Inv(sys.(rings := rings'))
  {
    forall s | 0 <= s < |sys.streams|
      ensures StreamOk(rings', sys.streams[s])
    {
      StreamGrows(sys.rings, rings', sys.streams[s]);
    }
    forall c | 0 <= c < |sys.clients|
      ensures ClientOk(rings', sys.clients[c]) && Attached(sys.(rings := rings'), c)
    {
      ClientGrows(sys.rings, rings', sys.clients[c]);
      assert Attached(sys, c);
      var on := StreamOf(sys.clients[c]);
      if on.Some? {
        LinkGrows(sys.rings, rings', sys.streams[on.value], sys.clients[c]);
      }
    }
  }

  // ------------------------------------------------------- steps of one stream in isolation

  /** A step of a stream that leaves the rings and its client alone. */
  predicate StreamMove(rings: Pair<Ring>, st: Stream, st': Stream) {
    && StreamOk(rings, st')
    && st'.owner == st.owner
  }

  /** What a queue depends on. */
  lemma QueueSameShape(rings: Pair<Ring>, st: Stream, st': Stream, q: seq<Msg>, from: Pair<nat>)
    requires Queue(rings, st, q, from)
    requires st'.pumps == st.pumps && st'.phase == st.phase && st'.broken == st.broken
    ensures Queue(rings, st', q, from)
  {
  }

  /** The pump has handed the same bytes to the stream. */
  predicate SamePosition(pump: Pump, pump': Pump) {
    && pump'.offset - |pump'.held| == pump.offset - |pump.held|
    && (pump.phase.AtEof? ==> pump'.phase.AtEof?)
  }

  lemma LinkSamePosition(rings: Pair<Ring>, st: Stream, st': Stream, cl: Client)
    requires Linked(rings, st, cl) && !st.phase.Handshake?
    requires SamePosition(st.pumps.out, st'.pumps.out) && SamePosition(st.pumps.err, st'.pumps.err)
    requires st'.asked == st.asked && st'.phase == st.phase && st'.broken == st.broken && st'.down == st.down
    ensures Linked(rings, st', cl)
  {
  }

  lemma TailKeeps(r: Ring, pump: Pump, stop: bool)
    requires RingOk(r) && PumpOk(r, pump, stop) && pump.phase.Tailing? && pump.held == []
    ensures PumpOk(r, Tail(r, pump), stop || Tail(r, pump).phase.Halted?)
    ensures SamePosition(pump, Tail(r, pump))
    ensures !Tail(r, pump).phase.Unplaced?
  {
    if pump.offset <= |r.hist| {
      assert r.hist[pump.offset..pump.offset + |r.hist[pump.offset..]|] == r.hist[pump.offset..];
    }
  }

  lemma ReadPumpStream(rings: Pair<Ring>, st: Stream, k: Kind)
    requires RingOk(rings.Get(k)) && StreamOk(rings, st)
    ensures StreamMove(rings, st, ReadPump(rings, st, k))
    ensures SamePosition(st.pumps.out, ReadPump(rings, st, k).pumps.out)
    ensures SamePosition(st.pumps.err, ReadPump(rings, st, k).pumps.err)
  {
    if st.pumps.Get(k).phase.Tailing? && st.pumps.Get(k).held == [] {
      TailKeeps(rings.Get(k), st.pumps.Get(k), st.stop);
    }
  }

  lemma ReadPumpLink(rings: Pair<Ring>, st: Stream, k: Kind, cl: Client)
    requires RingOk(rings.Get(k)) && StreamOk(rings, st) && Linked(rings, st, cl)
    ensures Linked(rings, ReadPump(rings, st, k), cl)
  {
    if st.phase.Serving? {
      ReadPumpStream(rings, st, k);
      LinkSamePosition(rings, st, ReadPump(rings, st, k), cl);
    }
  }

  lemma SendPumpKeeps(rings: Pair<Ring>, st: Stream, k: Kind, fails: bool, cl: Client)
    requires StreamOk(rings, st)
    ensures StreamMove(rings, st, SendPump(st, k, fails))
    ensures Linked(rings, st, cl) ==> Linked(rings, SendPump(st, k, fails), cl)
  {
    var st' := SendPump(st, k, fails);
    var pump := st.pumps.Get(k);
    if pump.held != [] && !st.broken {
      var m := Output(k, pump.held);
      if Linked(rings, st, cl) {
        if cl.phase.Reading? {
          QueueTakesOutput(rings, st, st', st.down, k, cl.offset);
        } else if cl.phase.Attaching? {
          QueueTakesOutput(rings, st, st', st.down[1..], k, st.down[0].at);
          assert st'.down[1..] == st.down[1..] + [m];
        }
      }
    }
  }

  /** One kind's side of a queue when a message is sent from what its pump held. */
  lemma ContinuesSent(r: Ring, pump: Pump, pump': Pump, q: seq<Msg>, m: Msg, k: Kind, from: nat)
    requires Continues(r, pump, false, Bytes(q, k), from)
    requires BytesOf(m, k) == [] ==> pump' == pump
    requires BytesOf(m, k) != [] ==>
               && BytesOf(m, k) == pump.held && pump' == pump.(held := [])
               && SliceAt(r.hist, pump.offset - |pump.held|, pump.held)
    ensures Continues(r, pump', false, Bytes(q + [m], k), from)
  {
    BytesOfAppend(q, m, k);
    if BytesOf(m, k) == [] {
      assert Bytes(q, k) + [] == Bytes(q, k);
    } else {
      SliceJoin(r.hist, from, Bytes(q, k), pump.held);
    }
  }

  lemma PlainAppend(q: seq<Msg>, m: Msg)
    requires Plain(q) && m.Output? && m.bytes != []
    ensures Plain(q + [m])
  {
  }

  /** While a pump holds output no exit status has been sent. */
  lemma EndsWellSent(rings: Pair<Ring>, st: Stream, st': Stream, q: seq<Msg>, m: Msg, from: Pair<nat>)
    requires EndsWell(rings, st, q, from) && !(st.pumps.out.phase.AtEof? && st.pumps.err.phase.AtEof?)
    requires m.Output?
    ensures EndsWell(rings, st', q + [m], from)
  {
  }

  lemma SendTouches(st: Stream, k: Kind, j: Kind)
    requires !st.broken && st.pumps.Get(k).held != []
    ensures
      var pump := st.pumps.Get(j);
      SendPump(st, k, false).pumps.Get(j) == if j == k then pump.(held := []) else pump
  {
  }

  lemma SendContinues(rings: Pair<Ring>, st: Stream, q: seq<Msg>, k: Kind, from: Pair<nat>, j: Kind)
    requires !st.broken && st.pumps.Get(k).held != [] && PumpOk(rings.Get(k), st.pumps.Get(k), st.stop)
    requires Continues(rings.Get(j), st.pumps.Get(j), false, Bytes(q, j), from.Get(j))
    ensures
      var m := Output(k, st.pumps.Get(k).held);
      Continues(rings.Get(j), SendPump(st, k, false).pumps.Get(j), false, Bytes(q + [m], j), from.Get(j))
  {
    SendTouches(st, k, j);
    ContinuesSent(rings.Get(j), st.pumps.Get(j), SendPump(st, k, false).pumps.Get(j), q,
                  Output(k, st.pumps.Get(k).held), j, from.Get(j));
  }

  lemma QueueTakesOutput(rings: Pair<Ring>, st: Stream, st': Stream, q: seq<Msg>, k: Kind, from: Pair<nat>)
    requires StreamOk(rings, st) && !st.broken && st.pumps.Get(k).held != []
    requires st' == SendPump(st, k, false)
    requires Queue(rings, st, q, from)
    ensures Queue(rings, st', q + [Output(k, st.pumps.Get(k).held)], from)
  {
    var m := Output(k, st.pumps.Get(k).held);
    SendContinues(rings, st, q, k, from, Stdout);
    SendContinues(rings, st, q, k, from, Stderr);
    EndsWellSent(rings, st, st', q, m, from);
    PlainAppend(q, m);
  }

  lemma CancelPumpKeeps(rings: Pair<Ring>, st: Stream, k: Kind, cl: Client)
    requires StreamOk(rings, st)
    ensures StreamMove(rings, st, CancelPump(st, k))
    ensures Linked(rings, st, cl) ==> Linked(rings, CancelPump(st, k), cl)
  {
  }

  lemma ReturnServeKeeps(rings: Pair<Ring>, st: Stream, cl: Client)
    requires StreamOk(rings, st)
    ensures StreamMove(rings, st, ReturnServe(st))
    ensures Linked(rings, st, cl) ==> Linked(rings, ReturnServe(st), cl)
  {
  }

  lemma QueueTakesExit(rings: Pair<Ring>, st: Stream, st': Stream, q: seq<Msg>, x: int, from: Pair<nat>)
    requires StreamOk(rings, st) && !st.broken && st.phase.Finishing?
    requires st' == ReportExit(st, x, true)
    requires Queue(rings, st, q, from)
    ensures Queue(rings, st', q + [ExitStatus(x)], from)
  {
    var m := ExitStatus(x);
    BytesOfAppend(q, m, Stdout);
    BytesOfAppend(q, m, Stderr);
    var q' := q + [m];
    assert Bytes(q', Stdout) == Bytes(q, Stdout) && Bytes(q', Stderr) == Bytes(q, Stderr);
    forall i | 0 <= i < |q|
      ensures !q[i].ExitStatus?
    {
    }
  }

  lemma ReportExitKeeps(rings: Pair<Ring>, st: Stream, x: int, ok: bool, cl: Client)
    requires StreamOk(rings, st)
    ensures StreamMove(rings, st, ReportExit(st, x, ok))
    ensures Linked(rings, st, cl) ==> Linked(rings, ReportExit(st, x, ok), cl)
  {
    var st' := ReportExit(st, x, ok);
    if st.phase.Finishing? && ok && !st.broken && Linked(rings, st, cl) {
      if cl.phase.Reading? {
        QueueTakesExit(rings, st, st', st.down, x, cl.offset);
      } else if cl.phase.Attaching? {
        QueueTakesExit(rings, st, st', st.down[1..], x, st.down[0].at);
        assert st'.down[1..] == st.down[1..] + [ExitStatus(x)];
      }
    }
  }

  lemma QueueBreaks(rings: Pair<Ring>, st: Stream, st': Stream, q: seq<Msg>, n: nat, from: Pair<nat>)
    requires Queue(rings, st, q, from) && n <= |q|
    requires st'.broken && st'.pumps == st.pumps && st'.phase == st.phase
    ensures Queue(rings, st', q[..n], from)
  {
    BytesOfPrefix(q, n, Stdout);
    BytesOfPrefix(q, n, Stderr);
    SliceOfPrefix(rings.out.hist, from.out, Bytes(q, Stdout), Bytes(q[..n], Stdout));
    SliceOfPrefix(rings.err.hist, from.err, Bytes(q, Stderr), Bytes(q[..n], Stderr));
    forall i | 0 <= i < n && q[..n][i].ExitStatus?
      ensures i == n - 1 && Finished(rings, st', q[..n], from)
    {
      assert q[i].ExitStatus?;
      assert n == |q| && q[..n] == q;
    }
  }

  lemma BreakKeeps(rings: Pair<Ring>, st: Stream, keepDown: nat, keepUp: nat, cl: Client)
    requires StreamOk(rings, st)
    ensures StreamMove(rings, st, BreakStream(st, keepDown, keepUp))
    ensures Linked(rings, st, cl) ==> Linked(rings, BreakStream(st, keepDown, keepUp), cl)
  {
    var st' := BreakStream(st, keepDown, keepUp);
    var n := Min(keepDown, |st.down|);
    if Linked(rings, st, cl) {
      if cl.phase.Reading? {
        QueueBreaks(rings, st, st', st.down, n, cl.offset);
      } else if cl.phase.Attaching? && !st.phase.Handshake? && st.down != [] && n > 0 {
        QueueBreaks(rings, st, st', st.down[1..], n - 1, st.down[0].at);
        assert st'.down[1..] == st.down[1..][..n - 1];
      }
    }
  }

  // ----------------------------------------------- steps that touch a stream and the rings

  lemma HandshakenRings(rings: Pair<Ring>, st: Stream)
    requires RingOk(rings.out) && RingOk(rings.err)
    ensures
      var rings' := Handshaken(rings, st).0;
      Grows(rings, rings') && RingOk(rings'.out) && RingOk(rings'.err)
  {
    RingStepsGrow(rings.out, [], st.asked.out);
    RingStepsGrow(rings.err, [], st.asked.err);
  }

  lemma HandshakenStream(rings: Pair<Ring>, st: Stream)
    requires RingOk(rings.out) && RingOk(rings.err) && StreamOk(rings, st)
    ensures StreamMove(Handshaken(rings, st).0, st, Handshaken(rings, st).1)
  {
    HandshakenRings(rings, st);
    StreamGrows(rings, Handshaken(rings, st).0, st);
  }

  lemma HandshakenLink(rings: Pair<Ring>, st: Stream, cl: Client)
    requires StreamOk(rings, st) && Linked(rings, st, cl)
    ensures Linked(Handshaken(rings, st).0, Handshaken(rings, st).1, cl)
  {
    var (rings', st') := Handshaken(rings, st);
    if st.phase.Handshake? && st.phase.stage > 3 && !st.broken {
      assert st'.down[1..] == [];
    }
  }

  /** What a link depends on. */
  lemma LinkSameShape(rings: Pair<Ring>, st: Stream, st': Stream, cl: Client)
    requires Linked(rings, st, cl)
    requires st'.asked == st.asked && st'.pumps == st.pumps && st'.phase == st.phase
    requires st'.broken == st.broken && st'.down == st.down
    ensures Linked(rings, st', cl)
  {
  }

  lemma TakeInputRings(rings: Pair<Ring>, st: Stream)
    requires RingOk(rings.out) && RingOk(rings.err)
    ensures
      var rings' := TakeInput(rings, st).0;
      Grows(rings, rings') && RingOk(rings'.out) && RingOk(rings'.err)
  {
    if !st.inputDone && !st.phase.Handshake? && st.up != [] {
      if st.up[0].Ack? {
        RingStepsGrow(rings.out, [], st.up[0].at.out);
      } else if st.up[0].AckRest? {
        RingStepsGrow(rings.err, [], st.up[0].err);
      }
    }
  }

  lemma TakeInputStream(rings: Pair<Ring>, st: Stream)
    requires RingOk(rings.out) && RingOk(rings.err) && StreamOk(rings, st)
    ensures StreamMove(TakeInput(rings, st).0, st, TakeInput(rings, st).1)
  {
    TakeInputRings(rings, st);
    StreamGrows(rings, TakeInput(rings, st).0, st);
  }

  lemma TakeInputLink(rings: Pair<Ring>, st: Stream, cl: Client)
    requires RingOk(rings.out) && RingOk(rings.err) && Linked(rings, st, cl)
    ensures Linked(TakeInput(rings, st).0, TakeInput(rings, st).1, cl)
  {
    var (rings', st') := TakeInput(rings, st);
    TakeInputRings(rings, st);
    LinkGrows(rings, rings', st, cl);
    LinkSameShape(rings', st, st', cl);
  }

  // ----------------------------------------------- steps that touch a stream and its client

  /** The byte sequences of a queue whose head is output. */
  lemma BytesOfTail(q: seq<Msg>, k: Kind)
    requires q != [] && q[0].Output?
    ensures Bytes(q, k) == BytesOf(q[0], k) + Bytes(q[1..], k)
    ensures q[0].kind != k ==> Bytes(q, k) == Bytes(q[1..], k)
  {
  }

  lemma ContinuesPops(r: Ring, pump: Pump, broken: bool, q: seq<Msg>, from: nat, k: Kind)
    requires q != [] && q[0].Output? && Continues(r, pump, broken, Bytes(q, k), from)
    ensures q[0].kind == k ==>
              && Continues(r, pump, broken, Bytes(q[1..], k), from + |q[0].bytes|)
              && SliceAt(r.hist, from, q[0].bytes)
    ensures q[0].kind != k ==> Continues(r, pump, broken, Bytes(q[1..], k), from)
  {
    BytesOfTail(q, k);
    if q[0].kind == k {
      SliceSplit(r.hist, from, q[0].bytes, Bytes(q[1..], k));
    }
  }

  lemma EndsWellPops(rings: Pair<Ring>, st: Stream, q: seq<Msg>, from: Pair<nat>, from': Pair<nat>)
    requires q != [] && EndsWell(rings, st, q, from)
    requires |Bytes(q, Stdout)| + from.out == |Bytes(q[1..], Stdout)| + from'.out
    requires |Bytes(q, Stderr)| + from.err == |Bytes(q[1..], Stderr)| + from'.err
    ensures EndsWell(rings, st, q[1..], from')
  {
    forall i | 0 <= i < |q[1..]| && q[1..][i].ExitStatus?
      ensures i == |q[1..]| - 1 && Finished(rings, st, q[1..], from')
    {
      assert q[1..][i] == q[i + 1];
    }
  }

  lemma BytesShrink(q: seq<Msg>, k: Kind)
    requires q != [] && q[0].Output?
    ensures |Bytes(q, k)| == |Bytes(q[1..], k)| + (if q[0].kind == k then |q[0].bytes| else 0)
  {
    BytesOfTail(q, k);
  }

  lemma QueuePops(rings: Pair<Ring>, st: Stream, q: seq<Msg>, from: Pair<nat>, from': Pair<nat>)
    requires Queue(rings, st, q, from) && q != [] && q[0].Output?
    requires from' == from.Set(q[0].kind, from.Get(q[0].kind) + |q[0].bytes|)
    ensures Queue(rings, st, q[1..], from')
    ensures SliceAt(rings.Get(q[0].kind).hist, from.Get(q[0].kind), q[0].bytes)
  {
    ContinuesPops(rings.out, st.pumps.out, st.broken, q, from.out, Stdout);
    ContinuesPops(rings.err, st.pumps.err, st.broken, q, from.err, Stderr);
    BytesShrink(q, Stdout);
    BytesShrink(q, Stderr);
    EndsWellPops(rings, st, q, from, from');
  }

  lemma SizeOfAppend(got: seq<Chunk>, c: Chunk)
    ensures Size(got + [c]) == Size(got) + |c.bytes|
  {
    assert (got + [c])[..|got|] == got;
  }

  lemma {:induction false} ChunksAppend(hist: seq<byte>, got: seq<Chunk>, first: nat, offset: nat, b: seq<byte>)
    requires ChunksOk(hist, got, first, offset) && first <= offset && b != [] && SliceAt(hist, offset, b)
    ensures ChunksOk(hist, got + [Chunk(offset, b)], first, offset + |b|)
  {
    var got' := got + [Chunk(offset, b)];
    assert forall i :: 0 <= i < |got| ==> got'[i] == got[i];
  }

  lemma {:induction false} DeliverKeepsAccount(r: Ring, got: seq<Chunk>, first: nat, gaps: nat, offset: nat, b: seq<byte>)
    requires AccountOk(r, got, first, gaps, offset) && b != [] && SliceAt(r.hist, offset, b)
    ensures AccountOk(r, got + [Chunk(offset, b)], first, gaps, offset + |b|)
  {
    SizeOfAppend(got, Chunk(offset, b));
    ChunksAppend(r.hist, got, first, offset, b);
  }

  /** A delivery is one kind's business. */
  lemma DeliverTouches(cl: Client, k: Kind, b: seq<byte>, j: Kind)
    ensures
      var cl' := Deliver(cl, k, b);
      && cl'.got.Get(j) == (if j == k then cl.got.Get(j) + [Chunk(cl.offset.Get(j), b)] else cl.got.Get(j))
      && cl'.offset.Get(j) == (if j == k then cl.offset.Get(j) + |b| else cl.offset.Get(j))
      && cl'.first == cl.first && cl'.gaps == cl.gaps
  {
  }

  ghost predicate AccountOf(rings: Pair<Ring>, cl: Client, k: Kind) {
    AccountOk(rings.Get(k), cl.got.Get(k), cl.first.Get(k), cl.gaps.Get(k), cl.offset.Get(k))
  }

  lemma DeliverKeepsKind(rings: Pair<Ring>, cl: Client, k: Kind, b: seq<byte>, j: Kind)
    requires AccountOf(rings, cl, j)
    requires j == k ==> b != [] && SliceAt(rings.Get(j).hist, cl.offset.Get(j), b)
    ensures AccountOf(rings, Deliver(cl, k, b), j)
  {
    DeliverTouches(cl, k, b, j);
    if j == k {
      DeliverKeepsAccount(rings.Get(j), cl.got.Get(j), cl.first.Get(j), cl.gaps.Get(j), cl.offset.Get(j), b);
    }
  }

  lemma DeliverKeeps(rings: Pair<Ring>, cl: Client, k: Kind, b: seq<byte>)
    requires ClientOk(rings, cl) && cl.phase.Reading? && b != [] && SliceAt(rings.Get(k).hist, cl.offset.Get(k), b)
    ensures ClientOk(rings, Deliver(cl, k, b))
  {
    DeliverKeepsKind(rings, cl, k, b, Stdout);
    DeliverKeepsKind(rings, cl, k, b, Stderr);
  }

  /** Moving past a gap keeps the account, whether the gap is empty or not. */
  lemma GapKeepsAccount(r: Ring, got: seq<Chunk>, first: nat, gaps: nat, offset: nat, at: nat)
    requires AccountOk(r, got, first, gaps, offset)
    ensures AccountOk(r, got, first, gaps + Max(0, at - offset), Max(offset, at))
  {
  }

  lemma WelcomeKeeps(rings: Pair<Ring>, cl: Client, at: Pair<nat>, s: nat)
    requires ClientOk(rings, cl) && cl.phase.Attaching?
    requires cl.offset.out <= at.out && cl.offset.err <= at.err
    ensures ClientOk(rings, Welcome(cl, at).(phase := Reading(s)))
    ensures Welcome(cl, at).offset == at
  {
    GapKeepsAccount(rings.out, cl.got.out, cl.first.out, cl.gaps.out, cl.offset.out, at.out);
    GapKeepsAccount(rings.err, cl.got.err, cl.first.err, cl.gaps.err, cl.offset.err, at.err);
  }

  lemma MaybeAckKeeps(rings: Pair<Ring>, st: Stream, cl: Client, sent: bool)
    requires StreamOk(rings, st) && ClientOk(rings, cl) && cl.phase.Reading? && Linked(rings, st, cl)
    ensures
      var (st', cl') := MaybeAck(st, cl, sent);
      && StreamMove(rings, st, st') && ClientOk(rings, cl') && Linked(rings, st', cl') && cl'.phase == cl.phase
  {
  }

  lemma ReceiveHello(rings: Pair<Ring>, st: Stream, cl: Client, s: nat, sent: bool)
    requires StreamOk(rings, st) && ClientOk(rings, cl) && cl.phase == Attaching(s) && Linked(rings, st, cl)
    requires st.down != []
    ensures
      var (st', cl') := Receive(st, cl, s, sent);
      StreamMove(rings, st, st') && ClientOk(rings, cl') && cl'.phase == Reading(s) && Linked(rings, st', cl')
  {
    WelcomeKeeps(rings, cl, st.down[0].at, s);
  }

  lemma PopStream(rings: Pair<Ring>, st: Stream, n: nat)
    requires StreamOk(rings, st) && n <= |st.down|
    ensures StreamMove(rings, st, st.(down := st.down[n..]))
  {
  }

  lemma PopLink(rings: Pair<Ring>, st: Stream, rest: Stream, cl: Client)
    requires Queue(rings, st, st.down, cl.offset) && !st.phase.Handshake? && cl.phase.Reading?
    requires st.down != [] && st.down[0].Output? && rest == st.(down := st.down[1..])
    ensures Linked(rings, rest, Deliver(cl, st.down[0].kind, st.down[0].bytes))
    ensures SliceAt(rings.Get(st.down[0].kind).hist, cl.offset.Get(st.down[0].kind), st.down[0].bytes)
  {
    var m := st.down[0];
    var from := cl.offset.Set(m.kind, cl.offset.Get(m.kind) + |m.bytes|);
    QueuePops(rings, st, st.down, cl.offset, from);
    QueueSameShape(rings, st, rest, rest.down, from);
    assert Deliver(cl, m.kind, m.bytes).offset == from;
  }

  lemma PopKeeps(rings: Pair<Ring>, st: Stream, cl: Client)
    requires StreamOk(rings, st) && ClientOk(rings, cl) && cl.phase.Reading? && Linked(rings, st, cl)
    requires st.down != [] && st.down[0].Output?
    ensures
      var rest := st.(down := st.down[1..]);
      var cl' := Deliver(cl, st.down[0].kind, st.down[0].bytes);
      StreamMove(rings, st, rest) && ClientOk(rings, cl') && cl'.phase == cl.phase && Linked(rings, rest, cl')
  {
    PopStream(rings, st, 1);
    PopLink(rings, st, st.(down := st.down[1..]), cl);
    DeliverKeeps(rings, cl, st.down[0].kind, st.down[0].bytes);
  }

  lemma ReceiveOutput(rings: Pair<Ring>, st: Stream, cl: Client, s: nat, sent: bool)
    requires StreamOk(rings, st) && ClientOk(rings, cl) && cl.phase == Reading(s) && Linked(rings, st, cl)
    requires st.down != [] && st.down[0].Output?
    ensures
      var (st', cl') := Receive(st, cl, s, sent);
      StreamMove(rings, st, st') && ClientOk(rings, cl') && cl'.phase == Reading(s) && Linked(rings, st', cl')
  {
    PopKeeps(rings, st, cl);
    MaybeAckKeeps(rings, st.(down := st.down[1..]), Deliver(cl, st.down[0].kind, st.down[0].bytes), sent);
  }

  lemma ReceiveExit(rings: Pair<Ring>, st: Stream, cl: Client, s: nat, sent: bool)
    requires StreamOk(rings, st) && ClientOk(rings, cl) && cl.phase == Reading(s) && Linked(rings, st, cl)
    requires st.down != [] && st.down[0].ExitStatus?
    ensures
      var (st', cl') := Receive(st, cl, s, sent);
      StreamMove(rings, st, st') && ClientOk(rings, cl') && StreamOf(cl').None?
  {
    assert st.down[1..] == [];
    assert Bytes(st.down, Stdout) == [] && Bytes(st.down, Stderr) == [];
  }

  lemma ReceiveKeeps(rings: Pair<Ring>, st: Stream, cl: Client, s: nat, sent: bool)
    requires StreamOk(rings, st) && ClientOk(rings, cl) && StreamOf(cl) == Some(s) && Linked(rings, st, cl)
    ensures
      var (st', cl') := Receive(st, cl, s, sent);
      && StreamMove(rings, st, st') && ClientOk(rings, cl')
      && (StreamOf(cl').Some? ==> StreamOf(cl') == Some(s) && Linked(rings, st', cl'))
  {
    if st.down != [] {
      if cl.phase.Attaching? {
        ReceiveHello(rings, st, cl, s, sent);
      } else if st.down[0].Output? {
        ReceiveOutput(rings, st, cl, s, sent);
      } else {
        assert !st.down[0].Hello?;
        ReceiveExit(rings, st, cl, s, sent);
      }
    }
  }

  // --------------------------------------------------------------------------- whole steps

  /** A move of one stream that keeps everything the invariant asks of it. */
  ghost predicate Carries(rings: Pair<Ring>, st: Stream, rings': Pair<Ring>, st': Stream) {
    && Grows(rings, rings') && RingOk(rings'.out) && RingOk(rings'.err)
    && StreamMove(rings', st, st')
    && (forall cl: Client :: Linked(rings, st, cl) ==> Linked(rings', st', cl))
  }

  const Nobody := Client(Pair(0, 0), 0, Detached, false, Pair(0, 0), Pair(0, 0), Pair([], []), false)

  lemma HandshakenCarries(rings: Pair<Ring>, st: Stream)
    requires RingOk(rings.out) && RingOk(rings.err) && StreamOk(rings, st)
    ensures Carries(rings, st, Handshaken(rings, st).0, Handshaken(rings, st).1)
  {
    HandshakenRings(rings, st);
    HandshakenStream(rings, st);
    forall cl: Client | Linked(rings, st, cl)
      ensures Linked(Handshaken(rings, st).0, Handshaken(rings, st).1, cl)
    {
      HandshakenLink(rings, st, cl);
    }
  }

  lemma TakeInputCarries(rings: Pair<Ring>, st: Stream)
    requires RingOk(rings.out) && RingOk(rings.err) && StreamOk(rings, st)
    ensures Carries(rings, st, TakeInput(rings, st).0, TakeInput(rings, st).1)
  {
    TakeInputRings(rings, st);
    TakeInputStream(rings, st);
    forall cl: Client | Linked(rings, st, cl)
      ensures Linked(TakeInput(rings, st).0, TakeInput(rings, st).1, cl)
    {
      TakeInputLink(rings, st, cl);
    }
  }

  lemma ReadPumpCarries(rings: Pair<Ring>, st: Stream, k: Kind)
    requires RingOk(rings.out) && RingOk(rings.err) && StreamOk(rings, st)
    ensures Carries(rings, st, rings, ReadPump(rings, st, k))
  {
    ReadPumpStream(rings, st, k);
    forall cl: Client | Linked(rings, st, cl) ensures Linked(rings, ReadPump(rings, st, k), cl) {
      ReadPumpLink(rings, st, k, cl);
    }
  }

  lemma SendPumpCarries(rings: Pair<Ring>, st: Stream, k: Kind, fails: bool)
    requires RingOk(rings.out) && RingOk(rings.err) && StreamOk(rings, st)
    ensures Carries(rings, st, rings, SendPump(st, k, fails))
  {
    SendPumpKeeps(rings, st, k, fails, Nobody);
    forall cl: Client | Linked(rings, st, cl) ensures Linked(rings, SendPump(st, k, fails), cl) {
      SendPumpKeeps(rings, st, k, fails, cl);
    }
  }

  lemma CancelPumpCarries(rings: Pair<Ring>, st: Stream, k: Kind)
    requires RingOk(rings.out) && RingOk(rings.err) && StreamOk(rings, st)
    ensures Carries(rings, st, rings, CancelPump(st, k))
  {
    CancelPumpKeeps(rings, st, k, Nobody);
    forall cl: Client | Linked(rings, st, cl) ensures Linked(rings, CancelPump(st, k), cl) {
      CancelPumpKeeps(rings, st, k, cl);
    }
  }

  lemma ReportExitCarries(rings: Pair<Ring>, st: Stream, x: int, ok: bool)
    requires RingOk(rings.out) && RingOk(rings.err) && StreamOk(rings, st)
    ensures Carries(rings, st, rings, ReportExit(st, x, ok))
  {
    ReportExitKeeps(rings, st, x, ok, Nobody);
    forall cl: Client | Linked(rings, st, cl) ensures Linked(rings, ReportExit(st, x, ok), cl) {
      ReportExitKeeps(rings, st, x, ok, cl);
    }
  }

  lemma BreakCarries(rings: Pair<Ring>, st: Stream, keepDown: nat, keepUp: nat)
    requires RingOk(rings.out) && RingOk(rings.err) && StreamOk(rings, st)
    ensures Carries(rings, st, rings, BreakStream(st, keepDown, keepUp))
  {
    BreakKeeps(rings, st, keepDown, keepUp, Nobody);
    forall cl: Client | Linked(rings, st, cl) ensures Linked(rings, BreakStream(st, keepDown, keepUp), cl) {
      BreakKeeps(rings, st, keepDown, keepUp, cl);
    }
  }

  lemma FlagsCarry(rings: Pair<Ring>, st: Stream)
    requires RingOk(rings.out) && RingOk(rings.err) && StreamOk(rings, st)
    ensures Carries(rings, st, rings, st)
    ensures Carries(rings, st, rings, st.(stop := true))
    ensures Carries(rings, st, rings, st.(inputDone := true))
    ensures Carries(rings, st, rings, ReturnServe(st))
  {
    forall cl: Client | Linked(rings, st, cl)
      ensures Linked(rings, st.(stop := true), cl) && Linked(rings, st.(inputDone := true), cl)
    {
      LinkSameShape(rings, st, st.(stop := true), cl);
      LinkSameShape(rings, st, st.(inputDone := true), cl);
    }
    ReturnServeKeeps(rings, st, Nobody);
    forall cl: Client | Linked(rings, st, cl) ensures Linked(rings, ReturnServe(st), cl) {
      ReturnServeKeeps(rings, st, cl);
    }
  }

  lemma MovedCarries(rings: Pair<Ring>, st: Stream, current: bool, exited: Option<int>, e: StreamEvent)
    requires RingOk(rings.out) && RingOk(rings.err) && StreamOk(rings, st)
    ensures Carries(rings, st, Moved(rings, st, current, exited, e).0, Moved(rings, st, current, exited, e).1)
  {
    FlagsCarry(rings, st);
    match e {
      case AttachStep => HandshakenCarries(rings, st);
      case InputStep => TakeInputCarries(rings, st);
      case PumpRead(k) => ReadPumpCarries(rings, st, k);
      case PumpSend(k, fails) => SendPumpCarries(rings, st, k, fails);
      case PumpCancel(k) => CancelPumpCarries(rings, st, k);
      case SendExit(ok) => if exited.Some? { ReportExitCarries(rings, st, exited.value, ok); }
      case Break(keepDown, keepUp) => BreakCarries(rings, st, keepDown, keepUp);
      case _ =>
    }
  }

  /** Replacing one stream keeps the invariant if the stream and the link to its owner are kept. */
  lemma ReplaceStream(sys: System, rings': Pair<Ring>, s: nat, st': Stream, current: Option<nat>)
    requires Inv(sys) && s < |sys.streams|
    requires Carries(sys.rings, sys.streams[s], rings', st')
    ensures Inv(WithStream(sys, s, st').(rings := rings', current := current))
  {
    var sys' := WithStream(sys, s, st').(rings := rings', current := current);
    InvGrows(sys, rings');
    forall c | 0 <= c < |sys.clients|
      ensures Attached(sys', c)
    {
      assert Attached(sys, c);
      assert Attached(sys.(rings := rings'), c);
    }
  }

  lemma StreamStepKeepsInv(sys: System, s: nat, e: StreamEvent)
    requires Inv(sys) && s < |sys.streams|
    ensures Inv(StreamStep(sys, s, e))
  {
    var current := sys.current == Some(s);
    MovedCarries(sys.rings, sys.streams[s], current, sys.exited, e);
    var (rings', st') := Moved(sys.rings, sys.streams[s], current, sys.exited, e);
    ReplaceStream(sys, rings', s, st', StreamStep(sys, s, e).current);
  }

  /** The invariant speaks of rings, streams and clients only. */
  lemma SameParts(sys: System, sys': System)
    requires Inv(sys) && sys'.rings == sys.rings && sys'.streams == sys.streams && sys'.clients == sys.clients
    ensures Inv(sys')
  {
    forall c | 0 <= c < |sys'.clients|
      ensures Attached(sys', c)
    {
      assert Attached(sys, c);
    }
  }

  /** Replacing a client together with the stream it owns. */
  lemma ReplaceBoth(sys: System, s: nat, st': Stream, c: nat, cl': Client)
    requires Inv(sys) && s < |sys.streams| && c < |sys.clients| && sys.streams[s].owner == c
    requires StreamMove(sys.rings, sys.streams[s], st') && ClientOk(sys.rings, cl')
    requires StreamOf(cl').Some? ==> StreamOf(cl') == Some(s) && Linked(sys.rings, st', cl')
    ensures Inv(WithBoth(sys, s, st', c, cl'))
  {
    var sys' := WithBoth(sys, s, st', c, cl');
    forall d | 0 <= d < |sys'.clients|
      ensures Attached(sys', d)
    {
      assert Attached(sys, d);
    }
  }

  lemma AttachKeepsInv(sys: System, c: nat)
    requires Inv(sys) && c < |sys.clients|
    ensures Inv(Attaches(sys, c))
  {
    var sys' := Attaches(sys, c);
    forall d | 0 <= d < |sys'.clients|
      ensures Attached(sys', d)
    {
      assert Attached(sys, d);
    }
    forall s | 0 <= s < |sys'.streams|
      ensures StreamOk(sys'.rings, sys'.streams[s])
    {
      if s < |sys.streams| {
        assert sys'.streams[s] == sys.streams[s];
      }
    }
  }

  /** What one event of a client keeps of the client and the stream it is on. */
  predicate TogetherOk(rings: Pair<Ring>, st: Stream, st': Stream, cl': Client, s: nat) {
    && StreamMove(rings, st, st') && ClientOk(rings, cl')
    && (StreamOf(cl').Some? ==> StreamOf(cl') == Some(s) && Linked(rings, st', cl'))
  }

  lemma CloseStdinKeeps(rings: Pair<Ring>, st: Stream, cl: Client, s: nat)
    requires StreamOk(rings, st) && ClientOk(rings, cl) && StreamOf(cl) == Some(s) && Linked(rings, st, cl)
    ensures TogetherOk(rings, st, Together(st, cl, s, CloseStdin).0, Together(st, cl, s, CloseStdin).1, s)
  {
  }

  lemma SendInputKeeps(rings: Pair<Ring>, st: Stream, cl: Client, s: nat)
    requires StreamOk(rings, st) && ClientOk(rings, cl) && StreamOf(cl) == Some(s) && Linked(rings, st, cl)
    ensures TogetherOk(rings, st, Together(st, cl, s, SendInput).0, Together(st, cl, s, SendInput).1, s)
  {
    LinkSameShape(rings, st, Together(st, cl, s, SendInput).0, cl);
  }

  lemma TogetherKeeps(rings: Pair<Ring>, st: Stream, cl: Client, s: nat, e: ClientEvent)
    requires StreamOk(rings, st) && ClientOk(rings, cl) && StreamOf(cl) == Some(s) && Linked(rings, st, cl)
    ensures TogetherOk(rings, st, Together(st, cl, s, e).0, Together(st, cl, s, e).1, s)
  {
    match e {
      case Recv(sent) => ReceiveKeeps(rings, st, cl, s, sent);
      case CloseStdin => CloseStdinKeeps(rings, st, cl, s);
      case SendInput => SendInputKeeps(rings, st, cl, s);
      case _ =>
    }
  }

  lemma DoneWithStdinKeepsInv(sys: System, c: nat)
    requires Inv(sys) && c < |sys.clients| && StreamOf(sys.clients[c]).None?
    ensures Inv(sys.(clients := sys.clients[c := sys.clients[c].(stdinDone := true)]))
  {
    var sys' := sys.(clients := sys.clients[c := sys.clients[c].(stdinDone := true)]);
    assert ClientOk(sys.rings, sys.clients[c]);
    assert ClientOk(sys.rings, sys'.clients[c]);
    forall d | 0 <= d < |sys'.clients|
      ensures Attached(sys', d)
    {
      assert Attached(sys, d);
    }
  }

  lemma ClientStepKeepsInv(sys: System, c: nat, e: ClientEvent)
    requires Inv(sys) && c < |sys.clients|
    ensures Inv(ClientStep(sys, c, e))
  {
    var cl := sys.clients[c];
    var on := StreamOf(cl);
    assert Attached(sys, c);
    if e.Attach? {
      AttachKeepsInv(sys, c);
    } else if on.Some? {
      TogetherKeeps(sys.rings, sys.streams[on.value], cl, on.value, e);
      var (st', cl') := Together(sys.streams[on.value], cl, on.value, e);
      ReplaceBoth(sys, on.value, st', c, cl');
    } else if e.CloseStdin? {
      DoneWithStdinKeepsInv(sys, c);
    }
  }

  lemma JoinKeepsInv(sys: System, asked: Pair<nat>)
    requires Inv(sys)
    ensures Inv(Step(sys, Join(asked)))
  {
    var sys' := Step(sys, Join(asked));
    forall d | 0 <= d < |sys'.clients|
      ensures Attached(sys', d) && ClientOk(sys'.rings, sys'.clients[d])
    {
      if d < |sys.clients| {
        assert sys'.clients[d] == sys.clients[d] && Attached(sys, d);
      }
    }
  }

  lemma RingStepGrows(r: Ring, e: RingEvent)
    requires RingOk(r)
    ensures RingGrows(r, RingStep(r, e)) && RingOk(RingStep(r, e)) && RingStep(r, e).released == r.released
  {
    RingStepsGrow(r, if e.Write? then e.p else [], 0);
  }

  lemma StepKeepsInv(sys: System, e: Event)
    requires Inv(sys)
    ensures Inv(Step(sys, e))
  {
    match e {
      case OnRing(k, r) =>
        RingStepGrows(sys.rings.Get(k), r);
        InvGrows(sys, sys.rings.Set(k, RingStep(sys.rings.Get(k), r)));
      case OnStream(s, e) => if s < |sys.streams| { StreamStepKeepsInv(sys, s, e); }
      case OnClient(c, e) => if c < |sys.clients| { ClientStepKeepsInv(sys, c, e); }
      case Join(asked) => JoinKeepsInv(sys, asked);
      case _ => SameParts(sys, Step(sys, e));
    }
  }

  predicate GoodCapacity(capacity: Pair<nat>) {
    0 < capacity.out < TWO_63 && 0 < capacity.err < TWO_63
  }

  lemma InitInv(capacity: Pair<nat>, lossless: bool)
    requires GoodCapacity(capacity)
    ensures Inv(Init(capacity, lossless))
  {
    assert Attached(Init(capacity, lossless), 0);
  }

  lemma {:induction false} RunKeepsInv(sys: System, events: seq<Event>)
    requires Inv(sys)
    ensures Inv(Run(sys, events))
    decreases |events|
  {
    if events != [] {
      StepKeepsInv(sys, events[0]);
      RunKeepsInv(Step(sys, events[0]), events[1..]);
    }
  }

  // ------------------------------------------------------------------------------ theorems

  /** On a live stream the client's offset, the bytes queued towards it and the bytes its pump
      holds add up to the pump's offset, and they are the history that follows the client's offset. */
  lemma OffsetsAligned(capacity: Pair<nat>, lossless: bool, events: seq<Event>, c: nat, k: Kind)
    requires GoodCapacity(capacity)
    ensures
      var sys := Run(Init(capacity, lossless), events);
      c < |sys.clients| && sys.clients[c].phase.Reading? ==>
        var s := sys.clients[c].phase.stream;
        && s < |sys.streams|
        && var st := sys.streams[s];
           var offset := sys.clients[c].offset.Get(k);
           var pump := st.pumps.Get(k);
           && SliceAt(sys.rings.Get(k).hist, offset, Bytes(st.down, k))
           && (!st.broken ==> offset + |Bytes(st.down, k)| + |pump.held| == pump.offset)
  {
    InitInv(capacity, lossless);
    RunKeepsInv(Init(capacity, lossless), events);
    var sys := Run(Init(capacity, lossless), events);
    if c < |sys.clients| {
      assert Attached(sys, c);
    }
  }

  /** What a client delivered is pieces of the history at strictly increasing offsets, and its
      offset is where it first joined, plus what it delivered, plus the gaps it was told of. */
  lemma DeliveriesAccounted(capacity: Pair<nat>, lossless: bool, events: seq<Event>, c: nat, k: Kind)
    requires GoodCapacity(capacity)
    ensures
      var sys := Run(Init(capacity, lossless), events);
      c < |sys.clients| ==>
        var cl := sys.clients[c];
        var got := cl.got.Get(k);
        && (forall i :: 0 <= i < |got| ==> got[i].bytes != [] && SliceAt(sys.rings.Get(k).hist, got[i].at, got[i].bytes))
        && (forall i, j :: 0 <= i < j < |got| ==> got[i].at + |got[i].bytes| <= got[j].at)
        && cl.offset.Get(k) == cl.first.Get(k) + Size(got) + cl.gaps.Get(k)
  {
    InitInv(capacity, lossless);
    RunKeepsInv(Init(capacity, lossless), events);
  }

  /** A client that was given the exit status has reached the end of both histories, and neither
      can grow any more. */
  lemma ExitStatusMeansEnd(capacity: Pair<nat>, lossless: bool, events: seq<Event>, c: nat, k: Kind)
    requires GoodCapacity(capacity)
    ensures
      var sys := Run(Init(capacity, lossless), events);
      c < |sys.clients| && sys.clients[c].phase.Done? && sys.clients[c].phase.status.Some? ==>
        sys.rings.Get(k).closed && |sys.rings.Get(k).hist| <= sys.clients[c].offset.Get(k)
  {
    InitInv(capacity, lossless);
    RunKeepsInv(Init(capacity, lossless), events);
  }
}
