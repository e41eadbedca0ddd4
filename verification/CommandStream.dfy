/**
 The resumable output protocol between a remote daemon and the clients of one managed
 command, as a state machine over its atomic steps.

 The daemon drains the command into two rings. An attached stream has two pumps tailing the
 rings onto one FIFO towards the client, and a FIFO of requests back. Clients count the bytes
 they deliver, confirm them, and after a transport break attach again at their offsets. Writes,
 reads, sends, deliveries, confirmations, breaks, takeovers and re-attaches interleave freely:
 a run is any sequence of events, and an event that is not possible in a state leaves it alone.

 A stream that breaks keeps an arbitrary prefix of what was in flight in each direction, and a
 send on it may report success although the message is lost.
 */
module CommandStream {
  import opened OutputRing
  import opened Options

  /** How much newly delivered output accrues before a client confirms it. */
  const ACK_EVERY: nat := 131072

  datatype Kind = Stdout | Stderr

  datatype Pair<T> = Pair(out: T, err: T) {
    function Get(k: Kind): T {
      if k.Stdout? then out else err
    }
    function Set(k: Kind, v: T): Pair<T> {
      if k.Stdout? then Pair(v, err) else Pair(out, v)
    }
  }

  function Total(p: Pair<nat>): nat {
    p.out + p.err
  }

  // ------------------------------------------------------------------------------- state

  datatype Msg =
    | Hello(at: Pair<nat>)
    | Output(kind: Kind, bytes: seq<byte>)
    | ExitStatus(status: int)

  /** `AckRest` is a confirmation of which the stdout half has been applied; `Input` is stdin, a
      signal, or any other request that does not concern output. */
  datatype Request = Ack(at: Pair<nat>) | AckRest(err: nat) | Input

  datatype PumpPhase = Unplaced | Tailing | AtEof | Halted

  /** `held` has been read from the ring and not yet handed to the stream. */
  datatype Pump = Pump(offset: nat, held: seq<byte>, phase: PumpPhase)

  datatype ServePhase = Handshake(stage: nat) | Serving | Finishing | Returned

  datatype Stream = Stream(
    owner: nat,
    asked: Pair<nat>,
    pumps: Pair<Pump>,
    phase: ServePhase,
    stop: bool,
    broken: bool,
    down: seq<Msg>,
    up: seq<Request>,
    sendClosed: bool,
    inputDone: bool)

  /** Bytes handed to the consumer, and the history offset they were delivered as. */
  datatype Chunk = Chunk(at: nat, bytes: seq<byte>)

  datatype ClientPhase =
    | Detached
    | Attaching(stream: nat)
    | Reading(stream: nat)
    | Done(status: Option<int>)

  datatype Client = Client(
    offset: Pair<nat>,
    acked: nat,
    phase: ClientPhase,
    welcomed: bool,
    first: Pair<nat>,
    gaps: Pair<nat>,
    got: Pair<seq<Chunk>>,
    stdinDone: bool)

  /** `kept` is the policy that lets the command outlive its client; `forgotten` says that the registry
      no longer knows the command. */
  datatype System = System(
    rings: Pair<Ring>,
    exited: Option<int>,
    current: Option<nat>,
    kept: bool,
    forgotten: bool,
    streams: seq<Stream>,
    clients: seq<Client>)

  datatype RingEvent = Write(p: seq<byte>) | CloseRing

  /** Steps of the daemon serving one stream, and of its transport. */
  datatype StreamEvent =
    | AttachStep
    | PumpRead(kind: Kind)
    | PumpSend(kind: Kind, fails: bool)
    | PumpCancel(kind: Kind)
    | StopServe
    | ServeReturn
    | SendExit(ok: bool)
    | ClientGone
    | InputStep
    | InputLeave
    | Break(keepDown: nat, keepUp: nat)

  datatype ClientEvent =
    | Attach
    | Recv(sent: bool)
    | RecvError(fatal: bool)
    | CloseStdin
    | SendInput

  datatype Event =
    | OnRing(kind: Kind, ring: RingEvent)
    | OnStream(s: nat, stream: StreamEvent)
    | OnClient(c: nat, client: ClientEvent)
    | Exit(status: int)
    | Join(asked: Pair<nat>)
    | Detach
    | Reap

  /** The state once the client that started the command holds its identifier. The commands with
      lossless rings are those that are killed on disconnect. */
  function Init(capacity: Pair<nat>, lossless: bool): System {
    System(
      Pair(Ring([], capacity.out, lossless, 0, false), Ring([], capacity.err, lossless, 0, false)),
      None,
      Some(0),
      !lossless,
      false,
      [Stream(0, Pair(0, 0), Pair(Pump(0, [], Tailing), Pump(0, [], Tailing)), Serving, false, false, [], [], false, false)],
      [Client(Pair(0, 0), 0, Reading(0), true, Pair(0, 0), Pair(0, 0), Pair([], []), false)])
  }

  // --------------------------------------------------------------------- the daemon's side

  /** A tailing pump reads its ring. Outrun by eviction it halts rather than skip bytes. */
  function Tail(r: Ring, pump: Pump): Pump {
    match ReadRing(r, pump.offset)
    case Data(data, at) => if at != pump.offset then pump.(phase := Halted) else Pump(at + |data|, data, Tailing)
    case Eof(_) => pump.(phase := AtEof)
    case Waiting(_) => pump
  }

  /** A pump that was outrun stops the whole stream. */
  function ReadPump(rings: Pair<Ring>, st: Stream, k: Kind): Stream {
    var pump := st.pumps.Get(k);
    if !st.phase.Serving? || !pump.phase.Tailing? || pump.held != [] then st
    else
      var pump' := Tail(rings.Get(k), pump);
      st.(pumps := st.pumps.Set(k, pump'), stop := st.stop || pump'.phase.Halted?)
  }

  function SendPump(st: Stream, k: Kind, fails: bool): Stream {
    var pump := st.pumps.Get(k);
    if pump.held == [] then st
    else if !st.broken then
      st.(pumps := st.pumps.Set(k, pump.(held := [])), down := st.down + [Output(k, pump.held)])
    else if fails then
      st.(stop := true, pumps := st.pumps.Set(k, pump.(held := [], phase := Halted)))
    else
      st.(pumps := st.pumps.Set(k, pump.(held := [])))
  }

  function CancelPump(st: Stream, k: Kind): Stream {
    var pump := st.pumps.Get(k);
    if st.phase.Serving? && st.stop && pump.phase.Tailing? && pump.held == [] then
      st.(pumps := st.pumps.Set(k, pump.(phase := Halted)))
    else st
  }

  function PumpsEnded(st: Stream): bool {
    && (st.pumps.out.phase.AtEof? || st.pumps.out.phase.Halted?)
    && (st.pumps.err.phase.AtEof? || st.pumps.err.phase.Halted?)
  }

  /** Once both pumps are done, an interrupted tail ends the stream; a complete one goes on to
      report the exit status. */
  function ReturnServe(st: Stream): Stream {
    if st.phase.Serving? && PumpsEnded(st) then
      st.(phase := if st.stop then Returned else Finishing)
    else st
  }

  /** `ok` is false when the exit record is an error, or the send reports failure. */
  function ReportExit(st: Stream, status: int, ok: bool): Stream {
    if !st.phase.Finishing? then st
    else if ok && !st.broken then st.(phase := Returned, down := st.down + [ExitStatus(status)])
    else st.(phase := Returned)
  }

  function OpenStream(owner: nat, asked: Pair<nat>): Stream {
    Stream(owner, asked, Pair(Pump(0, [], Unplaced), Pump(0, [], Unplaced)), Handshake(0), false, false, [], [], false, false)
  }

  function Place(asked: nat, r: Ring): Pump {
    Pump(Max(asked, r.Start()), [], Tailing)
  }

  /** The attach handshake: confirm what the client has, then place each pump at the requested
      offset or the earliest retained byte, then answer with those offsets. */
  function Handshaken(rings: Pair<Ring>, st: Stream): (Pair<Ring>, Stream) {
    if !st.phase.Handshake? then (rings, st)
    else if st.phase.stage == 0 then
      (rings.Set(Stdout, rings.out.Release(st.asked.out)), st.(phase := Handshake(1)))
    else if st.phase.stage == 1 then
      (rings.Set(Stderr, rings.err.Release(st.asked.err)), st.(phase := Handshake(2)))
    else if st.phase.stage == 2 then
      (rings, st.(phase := Handshake(3), pumps := st.pumps.Set(Stdout, Place(st.asked.out, rings.out))))
    else if st.phase.stage == 3 then
      (rings, st.(phase := Handshake(4), pumps := st.pumps.Set(Stderr, Place(st.asked.err, rings.err))))
    else
      (rings, st.(phase := Serving,
                  down := if st.broken then st.down
                          else st.down + [Hello(Pair(st.pumps.out.offset, st.pumps.err.offset))]))
  }

  /** One request of the input loop. A confirmation is two critical sections, one a ring. */
  function TakeInput(rings: Pair<Ring>, st: Stream): (Pair<Ring>, Stream) {
    if st.inputDone || st.phase.Handshake? || st.up == [] then (rings, st)
    else
      match st.up[0]
      case Ack(at) => (rings.Set(Stdout, rings.out.Release(at.out)), st.(up := [AckRest(at.err)] + st.up[1..]))
      case AckRest(err) => (rings.Set(Stderr, rings.err.Release(err)), st.(up := st.up[1..]))
      case Input => (rings, st.(up := st.up[1..]))
  }

  function BreakStream(st: Stream, keepDown: nat, keepUp: nat): Stream {
    st.(broken := true,
        down := st.down[..Min(keepDown, |st.down|)],
        up := st.up[..Min(keepUp, |st.up|)])
  }

  // --------------------------------------------------------------------- the client's side

  function Deliver(cl: Client, k: Kind, bytes: seq<byte>): Client {
    cl.(got := cl.got.Set(k, cl.got.Get(k) + [Chunk(cl.offset.Get(k), bytes)]),
        offset := cl.offset.Set(k, cl.offset.Get(k) + |bytes|))
  }

  /** Confirm delivered output once enough has accrued. A send on a half-closed stream fails; on a
      broken one it may seem to succeed. */
  function MaybeAck(st: Stream, cl: Client, sent: bool): (Stream, Client) {
    if Total(cl.offset) - cl.acked < ACK_EVERY || st.sendClosed then (st, cl)
    else if !st.broken then (st.(up := st.up + [Ack(cl.offset)]), cl.(acked := Total(cl.offset)))
    else if sent then (st, cl.(acked := Total(cl.offset)))
    else (st, cl)
  }

  /** The daemon's answer to an attach: bytes between the client's offset and the replay offset
      are a reported gap. */
  function Welcome(cl: Client, at: Pair<nat>): Client {
    if !cl.welcomed then cl.(welcomed := true, first := at, offset := at)
    else
      cl.(gaps := Pair(cl.gaps.out + Max(0, at.out - cl.offset.out), cl.gaps.err + Max(0, at.err - cl.offset.err)),
          offset := Pair(Max(cl.offset.out, at.out), Max(cl.offset.err, at.err)))
  }

  /** One receive on the client's stream `s`. */
  function Receive(st: Stream, cl: Client, s: nat, sent: bool): (Stream, Client) {
    if st.down == [] then (st, cl)
    else
      var st' := st.(down := st.down[1..]);
      match (cl.phase, st.down[0])
      case (Attaching(_), Hello(at)) =>
        (st'.(sendClosed := st.sendClosed || cl.stdinDone), Welcome(cl, at).(phase := Reading(s)))
      case (Attaching(_), _) => (st', cl.(phase := Detached))
      case (Reading(_), Output(k, bytes)) => MaybeAck(st', Deliver(cl, k, bytes), sent)
      case (Reading(_), ExitStatus(x)) => (st', cl.(phase := Done(Some(x))))
      case _ => (st', cl)
  }

  function Failed(st: Stream, cl: Client, fatal: bool): Client {
    if st.down == [] && (st.broken || st.phase.Returned?) then
      cl.(phase := if fatal then Done(None) else Detached)
    else cl
  }

  /** The stream a client is on, if any. */
  function StreamOf(cl: Client): Option<nat> {
    match cl.phase
    case Attaching(s) => Some(s)
    case Reading(s) => Some(s)
    case _ => None
  }

  // ------------------------------------------------------------------------- the whole run

  function WithStream(sys: System, s: nat, st: Stream): System
    requires s < |sys.streams|
  {
    sys.(streams := sys.streams[s := st])
  }

  function WithBoth(sys: System, s: nat, st: Stream, c: nat, cl: Client): System
    requires s < |sys.streams| && c < |sys.clients|
  {
    sys.(streams := sys.streams[s := st], clients := sys.clients[c := cl])
  }

  /** What an event on a stream does to the stream and the rings; `current` says whether the stream
      holds the command's attachment. */
  function Moved(rings: Pair<Ring>, st: Stream, current: bool, exited: Option<int>, e: StreamEvent): (Pair<Ring>, Stream) {
    match e
    case AttachStep => Handshaken(rings, st)
    case InputStep => TakeInput(rings, st)
    case PumpRead(k) => (rings, ReadPump(rings, st, k))
    case PumpSend(k, fails) => (rings, SendPump(st, k, fails))
    case PumpCancel(k) => (rings, CancelPump(st, k))
    case StopServe => (rings, if st.broken || !current then st.(stop := true) else st)
    case ServeReturn => (rings, ReturnServe(st))
    case SendExit(ok) => (rings, if exited.Some? then ReportExit(st, exited.value, ok) else st)
    case InputLeave =>
      (rings, if !current || (st.up == [] && (st.broken || st.sendClosed)) then st.(inputDone := true) else st)
    case Break(keepDown, keepUp) => (rings, BreakStream(st, keepDown, keepUp))
    case ClientGone => (rings, st)
  }

  function StreamStep(sys: System, s: nat, e: StreamEvent): System
    requires s < |sys.streams|
  {
    var (rings, st) := Moved(sys.rings, sys.streams[s], sys.current == Some(s), sys.exited, e);
    var gone := e.ClientGone? && st.phase.Returned? && sys.current == Some(s);
    WithStream(sys, s, st).(rings := rings, current := if gone then None else sys.current)
  }

  /** An attach steals the command from whoever holds it; of a forgotten command there is nothing to
      attach to, and the client gives up. */
  function Attaches(sys: System, c: nat): System
    requires c < |sys.clients|
  {
    var cl := sys.clients[c];
    if !cl.phase.Detached? then sys
    else if sys.forgotten then sys.(clients := sys.clients[c := cl.(phase := Done(None))])
    else
      sys.(current := Some(|sys.streams|),
           streams := sys.streams + [OpenStream(c, cl.offset)],
           clients := sys.clients[c := cl.(phase := Attaching(|sys.streams|))])
  }

  /** A client's event together with the stream it is on. */
  function Together(st: Stream, cl: Client, s: nat, e: ClientEvent): (Stream, Client) {
    match e
    case Recv(sent) => Receive(st, cl, s, sent)
    case RecvError(fatal) => (st, Failed(st, cl, fatal))
    case CloseStdin => (if cl.phase.Reading? then st.(sendClosed := true) else st, cl.(stdinDone := true))
    case SendInput =>
      (if cl.phase.Reading? && !st.broken && !st.sendClosed then st.(up := st.up + [Input]) else st, cl)
    case Attach => (st, cl)
  }

  function ClientStep(sys: System, c: nat, e: ClientEvent): System
    requires c < |sys.clients|
  {
    var cl := sys.clients[c];
    var on := StreamOf(cl);
    if e.Attach? then Attaches(sys, c)
    else if on.Some? && on.value < |sys.streams| then
      var (st, cl') := Together(sys.streams[on.value], cl, on.value, e);
      WithBoth(sys, on.value, st, c, cl')
    else if e.CloseStdin? then sys.(clients := sys.clients[c := cl.(stdinDone := true)])
    else sys
  }

  function RingStep(r: Ring, e: RingEvent): Ring {
    match e
    case Write(p) => r.Append(p)
    case CloseRing => r.Close()
  }

  function Step(sys: System, e: Event): System {
    match e
    case OnRing(k, r) => sys.(rings := sys.rings.Set(k, RingStep(sys.rings.Get(k), r)))
    case OnStream(s, e) => if s < |sys.streams| then StreamStep(sys, s, e) else sys
    case OnClient(c, e) => if c < |sys.clients| then ClientStep(sys, c, e) else sys
    case Exit(x) =>
      if sys.rings.out.closed && sys.rings.err.closed && sys.exited.None? then
        sys.(exited := Some(x), forgotten := sys.forgotten || (!sys.kept && sys.current.None?))
      else sys
    case Join(asked) =>
      sys.(clients := sys.clients + [Client(asked, 0, Detached, false, asked, Pair(0, 0), Pair([], []), false)])
    case Detach => if sys.forgotten then sys else sys.(current := None, kept := true)
    case Reap => if sys.exited.Some? && sys.current.None? then sys.(forgotten := true) else sys
  }

  function Run(sys: System, events: seq<Event>): System
    decreases |events|
  {
    if events == [] then sys else Run(Step(sys, events[0]), events[1..])
  }

  lemma RunOne(sys: System, e: Event, rest: seq<Event>)
    ensures Run(sys, [e] + rest) == Run(Step(sys, e), rest)
  {
    assert ([e] + rest)[1..] == rest;
  }

  lemma {:induction false} RunAll(sys: System, a: seq<Event>, b: seq<Event>)
    ensures Run(sys, a + b) == Run(Run(sys, a), b)
    decreases |a|
  {
    if a == [] {
      assert a + b == b;
    } else {
      assert (a + b)[1..] == a[1..] + b;
      RunAll(Step(sys, a[0]), a[1..], b);
    }
  }
}
