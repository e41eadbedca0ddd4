/**
 Out-of-band messages (signals, environment changes, window sizes) of a resumable command, over
 every interleaving of concurrent senders with stream swaps.

 Messages and streams are numbered in the order they appear. A sender captures the current stream,
 sends on it, and on failure parks the message for the next stream unless the stream was swapped
 meanwhile, in which case it tries again. Installing a stream takes the parked messages and flushes
 them, one send at a time, while senders keep running. A stream whose send side failed or closed
 stays that way.
 */
module OutOfBand {
  import opened Options

  /** How far the call that submitted a message has got. */
  datatype Call = Capturing | Sending(stream: nat) | Parking(stream: nat) | Returned

  datatype Flush = Flush(todo: seq<nat>, failed: seq<nat>)

  datatype State = State(
    current: nat,
    next: nat,
    dead: set<nat>,
    calls: seq<Call>,
    direct: seq<nat>,
    flushed: seq<nat>,
    pending: seq<nat>,
    flush: Option<Flush>,
    parked: seq<nat>)

  datatype Event =
    | Submit
    | Capture(msg: nat)
    | Send(msg: nat, ok: bool)
    | Park(msg: nat)
    | Die(stream: nat)
    | Swap
    | FlushOne(ok: bool)
    | FlushEnd

  function Init(): State {
    State(0, 1, {}, [], [], [], [], None, [])
  }

  function Step(s: State, e: Event): State {
    match e
    case Submit => s.(calls := s.calls + [Capturing])
    case Capture(m) =>
      if m < |s.calls| && s.calls[m].Capturing? then s.(calls := s.calls[m := Sending(s.current)]) else s
    case Send(m, ok) =>
      if m < |s.calls| && s.calls[m].Sending? then
        var stream := s.calls[m].stream;
        if ok && stream !in s.dead then s.(calls := s.calls[m := Returned], direct := s.direct + [m])
        else s.(calls := s.calls[m := Parking(stream)], dead := s.dead + {stream})
      else s
    case Park(m) =>
      if m < |s.calls| && s.calls[m].Parking? then
        if s.calls[m].stream == s.current then
          s.(calls := s.calls[m := Returned], pending := s.pending + [m], parked := s.parked + [m])
        else s.(calls := s.calls[m := Capturing])
      else s
    case Die(stream) => s.(dead := s.dead + {stream})
    case Swap =>
      if s.flush.Some? then s
      else s.(current := s.next, next := s.next + 1, pending := [], flush := Some(Flush(s.pending, [])))
    case FlushOne(ok) =>
      if s.flush.Some? && s.flush.value.todo != [] then
        var f := s.flush.value;
        var rest := f.todo[1..];
        if ok && s.current !in s.dead then
          s.(flush := Some(Flush(rest, f.failed)), flushed := s.flushed + [f.todo[0]])
        else
          s.(flush := Some(Flush(rest, f.failed + [f.todo[0]])), dead := s.dead + {s.current})
      else s
    case FlushEnd =>
      if s.flush.Some? && s.flush.value.todo == [] then
        s.(flush := None, pending := s.flush.value.failed + s.pending)
      else s
  }

  function Run(s: State, events: seq<Event>): State
    decreases |events|
  {
    if events == [] then s else Run(Step(s, events[0]), events[1..])
  }

  // -------------------------------------------------------------------------- invariant

  function Todo(s: State): seq<nat> {
    if s.flush.Some? then s.flush.value.todo else []
  }

  function FailedNow(s: State): seq<nat> {
    if s.flush.Some? then s.flush.value.failed else []
  }

  function Held(s: State, m: nat): nat {
    if m < |s.calls| && !s.calls[m].Returned? then 1 else 0
  }

  /** In how many places a message is. */
  function Places(s: State, m: nat): nat {
    Held(s, m) + multiset(s.direct)[m] + multiset(s.parked)[m]
  }

  /** Every submitted message is in one place, and no other message anywhere. */
  ghost predicate Conserved(s: State) {
    forall m: nat :: Places(s, m) == if m < |s.calls| then 1 else 0
  }

  /** What was ever parked has been flushed, in that order, or still waits in that order. */
  predicate Ordered(s: State) {
    s.parked == s.flushed + FailedNow(s) + Todo(s) + s.pending
  }

  /** Messages wait only behind a stream that cannot send. */
  predicate Waits(s: State) {
    && s.current < s.next
    && (s.pending != [] || FailedNow(s) != [] ==> s.current in s.dead)
    && (forall m :: 0 <= m < |s.calls| && s.calls[m].Parking? ==> s.calls[m].stream in s.dead)
  }

  ghost predicate Inv(s: State) {
    Conserved(s) && Ordered(s) && Waits(s)
  }

  lemma CountAppend(a: seq<nat>, x: nat, m: nat)
    ensures multiset(a + [x])[m] == multiset(a)[m] + if x == m then 1 else 0
  {
    assert multiset(a + [x]) == multiset(a) + multiset{x};
  }

  lemma SendMovesOne(s: State, n: nat, ok: bool, m: nat)
    ensures Places(Step(s, Send(n, ok)), m) == Places(s, m)
  {
    CountAppend(s.direct, n, m);
  }

  lemma ParkMovesOne(s: State, n: nat, m: nat)
    ensures Places(Step(s, Park(n)), m) == Places(s, m)
  {
    CountAppend(s.parked, n, m);
  }

  /** A step moves at most the message it names. */
  lemma StepMovesOne(s: State, e: Event, m: nat)
    requires !e.Submit?
    ensures |Step(s, e).calls| == |s.calls|
    ensures Places(Step(s, e), m) == Places(s, m)
  {
    match e
    case Send(n, ok) => SendMovesOne(s, n, ok, m);
    case Park(n) => ParkMovesOne(s, n, m);
    case _ =>
  }

  lemma StepConserves(s: State, e: Event)
    requires Conserved(s)
    ensures Conserved(Step(s, e))
  {
    var s' := Step(s, e);
    forall m: nat
      ensures Places(s', m) == if m < |s'.calls| then 1 else 0
    {
      assert Places(s, m) == if m < |s.calls| then 1 else 0;
      if e.Submit? {
        assert s'.calls == s.calls + [Capturing];
      } else {
        StepMovesOne(s, e, m);
      }
    }
  }

  /** Once a flushed message has failed no later one of that flush goes out. */
  lemma FlushOneOrders(s: State, ok: bool)
    requires Ordered(s) && Waits(s)
    ensures Ordered(Step(s, FlushOne(ok)))
  {
    if s.flush.Some? && s.flush.value.todo != [] {
      var f := s.flush.value;
      assert f.todo == [f.todo[0]] + f.todo[1..];
      if ok && s.current !in s.dead {
        assert f.failed == [];
        assert s.flushed + [] + ([f.todo[0]] + f.todo[1..]) + s.pending
            == (s.flushed + [f.todo[0]]) + [] + f.todo[1..] + s.pending;
      } else {
        assert s.flushed + f.failed + ([f.todo[0]] + f.todo[1..]) + s.pending
            == s.flushed + (f.failed + [f.todo[0]]) + f.todo[1..] + s.pending;
      }
    }
  }

  lemma StepOrders(s: State, e: Event)
    requires Ordered(s) && Waits(s)
    ensures Ordered(Step(s, e))
  {
    match e {
      case Park(m) =>
        assert s.flushed + FailedNow(s) + Todo(s) + (s.pending + [m])
            == s.flushed + FailedNow(s) + Todo(s) + s.pending + [m];
      case FlushOne(ok) => FlushOneOrders(s, ok);
      case FlushEnd =>
        assert s.flushed + FailedNow(s) + [] + s.pending == s.flushed + [] + [] + (FailedNow(s) + s.pending);
      case Swap =>
        assert s.flushed + [] + [] + s.pending == s.flushed + [] + s.pending + [];
      case _ =>
    }
  }

  lemma StepWaits(s: State, e: Event)
    requires Waits(s)
    ensures Waits(Step(s, e))
  {
  }

  lemma StepKeepsInv(s: State, e: Event)
    requires Inv(s)
    ensures Inv(Step(s, e))
  {
    StepConserves(s, e);
    StepOrders(s, e);
    StepWaits(s, e);
  }

  lemma {:induction false} RunKeepsInv(s: State, events: seq<Event>)
    requires Inv(s)
    ensures Inv(Run(s, events))
    decreases |events|
  {
    if events != [] {
      StepKeepsInv(s, events[0]);
      RunKeepsInv(Step(s, events[0]), events[1..]);
    }
  }

  // --------------------------------------------------------------------------- theorems

  lemma {:induction false} CountOfConcat(a: seq<nat>, b: seq<nat>, m: nat)
    ensures multiset(a + b)[m] == multiset(a)[m] + multiset(b)[m]
  {
    assert multiset(a + b) == multiset(a) + multiset(b);
  }

  /** Conservation: in every interleaving each submitted message is in exactly one place (held by
      its call, sent by its call, sent by a flush, taken by a flush, failed in a flush, or parked),
      and nothing else is anywhere. */
  lemma MessagesConserved(events: seq<Event>, m: nat)
    ensures
      var s := Run(Init(), events);
      Held(s, m) + multiset(s.direct)[m] + multiset(s.flushed)[m] + multiset(FailedNow(s))[m]
      + multiset(Todo(s))[m] + multiset(s.pending)[m] == if m < |s.calls| then 1 else 0
  {
    RunKeepsInv(Init(), events);
    var s := Run(Init(), events);
    assert Places(s, m) == if m < |s.calls| then 1 else 0;
    CountOfConcat(s.flushed + FailedNow(s) + Todo(s), s.pending, m);
    CountOfConcat(s.flushed + FailedNow(s), Todo(s), m);
    CountOfConcat(s.flushed, FailedNow(s), m);
  }

  /** A message waits only for a stream that can no longer send: while the current stream's send side
      is sound nothing is parked, so nothing is forgotten. */
  lemma ParkedOnlyBehindDeadStream(events: seq<Event>)
    ensures
      var s := Run(Init(), events);
      s.flush.None? && s.pending != [] ==> s.current in s.dead
  {
    RunKeepsInv(Init(), events);
  }

  /** Parked messages go out in the order they were parked, whatever flushes fail half way. */
  lemma ParkedOrderKept(events: seq<Event>)
    ensures
      var s := Run(Init(), events);
      s.parked == s.flushed + FailedNow(s) + Todo(s) + s.pending
  {
    RunKeepsInv(Init(), events);
  }

  // ----------------------------------------------------------------------- the two loops

  lemma {:induction false} RunAppend(s: State, a: seq<Event>, b: seq<Event>)
    ensures Run(s, a + b) == Run(Run(s, a), b)
    decreases |a|
  {
    if a == [] {
      assert a + b == b;
    } else {
      assert (a + b)[1..] == a[1..] + b;
      RunAppend(Step(s, a[0]), a[1..], b);
    }
  }

  lemma RunOne(s: State, e: Event)
    ensures Run(s, [e]) == Step(s, e)
  {
    assert [e][1..] == [];
  }

  /** Steps of the rest of the program: other senders, dying streams, the stream being swapped. */
  predicate NotOf(e: Event, m: nat) {
    match e
    case Capture(n) => n != m
    case Send(n, _) => n != m
    case Park(n) => n != m
    case _ => true
  }

  predicate Foreign(es: seq<Event>, m: nat) {
    forall i :: 0 <= i < |es| ==> NotOf(es[i], m)
  }

  lemma {:induction false} ForeignKeepsCall(s: State, es: seq<Event>, m: nat)
    requires Foreign(es, m) && m < |s.calls|
    ensures m < |Run(s, es).calls| && Run(s, es).calls[m] == s.calls[m]
    decreases |es|
  {
    if es != [] {
      assert NotOf(es[0], m);
      ForeignKeepsCall(Step(s, es[0]), es[1..], m);
    }
  }

  /** While a stream is being installed no other one is. */
  predicate NotFlushing(es: seq<Event>) {
    forall i :: 0 <= i < |es| ==> !es[i].Swap? && !es[i].FlushOne? && !es[i].FlushEnd?
  }

  lemma {:induction false} OthersKeepFlush(s: State, es: seq<Event>)
    requires NotFlushing(es)
    ensures Run(s, es).flush == s.flush && Run(s, es).current == s.current
    decreases |es|
  {
    if es != [] {
      OthersKeepFlush(Step(s, es[0]), es[1..]);
    }
  }

  /** What happens around one round of a sender: before its send, whether the send works, before it
      looks at the stream again. */
  datatype Round = Round(beforeSend: seq<Event>, ok: bool, beforePark: seq<Event>)

  datatype FlushTurn = FlushTurn(before: seq<Event>, ok: bool)

  /** The steps of one sender, with what happens around them. */
  function RoundEvents(m: nat, r: Round): seq<Event> {
    [Capture(m)] + r.beforeSend + [Send(m, r.ok)] + (r.beforePark + [Park(m)])
  }

  function SendTrace(m: nat, rounds: seq<Round>): seq<Event>
    decreases |rounds|
  {
    if rounds == [] then []
    else SendTrace(m, rounds[..|rounds| - 1]) + RoundEvents(m, rounds[|rounds| - 1])
  }

  lemma {:induction false} SendTraceGrows(m: nat, rounds: seq<Round>, n: nat)
    requires n < |rounds|
    ensures SendTrace(m, rounds[..n + 1]) == SendTrace(m, rounds[..n]) + RoundEvents(m, rounds[n])
    ensures SendTrace(m, rounds[..n + 1]) <= SendTrace(m, rounds)
    decreases |rounds|
  {
    assert rounds[..n + 1][..n] == rounds[..n];
    if n + 1 < |rounds| {
      var front := rounds[..|rounds| - 1];
      SendTraceGrows(m, front, n);
      assert front[..n + 1] == rounds[..n + 1];
    } else {
      assert rounds[..n + 1] == rounds;
    }
  }

  function FlushTrace(turns: seq<FlushTurn>): seq<Event>
    decreases |turns|
  {
    if turns == [] then [Swap]
    else FlushTrace(turns[..|turns| - 1]) + (turns[|turns| - 1].before + [FlushOne(turns[|turns| - 1].ok)])
  }

  class Messenger {
    var runClient: nat
    var nextClient: nat
    var dead: set<nat>
    var calls: seq<Call>
    var direct: seq<nat>
    var flushed: seq<nat>
    var pending: seq<nat>
    /** The local state of a stream being installed. */
    var flush: Option<Flush>
    var parked: seq<nat>

    ghost function View(): State
      reads this
    {
      State(runClient, nextClient, dead, calls, direct, flushed, pending, flush, parked)
    }

    constructor ()
      ensures View() == Init()
    {
      runClient, nextClient, dead, calls, direct := 0, 1, {}, [], [];
      flushed, pending, flush, parked := [], [], None, [];
    }

    /** The rest of the program runs for a while. */
    method Others(es: seq<Event>)
      modifies this
      ensures View() == Run(old(View()), es)
    {
      var s := Run(State(runClient, nextClient, dead, calls, direct, flushed, pending, flush, parked), es);
      runClient, nextClient, dead, calls := s.current, s.next, s.dead, s.calls;
      direct, flushed, pending, flush, parked := s.direct, s.flushed, s.pending, s.flush, s.parked;
    }

    /** Sends a message, parks it behind a broken stream, or tries again on a fresh one. The call takes
        part in a run of the machine, so what holds of every run holds of it. */
    method SendOob(m: nat, rounds: seq<Round>) returns (done: bool, ghost trace: seq<Event>)
      requires m < |calls| && calls[m].Capturing?
      requires forall r :: r in rounds ==> Foreign(r.beforeSend, m) && Foreign(r.beforePark, m)
      modifies this
      ensures View() == Run(old(View()), trace) && trace <= SendTrace(m, rounds)
      ensures m < |calls| && if done then calls[m].Returned? else calls[m].Capturing? && trace == SendTrace(m, rounds)
    {
      trace := [];
      for n := 0 to |rounds|
        invariant View() == Run(old(View()), trace) && trace == SendTrace(m, rounds[..n])
        invariant m < |calls| && calls[m].Capturing?
      {
        assert rounds[n] in rounds;
        SendTraceGrows(m, rounds, n);
        ghost var step;
        done, step := SendRound(m, rounds[n]);
        RunAppend(old(View()), trace, step);
        trace := trace + step;
        if done {
          return;
        }
      }
      assert rounds[..|rounds|] == rounds;
      done := false;
    }

    method SendRound(m: nat, r: Round) returns (done: bool, ghost trace: seq<Event>)
      requires m < |calls| && calls[m].Capturing? && Foreign(r.beforeSend, m) && Foreign(r.beforePark, m)
      modifies this
      ensures View() == Run(old(View()), trace) && trace <= RoundEvents(m, r)
      ensures m < |calls| && if done then calls[m].Returned? else calls[m].Capturing? && trace == RoundEvents(m, r)
    {
      var client;
      client, done := SendOnce(m, r.beforeSend, r.ok);
      trace := [Capture(m)] + r.beforeSend + [Send(m, r.ok)];
      if done {
        return;
      }
      ghost var s := View();
      ForeignKeepsCall(s, r.beforePark, m);
      Others(r.beforePark);
      RunThen(s, r.beforePark, Park(m));
      RunAppend(old(View()), trace, r.beforePark + [Park(m)]);
      trace := trace + (r.beforePark + [Park(m)]);
      if runClient == client {
        pending := pending + [m];
        parked := parked + [m];
        calls := calls[m := Returned];
        done := true;
      } else {
        calls := calls[m := Capturing];
      }
    }

    /** Captures the current stream and sends on it. */
    method SendOnce(m: nat, before: seq<Event>, ok: bool) returns (client: nat, sent: bool)
      requires m < |calls| && calls[m].Capturing? && Foreign(before, m)
      modifies this
      ensures View() == Run(old(View()), [Capture(m)] + before + [Send(m, ok)])
      ensures m < |calls| && calls[m] == if sent then Returned else Parking(client)
    {
      client := runClient;
      calls := calls[m := Sending(client)];
      ghost var s := View();
      RunOne(old(View()), Capture(m));
      ForeignKeepsCall(s, before, m);
      Others(before);
      RunThen(s, before, Send(m, ok));
      RunAppend(old(View()), [Capture(m)], before + [Send(m, ok)]);
      assert [Capture(m)] + before + [Send(m, ok)] == [Capture(m)] + (before + [Send(m, ok)]);
      sent := ok && client !in dead;
      if sent {
        direct := direct + [m];
        calls := calls[m := Returned];
      } else {
        dead := dead + {client};
        calls := calls[m := Parking(client)];
      }
    }

    /** Installs a fresh stream and flushes what was parked, keeping what fails ahead of what was parked
        meanwhile. */
    method SetClient(turns: seq<FlushTurn>)
      requires flush.None? && |turns| == |pending|
      requires forall t :: t in turns ==> NotFlushing(t.before)
      modifies this
      ensures View() == Run(old(View()), FlushTrace(turns) + [FlushEnd]) && flush.None?
      ensures runClient == old(nextClient)
    {
      Install();
      FlushAll(turns, old(View()));
      RunThen(old(View()), FlushTrace(turns), FlushEnd);
      pending := flush.value.failed + pending;
      flush := None;
    }

    /** The locked part: the fresh stream becomes current and the parked messages are taken. */
    method Install()
      requires flush.None?
      modifies this
      ensures View() == Run(old(View()), [Swap]) && runClient == old(nextClient)
      ensures flush == Some(Flush(old(pending), []))
    {
      runClient := nextClient;
      nextClient := nextClient + 1;
      flush := Some(Flush(pending, []));
      pending := [];
      RunOne(old(View()), Swap);
    }

    method FlushAll(turns: seq<FlushTurn>, ghost start: State)
      requires flush.Some? && |flush.value.todo| == |turns| && View() == Run(start, [Swap])
      requires forall t :: t in turns ==> NotFlushing(t.before)
      modifies this
      ensures View() == Run(start, FlushTrace(turns)) && runClient == old(runClient)
      ensures flush.Some? && flush.value.todo == []
    {
      for n := 0 to |turns|
        invariant View() == Run(start, FlushTrace(turns[..n]))
        invariant flush.Some? && |flush.value.todo| == |turns| - n && runClient == old(runClient)
      {
        assert turns[n] in turns;
        assert turns[..n + 1][..n] == turns[..n];
        RunAppend(start, FlushTrace(turns[..n]), turns[n].before + [FlushOne(turns[n].ok)]);
        FlushNext(turns[n]);
      }
      assert turns[..|turns|] == turns;
    }

    method FlushNext(t: FlushTurn)
      requires flush.Some? && flush.value.todo != [] && NotFlushing(t.before)
      modifies this
      ensures View() == Run(old(View()), t.before + [FlushOne(t.ok)])
      ensures flush.Some? && |flush.value.todo| == old(|flush.value.todo|) - 1 && runClient == old(runClient)
    {
      OthersKeepFlush(View(), t.before);
      Others(t.before);
      RunThen(old(View()), t.before, FlushOne(t.ok));
      var f := flush.value;
      if t.ok && runClient !in dead {
        flushed := flushed + [f.todo[0]];
        flush := Some(Flush(f.todo[1..], f.failed));
      } else {
        dead := dead + {runClient};
        flush := Some(Flush(f.todo[1..], f.failed + [f.todo[0]]));
      }
    }
  }

  lemma RunThen(s: State, es: seq<Event>, e: Event)
    ensures Run(s, es + [e]) == Step(Run(s, es), e)
  {
    RunAppend(s, es, [e]);
    RunOne(Run(s, es), e);
  }
}
