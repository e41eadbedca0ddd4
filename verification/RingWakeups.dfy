/**
 Parking and waking around one output ring, over every interleaving of any number of
 readers, writers, confirmations and closes.

 A channel is a number. A goroutine that parks remembers the channel it captured under the
 ring's mutex, and resumes only when that channel is closed; closing a closed channel would
 panic.
 */
module RingWakeups {
  import opened OutputRing

  datatype Waiter =
    | Reader(offset: nat, on: nat)
    | Writer(rest: seq<byte>, on: nat)

  datatype Gate = Gate(
    ring: Ring,
    notify: nat,
    space: nat,
    next: nat,
    shut: set<nat>,
    panicked: bool,
    parked: map<nat, Waiter>)

  datatype Event =
    | TryWrite(tid: nat, p: seq<byte>)
    | TryRead(tid: nat, offset: nat)
    | Confirm(offset: nat)
    | Shut
    | Wake(tid: nat)
    | Cancel(tid: nat)

  function Init(capacity: nat, lossless: bool): Gate {
    Gate(Ring([], capacity, lossless, 0, false), 0, 1, 2, {}, false, map[])
  }

  function CloseChannel(g: Gate, ch: nat): Gate {
    if ch in g.shut then g.(panicked := true) else g.(shut := g.shut + {ch})
  }

  function Announce(g: Gate): Gate {
    CloseChannel(g, g.notify).(notify := g.next, next := g.next + 1)
  }

  function FreeSpace(g: Gate): Gate {
    CloseChannel(g, g.space).(space := g.next, next := g.next + 1)
  }

  function Step(g: Gate, e: Event): Gate {
    match e
    case TryWrite(tid, p) =>
      if tid in g.parked || g.ring.closed || (g.ring.lossless && p == []) then g
      else if g.ring.lossless && g.ring.Room() <= 0 then g.(parked := g.parked[tid := Writer(p, g.space)])
      else Announce(g.(ring := g.ring.Append(p)))
    case TryRead(tid, offset) =>
      if tid in g.parked then g
      else
        var r := ReadRing(g.ring, offset);
        if r.Waiting? then g.(parked := g.parked[tid := Reader(r.at, g.notify)]) else g
    case Confirm(offset) =>
      if offset <= g.ring.released then g
      else
        var h := g.(ring := g.ring.Release(offset));
        if g.ring.closed then h else FreeSpace(h)
    case Shut =>
      if g.ring.closed then g
      else CloseChannel(CloseChannel(g.(ring := g.ring.Close()), g.notify), g.space)
    case Wake(tid) =>
      if tid in g.parked && g.parked[tid].on in g.shut then g.(parked := g.parked - {tid}) else g
    case Cancel(tid) =>
      if tid in g.parked && g.parked[tid].Reader? then g.(parked := g.parked - {tid}) else g
  }

  function Run(g: Gate, events: seq<Event>): Gate
    decreases |events|
  {
    if events == [] then g else Run(Step(g, events[0]), events[1..])
  }

  /** A goroutine parked on a channel that is still open has nothing to do. */
  ghost predicate RightlyParked(g: Gate, w: Waiter) {
    w.on !in g.shut ==>
      && !g.ring.closed
      && match w
         case Reader(offset, on) => on == g.notify && |g.ring.hist| <= offset
         case Writer(_, on) => on == g.space && g.ring.lossless && g.ring.Room() <= 0
  }

  ghost predicate Inv(g: Gate) {
    && !g.panicked
    && g.notify != g.space && g.notify < g.next && g.space < g.next
    && (g.notify in g.shut <==> g.ring.closed)
    && (g.space in g.shut <==> g.ring.closed)
    && (forall ch :: ch in g.shut ==> ch < g.next)
    && (forall ch :: 0 <= ch < g.next && ch != g.notify && ch != g.space ==> ch in g.shut)
    && (forall t :: t in g.parked ==> RightlyParked(g, g.parked[t]))
  }

  lemma StepKeepsInv(g: Gate, e: Event)
    requires Inv(g)
    ensures Inv(Step(g, e))
  {
    var h := Step(g, e);
    forall t | t in h.parked
      ensures RightlyParked(h, h.parked[t])
    {
      if t in g.parked {
        assert RightlyParked(g, g.parked[t]);
      }
    }
  }

  lemma {:induction false} RunKeepsInv(g: Gate, events: seq<Event>)
    requires Inv(g)
    ensures Inv(Run(g, events))
    decreases |events|
  {
    if events != [] {
      StepKeepsInv(g, events[0]);
      RunKeepsInv(Step(g, events[0]), events[1..]);
    }
  }

  /** No lost wakeup and no double close, in every interleaving. A parked reader that has data
      past its offset or faces a closed ring, and a parked writer that has room or faces a closed
      ring, is parked on a closed channel, so it resumes; and no channel is closed twice. */
  lemma NoLostWakeup(capacity: nat, lossless: bool, events: seq<Event>, tid: nat)
    ensures !Run(Init(capacity, lossless), events).panicked
    ensures
      var g := Run(Init(capacity, lossless), events);
      tid in g.parked ==>
        var w := g.parked[tid];
        && (w.Reader? && (w.offset < |g.ring.hist| || g.ring.closed) ==> tid !in Step(g, Wake(tid)).parked)
        && (w.Writer? && (g.ring.Room() > 0 || g.ring.closed) ==> tid !in Step(g, Wake(tid)).parked)
  {
    RunKeepsInv(Init(capacity, lossless), events);
    var g := Run(Init(capacity, lossless), events);
    if tid in g.parked {
      assert RightlyParked(g, g.parked[tid]);
    }
  }
}
