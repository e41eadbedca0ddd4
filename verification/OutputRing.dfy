/**
 The bounded output buffer of a managed command, addressed by absolute offsets.

 `Ring` is what the buffer means: the whole history of accepted bytes, plus how much of
 it the consumer has confirmed. Everything the implementation stores (the retained bytes,
 the offset of the first of them) is a function of that history. `OutputRing` is the
 implementation, updated in place under one mutex; each of its methods is one critical
 section, or a loop of them, and is proved against `Ring`.
 */
module OutputRing {

  type byte = b: int | 0 <= b < 256

  const TWO_63: nat := 0x8000_0000_0000_0000
  const TWO_64: nat := 0x1_0000_0000_0000_0000

  function Min(a: int, b: int): int { if a <= b then a else b }
  function Max(a: int, b: int): int { if a <= b then b else a }

  /** The conversion of an unsigned 64-bit value to a signed one. */
  function AsInt(n: nat): int {
    var m := n % TWO_64;
    if m < TWO_63 then m else m - TWO_64
  }

  /** Free space plus the confirmed bytes a lossless writer may overwrite, of `length` retained
      bytes the first of which is at `start`. */
  function RoomFor(capacity: nat, length: nat, start: nat, released: nat): int {
    var evictable := if released > start then Min(AsInt(released - start), length) else 0;
    capacity - length + evictable
  }

  datatype Ring = Ring(hist: seq<byte>, capacity: nat, lossless: bool, released: nat, closed: bool) {

    /** The absolute offset of the earliest retained byte. */
    function Start(): nat {
      if |hist| <= capacity then 0 else |hist| - capacity
    }

    /** The retained bytes: the last min(capacity, |hist|) bytes of the history. */
    function Retained(): seq<byte> {
      hist[Start()..]
    }

    /** How many bytes a lossless writer may add now; it blocks when this is not positive. */
    function Room(): int {
      RoomFor(capacity, |Retained()|, Start(), released)
    }

    /** No unconfirmed byte has been evicted from a lossless ring. */
    predicate Safe() {
      capacity < TWO_63 && (lossless ==> Start() <= released)
    }

    /** How much of `p` one critical section of Write accepts. */
    function Accepts(p: seq<byte>): (n: nat)
      ensures n <= |p|
    {
      if closed then 0
      else if !lossless then |p|
      else if Room() <= 0 then 0
      else Min(Room(), |p|)
    }

    function Append(p: seq<byte>): Ring {
      this.(hist := hist + p[..Accepts(p)])
    }

    function Release(offset: nat): Ring {
      this.(released := Max(released, offset))
    }

    function Close(): Ring {
      this.(closed := true)
    }
  }

  datatype ReadResult =
    | Data(data: seq<byte>, at: nat)
    | Eof(at: nat)
    | Waiting(at: nat)

  /** What one critical section of ReadAt reports for a ring. */
  function ReadRing(r: Ring, offset: nat): ReadResult {
    var at := Max(offset, r.Start());
    if at < |r.hist| then Data(r.hist[at..], at)
    else if r.closed then Eof(at)
    else Waiting(at)
  }

  // ---------------------------------------------------------------- the ring as a value

  lemma AsIntIsIdentityBelow63(n: nat)
    requires n < TWO_63
    ensures AsInt(n) == n
  {
  }

  /** The wrapped value never exceeds the true one. */
  lemma AsIntNeverExceeds(n: nat)
    ensures AsInt(n) <= n
  {
    assert n % TWO_64 <= n;
  }

  /** A lossless ring that has not evicted unconfirmed bytes never will, whatever is written,
      confirmed (honestly or not) or closed. */
  lemma StepsKeepSafe(r: Ring, p: seq<byte>, offset: nat)
    requires r.Safe()
    ensures r.Append(p).Safe()
    ensures r.Release(offset).Safe()
    ensures r.Close().Safe()
  {
    if r.released > r.Start() {
      AsIntNeverExceeds(r.released - r.Start());
    }
  }

  /** With honest confirmations (nothing confirmed that was not written) the room of a lossless
      ring is exactly its capacity less the unconfirmed bytes. */
  lemma RoomIsCapacityLessUnconfirmed(r: Ring)
    requires r.Safe() && r.lossless
    requires r.released <= |r.hist|
    ensures r.Room() == r.capacity - (|r.hist| - r.released)
  {
    if r.released > r.Start() {
      AsIntIsIdentityBelow63(r.released - r.Start());
    }
  }

  /** When exactly a lossless writer may proceed, for every ring: with no retained byte confirmed it
      needs free space; a confirmed distance that survives the conversion to a signed integer lets it
      in if it is positive or space is free; one that turns negative takes free space away. */
  lemma AdmitsIff(r: Ring)
    ensures
      var free := r.capacity - |r.Retained()|;
      var confirmed := (r.released - r.Start()) % TWO_64;
      r.Room() > 0 <==>
        if r.released <= r.Start() then free > 0
        else if confirmed < TWO_63 then r.capacity > 0 && (free > 0 || confirmed > 0)
        else TWO_64 - confirmed < free
  {
  }

  datatype RingOp = Put(p: seq<byte>) | Confirmation(offset: nat)

  function AfterOps(r: Ring, ops: seq<RingOp>): Ring
    decreases |ops|
  {
    if ops == [] then r
    else AfterOps(match ops[0] case Put(p) => r.Append(p) case Confirmation(o) => r.Release(o), ops[1..])
  }

  predicate NoneBeyond(ops: seq<RingOp>, offset: nat) {
    forall i :: 0 <= i < |ops| && ops[i].Confirmation? ==> ops[i].offset <= offset
  }

  /** A writer without room stays without room until something more is confirmed. */
  lemma {:induction false} StalledStays(r: Ring, ops: seq<RingOp>)
    requires r.lossless && r.Room() <= 0 && NoneBeyond(ops, r.released)
    ensures AfterOps(r, ops) == r
    decreases |ops|
  {
    if ops != [] {
      if ops[0].Put? {
        assert r.hist + ops[0].p[..0] == r.hist;
      }
      StalledStays(r, ops[1..]);
    }
  }

  /** A confirmation far beyond the start of any lossless ring stalls its writer instead of freeing
      it, however much space is free, and no write and no smaller confirmation undoes that. */
  lemma OversizedConfirmationStalls(r: Ring, ops: seq<RingOp>)
    requires r.Safe() && r.lossless && r.released <= r.Start() + TWO_63
    requires NoneBeyond(ops, r.Start() + TWO_63)
    ensures r.Release(r.Start() + TWO_63).Room() < 0
    ensures AfterOps(r.Release(r.Start() + TWO_63), ops) == r.Release(r.Start() + TWO_63)
  {
    var s := r.Release(r.Start() + TWO_63);
    assert AsInt(TWO_63) == -(TWO_63 as int);
    StalledStays(s, ops);
  }

  /** Dropping the oldest bytes beyond capacity and adding `q` retains the last bytes of the longer
      history. */
  lemma RetainedAfterAppend(r: Ring, q: seq<byte>)
    requires |q| <= r.capacity
    ensures
      var over := Max(0, |r.Retained()| + |q| - r.capacity);
      && over <= |r.Retained()|
      && r.(hist := r.hist + q).Start() == r.Start() + over
      && r.(hist := r.hist + q).Retained() == r.Retained()[over..] + q
  {
  }

  /** What a round of a lossless write with room accepts. */
  lemma AcceptsRest(r: Ring, p: seq<byte>, written: nat, n: nat)
    requires r.Safe() && r.lossless && !r.closed && r.Room() > 0 && written < |p|
    requires n == Min(r.Room(), |p| - written)
    ensures n <= r.capacity && 0 < n == r.Accepts(p[written..])
    ensures r.Append(p[written..]) == r.(hist := r.hist + p[written..written + n])
    ensures r.Append(p[written..]).Safe()
  {
    StepsKeepSafe(r, p[written..], 0);
    assert p[written..][..n] == p[written..written + n];
  }

  // ------------------------------------------------------------------ the implementation

  /** A Go channel used only for waking: it may be closed once. */
  class Signal {
    var closed: bool

    constructor ()
      ensures !closed
    {
      closed := false;
    }

    /** Closing a closed channel panics. */
    method Close()
      requires !closed
      modifies this
      ensures closed
    {
      closed := true;
    }
  }

  /** The outcome of one critical section of a lossless write. */
  datatype Round = Accepted(n: nat) | MustWait(space: Signal) | RingClosed

  /** What other goroutines do to the ring while a writer or a reader is parked. */
  datatype Interference = Confirm(offset: nat) | Shut | Produce(p: seq<byte>) | Idle

  datatype WriteOutcome = Written | Refused | StillBlocked

  predicate NoWriter(others: seq<Interference>) {
    forall e :: e in others ==> !e.Produce?
  }

  /** What was appended to a ring, in order, each part by one writer or by the others. */
  datatype Weave = Bare | Theirs(before: Weave, bytes: seq<byte>) | Ours(before: Weave, bytes: seq<byte>) {
    function Whole(): seq<byte> {
      match this
      case Bare => []
      case Theirs(before, bytes) => before.Whole() + bytes
      case Ours(before, bytes) => before.Whole() + bytes
    }

    function Own(): seq<byte> {
      match this
      case Bare => []
      case Theirs(before, _) => before.Own()
      case Ours(before, bytes) => before.Own() + bytes
    }
  }

  /** From `base` on the history is the weave, and the writer's own part of it is `own`. */
  ghost predicate Wove(base: seq<byte>, hist: seq<byte>, w: Weave, own: seq<byte>) {
    hist == base + w.Whole() && own == w.Own()
  }

  /** Others may append before the writer's next part is. */
  lemma WeaveExtends(base: seq<byte>, hist: seq<byte>, before: seq<byte>, w: Weave, p: seq<byte>, k: nat, n: nat)
    requires k + n <= |p| && Wove(base, hist, w, p[..k]) && hist <= before
    ensures Wove(base, before + p[k..k + n], Ours(Theirs(w, before[|hist|..]), p[k..k + n]), p[..k + n])
  {
    var q, more := p[k..k + n], before[|hist|..];
    assert p[..k] + q == p[..k + n];
    assert before == hist + more;
    assert base + w.Whole() + more + q == base + (w.Whole() + more + q);
  }

  class OutputRing {
    var buf: seq<byte>
    var start: nat
    const capacity: nat
    var closed: bool
    var lossless: bool
    var released: nat
    var notify: Signal
    var space: Signal
    ghost var hist: seq<byte>

    ghost function View(): Ring
      reads this
    {
      Ring(hist, capacity, lossless, released, closed)
    }

    /** The stored bytes and offset are those the history calls for, and a channel is closed
        exactly when the ring is. */
    ghost predicate Valid()
      reads this, notify, space
    {
      && start == View().Start()
      && buf == View().Retained()
      && View().Safe()
      && notify != space
      && notify.closed == closed
      && space.closed == closed
    }

    constructor (capacity: nat)
      requires capacity < TWO_63
      ensures Valid() && fresh(notify) && fresh(space)
      ensures View() == Ring([], capacity, false, 0, false)
    {
      this.capacity := capacity;
      buf, start, closed, lossless, released, hist := [], 0, false, false, 0, [];
      notify := new Signal();
      space := new Signal();
    }

    /** Must be called before any write. */
    method SetLossless()
      requires Valid() && hist == []
      modifies this`lossless
      ensures Valid()
      ensures View() == old(View()).(lossless := true)
    {
      lossless := true;
    }

    method SetReleased(offset: nat)
      requires Valid()
      modifies this`released, this`space, space
      ensures Valid()
      ensures View() == old(View()).Release(offset)
      ensures space == old(space) || fresh(space)
      // Every parked writer is woken when the confirmed offset moves.
      ensures released != old(released) ==> old(space).closed
      ensures released == old(released) ==> space == old(space)
      ensures closed ==> space == old(space)
    {
      StepsKeepSafe(View(), [], offset);
      if offset <= released {
        return;
      }
      released := offset;
      if closed {
        return;
      }
      space.Close();
      space := new Signal();
    }

    method WriteEvicting(p: seq<byte>) returns (n: nat, ok: bool)
      requires Valid() && !lossless
      modifies this`buf, this`start, this`notify, this`hist, notify
      ensures Valid()
      ensures View() == old(View()).Append(p)
      ensures notify == old(notify) || fresh(notify)
      ensures ok == !closed
      ensures n == if ok then |p| else 0
      ensures ok ==> old(notify).closed && fresh(notify)
      ensures !ok ==> notify == old(notify)
    {
      if closed {
        assert hist + p[..0] == hist;
        return 0, false;
      }
      ghost var h := hist + p;
      if |p| >= capacity {
        start := start + |buf| + (|p| - capacity);
        buf := p[|p| - capacity..];
        assert buf == h[|h| - capacity..];
      } else {
        buf := buf + p;
        var over := |buf| - capacity;
        if over > 0 {
          start := start + over;
          buf := buf[over..];
        }
        assert buf == h[start..];
      }
      assert p[..|p|] == p;
      hist := h;
      notify.Close();
      notify := new Signal();
      return |p|, true;
    }

    /** Adds bytes that fit, dropping as many of the oldest as that takes. */
    method Extend(q: seq<byte>)
      requires Valid() && !closed && |q| <= capacity
      requires View().(hist := hist + q).Safe()
      modifies this`buf, this`start, this`notify, this`hist, notify
      ensures Valid()
      ensures View() == old(View()).(hist := old(hist) + q)
      ensures old(notify).closed && fresh(notify)
    {
      RetainedAfterAppend(View(), q);
      var over := |buf| + |q| - capacity;
      if over > 0 {
        start := start + over;
        buf := buf[over..];
      }
      buf := buf + q;
      hist := hist + q;
      notify.Close();
      notify := new Signal();
    }

    /** One critical section of a lossless write of the rest of `p`. */
    method WriteRound(p: seq<byte>, written: nat) returns (round: Round)
      requires Valid() && lossless && written < |p|
      modifies this`buf, this`start, this`notify, this`hist, notify
      ensures Valid()
      ensures View() == old(View()).Append(p[written..])
      ensures notify == old(notify) || fresh(notify)
      ensures round.RingClosed? <==> closed
      ensures round.MustWait? <==> !closed && old(View()).Room() <= 0
      ensures round.MustWait? ==> round.space == space && !space.closed && unchanged(this)
      ensures round.RingClosed? ==> unchanged(this)
      ensures round.Accepted? ==>
                && 0 < round.n == old(View()).Accepts(p[written..])
                && hist == old(hist) + p[written..written + round.n]
                && old(notify).closed && fresh(notify)
    {
      if closed {
        assert hist + p[written..][..0] == hist;
        return RingClosed;
      }
      var room := RoomFor(capacity, |buf|, start, released);
      if room <= 0 {
        assert hist + p[written..][..0] == hist;
        return MustWait(space);
      }
      var n := Min(room, |p| - written);
      AcceptsRest(View(), p, written, n);
      Extend(p[written..written + n]);
      return Accepted(n);
    }

    method Close()
      requires Valid()
      modifies this`closed, notify, space
      ensures Valid()
      ensures View() == old(View()).Close()
      // Every parked reader and writer is woken.
      ensures notify.closed && space.closed
    {
      if closed {
        return;
      }
      closed := true;
      notify.Close();
      space.Close();
    }

    method StartOffset() returns (offset: nat)
      requires Valid()
      ensures offset == View().Start()
    {
      return start;
    }

    method EndOffset() returns (offset: nat)
      requires Valid()
      ensures offset == |hist|
    {
      return start + |buf|;
    }

    method RetainedBytes() returns (n: nat)
      requires Valid()
      ensures n == Min(capacity, |hist|)
    {
      return |buf|;
    }

    /** One critical section of ReadAt. */
    method ReadOnce(offset: nat) returns (r: ReadResult)
      requires Valid()
      ensures r == ReadRing(View(), offset)
    {
      var at := offset;
      if at < start {
        at := start;
      }
      if at < start + |buf| {
        assert buf[at - start..] == hist[at..];
        return Data(buf[at - start..], at);
      }
      if closed {
        return Eof(at);
      }
      return Waiting(at);
    }

    /** One step of some other goroutine. */
    method Interfere(e: Interference)
      requires Valid()
      modifies this`buf, this`start, this`notify, this`hist, this`released, this`space, this`closed, notify, space
      ensures Valid() && lossless == old(lossless)
      ensures View() == match e
                        case Confirm(o) => old(View()).Release(o)
                        case Shut => old(View()).Close()
                        case Produce(p) => old(View()).Append(p)
                        case Idle => old(View())
      ensures notify == old(notify) || fresh(notify)
      ensures space == old(space) || fresh(space)
      // A channel captured before the step is either still current and open, or closed.
      ensures old(space).closed || (space == old(space) && !closed && released == old(released))
      ensures old(notify).closed || (notify == old(notify) && !closed && hist == old(hist))
    {
      match e {
        case Confirm(o) =>
          SetReleased(o);
        case Shut =>
          Close();
        case Produce(p) =>
          if !lossless {
            var n, ok := WriteEvicting(p);
          } else if 0 < |p| {
            assert p[0..] == p;
            var round := WriteRound(p, 0);
          } else {
            assert hist + p[..0] == hist;
          }
        case Idle =>
      }
    }

    /** The next step of the rest of the program, if any is left. */
    method LetOthers(others: seq<Interference>, from: nat) returns (turn: nat)
      requires Valid() && from <= |others|
      modifies this`buf, this`start, this`notify, this`hist, this`released, this`space, this`closed, notify, space
      ensures Valid() && lossless == old(lossless) && released >= old(released)
      ensures old(hist) <= hist && (NoWriter(others) ==> hist == old(hist))
      ensures notify == old(notify) || fresh(notify)
      ensures space == old(space) || fresh(space)
      ensures from <= turn <= |others|
    {
      turn := from;
      if turn < |others| {
        Interfere(others[turn]);
        turn := turn + 1;
      }
    }

    /** A writer parked on the ring's space channel while others act, from turn `from` on. Nobody else
        finds room either. */
    method AwaitSpace(others: seq<Interference>, from: nat) returns (turn: nat)
      requires Valid() && lossless && !closed && from <= |others| && View().Room() <= 0
      modifies this`buf, this`start, this`notify, this`hist, this`released, this`space, this`closed, notify, space
      ensures Valid() && lossless && hist == old(hist) && released >= old(released)
      ensures notify == old(notify) || fresh(notify)
      ensures space == old(space) || fresh(space)
      ensures from <= turn <= |others|
      ensures old(space).closed ==> from < turn
      ensures !old(space).closed ==> space == old(space) && !closed && released == old(released)
    {
      var wait := space;
      turn := from;
      while !wait.closed && turn < |others|
        invariant Valid() && lossless && hist == old(hist) && released >= old(released)
        invariant notify == old(notify) || fresh(notify)
        invariant space == old(space) || fresh(space)
        invariant from <= turn <= |others|
        invariant wait.closed ==> from < turn
        invariant !wait.closed ==> space == wait && !closed && released == old(released)
      {
        Interfere(others[turn]);
        turn := turn + 1;
      }
    }

    /** One round of a lossless write: a step of the others, the critical section, and the wait if
        there was no room. The history is `before` when the critical section begins. */
    method WriteTurn(p: seq<byte>, written: nat, others: seq<Interference>, from: nat)
      returns (n: nat, turn: nat, outcome: WriteOutcome, ghost before: seq<byte>)
      requires Valid() && lossless && written < |p| && from <= |others|
      modifies this`buf, this`start, this`notify, this`hist, this`released, this`space, this`closed, notify, space
      ensures Valid() && lossless && released >= old(released)
      ensures notify == old(notify) || fresh(notify)
      ensures space == old(space) || fresh(space)
      ensures from <= turn <= |others| && written + n <= |p|
      ensures old(hist) <= before && (NoWriter(others) ==> before == old(hist))
      ensures hist == before + p[written..written + n]
      ensures outcome.Written? ==> n > 0 || turn > from
      ensures outcome.Refused? ==> closed && n == 0
      ensures outcome.StillBlocked? ==> !closed && View().Room() <= 0 && !space.closed && n == 0
    {
      turn := LetOthers(others, from);
      before := hist;
      var round := WriteRound(p, written);
      match round {
        case RingClosed =>
          return 0, turn, Refused, before;
        case Accepted(m) =>
          return m, turn, Written, before;
        case MustWait(wait) =>
          turn := AwaitSpace(others, turn);
          return 0, turn, if wait.closed then Written else StillBlocked, before;
      }
    }

    /** A lossless write, parked whenever there is no room; `others` is what the rest of the program
        does, other writers included, one step before each critical section and any number while it
        is parked. The input is appended in order, each byte once, woven with what the others append, and the
        writer is left parked only when there is truly no room. */
    method WriteLossless(p: seq<byte>, others: seq<Interference>)
      returns (written: nat, outcome: WriteOutcome, ghost weave: Weave)
      requires Valid() && lossless
      modifies this`buf, this`start, this`notify, this`hist, this`released, this`space, this`closed, notify, space
      ensures Valid() && lossless
      ensures written <= |p| && Wove(old(hist), hist, weave, p[..written])
      ensures NoWriter(others) ==> hist == old(hist) + p[..written]
      ensures outcome.Written? ==> written == |p|
      ensures outcome.Refused? ==> closed && written < |p|
      ensures outcome.StillBlocked? ==> !closed && View().Room() <= 0 && !space.closed && written < |p|
      ensures released >= old(released) && View().Start() <= released
    {
      written, outcome, weave := 0, Written, Bare;
      var turn := 0;
      assert p[..0] == [];
      while written < |p| && outcome.Written?
        invariant Valid() && lossless && turn <= |others|
        invariant written <= |p| && Wove(old(hist), hist, weave, p[..written])
        invariant NoWriter(others) ==> hist == old(hist) + p[..written]
        invariant outcome.Refused? ==> closed && written < |p|
        invariant outcome.StillBlocked? ==> !closed && View().Room() <= 0 && !space.closed && written < |p|
        invariant released >= old(released)
        invariant notify == old(notify) || fresh(notify)
        invariant space == old(space) || fresh(space)
        decreases outcome.Written?, |p| - written, |others| - turn
      {
        ghost var was := hist;
        var n, next, went, before := WriteTurn(p, written, others, turn);
        WeaveExtends(old(hist), was, before, weave, p, written, n);
        assert p[..written] + p[written..written + n] == p[..written + n];
        weave := Ours(Theirs(weave, before[|was|..]), p[written..written + n]);
        written, turn, outcome := written + n, next, went;
      }
    }

    /** A tail read, parked whenever there is nothing at the offset; `cancelAt` is how many steps
        of the rest of the program the reader sits out before it is canceled, if ever. */
    method ReadAt(offset: nat, others: seq<Interference>, cancelAt: nat) returns (r: ReadResult, canceled: bool)
      requires Valid()
      modifies this`buf, this`start, this`notify, this`hist, this`released, this`space, this`closed, notify, space
      ensures Valid()
      ensures old(hist) <= hist
      // Data is exactly the history from the reported offset to its end; the offset moves only past evicted bytes.
      ensures r.at >= offset && (r.at > offset ==> r.at <= View().Start())
      ensures r.Data? ==> !canceled && View().Start() <= r.at < |hist| && r.data == hist[r.at..]
      // End of data means the ring is closed and nothing remains.
      ensures r.Eof? ==> !canceled && closed && |hist| <= r.at
      // A reader that gives up, canceled or still parked, has an open channel only if nothing is past its offset.
      ensures r.Waiting? && !canceled ==> !closed && !notify.closed && |hist| <= r.at
      ensures canceled ==> r.Waiting? && cancelAt < |others|
      ensures (notify == old(notify) || fresh(notify)) && (space == old(space) || fresh(space))
    {
      var at := offset;
      var turn := 0;
      while true
        invariant Valid() && turn <= |others|
        invariant old(hist) <= hist
        invariant at >= offset && (at > offset ==> at <= View().Start())
        invariant notify == old(notify) || fresh(notify)
        invariant space == old(space) || fresh(space)
        decreases |others| - turn
      {
        var once := ReadOnce(at);
        at := once.at;
        if !once.Waiting? {
          return once, false;
        }
        var wait := notify;
        var parked := turn;
        while !wait.closed && turn < |others|
          invariant Valid() && parked <= turn <= |others|
          invariant old(hist) <= hist
          invariant at >= offset && (at > offset ==> at <= View().Start())
          invariant notify == old(notify) || fresh(notify)
          invariant space == old(space) || fresh(space)
          invariant wait.closed ==> parked < turn
          invariant !wait.closed ==> wait == notify && !closed && |hist| <= at
        {
          if turn >= cancelAt {
            return Waiting(at), true;
          }
          Interfere(others[turn]);
          turn := turn + 1;
        }
        if !wait.closed {
          return Waiting(at), false;
        }
      }
    }
  }
}
