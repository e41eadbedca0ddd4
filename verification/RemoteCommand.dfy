/**
 The client's own loops: receiving output, confirming it, and attaching again after a break. What
 arrives, whether a confirmation could be sent and how attempts to attach end come in as inputs.
 */
module RemoteCommands {
  import opened OutputRing
  import opened CommandStream
  import Alignment
  import opened Options

  /** How one attempt to attach again ends. */
  datatype Attempt = Unreachable | Gone | Attached(stream: nat, at: Pair<nat>)

  /** Lost carries whether the error rules out resuming, and the attempts until the consumer's context
      ends. */
  datatype Incoming =
    | Received(msg: Msg, delivered: bool, ackSent: bool)
    | Lost(fatal: bool, attempts: seq<Attempt>)

  // ------------------------------------------------------------------------- specification

  function Acknowledged(cl: Client, sent: bool): Client {
    if Total(cl.offset) - cl.acked < ACK_EVERY || !sent then cl else cl.(acked := Total(cl.offset))
  }

  /** The client once its attempts have ended; none left means its context ended. */
  function Resumed(cl: Client, attempts: seq<Attempt>): Client
    decreases |attempts|
  {
    if attempts == [] then cl.(phase := Done(None))
    else
      match attempts[0]
      case Unreachable => Resumed(cl, attempts[1..])
      case Gone => cl.(phase := Done(None))
      case Attached(s, at) => Welcome(cl, at).(phase := Reading(s))
  }

  function Consume(cl: Client, i: Incoming): Client {
    match i
    case Received(Output(k, bytes), delivered, ackSent) =>
      if delivered then Acknowledged(Deliver(cl, k, bytes), ackSent) else cl.(phase := Done(None))
    case Received(ExitStatus(x), _, _) => cl.(phase := Done(Some(x)))
    case Received(Hello(_), _, _) => cl
    case Lost(fatal, attempts) => if fatal then cl.(phase := Done(None)) else Resumed(cl, attempts)
  }

  function Consumed(cl: Client, inputs: seq<Incoming>): Client
    decreases |inputs|
  {
    if inputs == [] || cl.phase.Done? then cl else Consumed(Consume(cl, inputs[0]), inputs[1..])
  }

  const InitialBackoff: nat := 1
  const MaxBackoff: nat := 15

  function Backoff(n: nat): nat {
    if n == 0 then InitialBackoff else Min(Backoff(n - 1) * 2, MaxBackoff)
  }

  // --------------------------------------------------------------------------- the command

  class RemoteRunningCommand {
    var stdoutOffset: nat
    var stderrOffset: nat
    var lastAckedTotal: nat
    var phase: ClientPhase
    var stdinDone: bool
    /** What the consumer has read. */
    var got: Pair<seq<Chunk>>
    ghost var first: Pair<nat>
    ghost var gaps: Pair<nat>

    ghost function View(): Client
      reads this
    {
      Client(Pair(stdoutOffset, stderrOffset), lastAckedTotal, phase, true, first, gaps, got, stdinDone)
    }

    /** A command taken up on a stream whose replay starts at the given offsets; a new one's are zero. */
    constructor (stream: nat, stdoutOffset: nat, stderrOffset: nat)
      ensures
        var start := Pair(stdoutOffset, stderrOffset);
        && View() == Client(start, 0, Reading(stream), true, start, Pair(0, 0), Pair([], []), false)
        && Accounted(View())
    {
      this.stdoutOffset, this.stderrOffset, lastAckedTotal := stdoutOffset, stderrOffset, 0;
      phase, stdinDone, got := Reading(stream), false, Pair([], []);
      first, gaps := Pair(stdoutOffset, stderrOffset), Pair(0, 0);
    }

    method MaybeAck(sent: bool)
      modifies this`lastAckedTotal
      ensures View() == Acknowledged(old(View()), sent)
    {
      var total := stdoutOffset + stderrOffset;
      if total - lastAckedTotal < ACK_EVERY {
        return;
      }
      if sent {
        lastAckedTotal := total;
      }
    }

    /** Writes a chunk to the consumer and counts it. */
    method WriteOut(k: Kind, bytes: seq<byte>)
      modifies this`stdoutOffset, this`stderrOffset, this`got
      ensures View() == Deliver(old(View()), k, bytes)
    {
      if k.Stdout? {
        got := Pair(got.out + [Chunk(stdoutOffset, bytes)], got.err);
        stdoutOffset := stdoutOffset + |bytes|;
      } else {
        got := Pair(got.out, got.err + [Chunk(stderrOffset, bytes)]);
        stderrOffset := stderrOffset + |bytes|;
      }
    }

    /** Retries with a doubling, capped wait until a stream is attached or resuming is impossible. */
    method TryResume(fatal: bool, attempts: seq<Attempt>) returns (resumed: bool, waits: seq<nat>)
      modifies this
      ensures resumed ==> !fatal && View() == Resumed(old(View()), attempts) && phase.Reading?
      ensures !resumed ==> View() == old(View())
      ensures !resumed && !fatal ==> Resumed(old(View()), attempts) == old(View()).(phase := Done(None))
      ensures |waits| <= |attempts| && forall n :: 0 <= n < |waits| ==> waits[n] == Backoff(n) && attempts[n].Unreachable?
    {
      waits := [];
      if fatal {
        return false, waits;
      }
      var backoff := InitialBackoff;
      for n := 0 to |attempts|
        invariant View() == old(View())
        invariant Resumed(View(), attempts[n..]) == Resumed(old(View()), attempts)
        invariant |waits| == n && backoff == Backoff(n)
        invariant forall m :: 0 <= m < n ==> waits[m] == Backoff(m) && attempts[m].Unreachable?
      {
        assert attempts[n..][0] == attempts[n] && attempts[n..][1..] == attempts[n + 1..];
        match attempts[n] {
          case Attached(s, at) =>
            gaps := Pair(gaps.out + Max(0, at.out - stdoutOffset), gaps.err + Max(0, at.err - stderrOffset));
            stdoutOffset := Max(stdoutOffset, at.out);
            stderrOffset := Max(stderrOffset, at.err);
            phase := Reading(s);
            return true, waits;
          case Gone =>
            return false, waits;
          case Unreachable =>
            waits := waits + [backoff];
            backoff := Min(backoff * 2, MaxBackoff);
        }
      }
      return false, waits;
    }

    /** The receive loop. */
    method Process(inputs: seq<Incoming>)
      requires !phase.Done?
      modifies this
      ensures View() == Consumed(old(View()), inputs)
    {
      for n := 0 to |inputs|
        invariant !phase.Done?
        invariant Consumed(View(), inputs[n..]) == Consumed(old(View()), inputs)
      {
        ghost var cl := View();
        var done := HandleIncoming(inputs[n]);
        assert inputs[n..][0] == inputs[n] && inputs[n..][1..] == inputs[n + 1..];
        assert Consumed(cl, inputs[n..]) == Consumed(View(), inputs[n + 1..]);
        if done {
          return;
        }
      }
    }

    method HandleIncoming(i: Incoming) returns (done: bool)
      requires !phase.Done?
      modifies this
      ensures View() == Consume(old(View()), i) && done == phase.Done?
    {
      match i {
        case Lost(fatal, attempts) =>
          var resumed, waits := TryResume(fatal, attempts);
          if !resumed {
            phase := Done(None);
          }
        case Received(Output(k, bytes), delivered, ackSent) =>
          if !delivered {
            phase := Done(None);
            return true;
          }
          WriteOut(k, bytes);
          MaybeAck(ackSent);
        case Received(ExitStatus(x), _, _) =>
          phase := Done(Some(x));
        case Received(Hello(_), _, _) =>
      }
      done := phase.Done?;
    }
  }

  // ---------------------------------------------------------------------- the protocol's steps

  /** One turn of the receive loop is what the protocol's receive step does to the client. */
  lemma ReceiveIsConsume(st: Stream, cl: Client, s: nat, sent: bool)
    requires cl.phase == Reading(s) && st.down != []
    ensures Receive(st, cl, s, sent).1
         == Consume(cl, Received(st.down[0], true, !st.sendClosed && (!st.broken || sent)))
  {
  }

  lemma ResumesAt(cl: Client, s: nat, at: Pair<nat>)
    ensures Resumed(cl, [Attached(s, at)]) == Welcome(cl, at).(phase := Reading(s))
  {
  }

  lemma WelcomeIgnoresPhase(cl: Client, phase: ClientPhase, at: Pair<nat>)
    ensures Welcome(cl.(phase := phase), at) == Welcome(cl, at).(phase := phase)
  {
  }

  /** A break, an attach and the daemon's answer are one successful resume. */
  lemma AttachIsResume(st: Stream, cl: Client, s: nat, at: Pair<nat>, sent: bool)
    requires st.down != [] && st.down[0] == Hello(at) && cl.welcomed
    ensures Receive(st, cl.(phase := Attaching(s)), s, sent).1 == Resumed(cl, [Attached(s, at)])
  {
    ResumesAt(cl, s, at);
    WelcomeIgnoresPhase(cl, Attaching(s), at);
  }

  // ------------------------------------------------------------------------------- accounts

  /** One kind of output: delivered chunks are in order, and what is not delivered is a gap. */
  predicate Balanced(got: seq<Chunk>, first: nat, gaps: nat, offset: nat) {
    && offset == first + Alignment.Size(got) + gaps
    && (forall i :: 0 <= i < |got| ==> got[i].at + |got[i].bytes| <= offset)
    && (forall i, j :: 0 <= i < j < |got| ==> got[i].at + |got[i].bytes| <= got[j].at)
  }

  /** Every byte of the offsets was delivered or reported as a gap, in order, and no more is confirmed
      than was seen. */
  predicate Accounted(cl: Client) {
    && Balanced(cl.got.out, cl.first.out, cl.gaps.out, cl.offset.out)
    && Balanced(cl.got.err, cl.first.err, cl.gaps.err, cl.offset.err)
    && cl.acked <= Total(cl.offset)
  }

  lemma BalancedDeliver(got: seq<Chunk>, first: nat, gaps: nat, offset: nat, bytes: seq<byte>)
    requires Balanced(got, first, gaps, offset)
    ensures Balanced(got + [Chunk(offset, bytes)], first, gaps, offset + |bytes|)
  {
    assert (got + [Chunk(offset, bytes)])[..|got|] == got;
  }

  lemma BalancedWelcome(got: seq<Chunk>, first: nat, gaps: nat, offset: nat, at: nat)
    requires Balanced(got, first, gaps, offset)
    ensures Balanced(got, first, gaps + Max(0, at - offset), Max(offset, at))
  {
  }

  lemma {:induction false} ResumedAccounts(cl: Client, attempts: seq<Attempt>)
    requires Accounted(cl) && cl.welcomed
    ensures Accounted(Resumed(cl, attempts)) && Resumed(cl, attempts).welcomed
    decreases |attempts|
  {
    if attempts != [] {
      match attempts[0]
      case Unreachable => ResumedAccounts(cl, attempts[1..]);
      case Gone =>
      case Attached(s, at) =>
        BalancedWelcome(cl.got.out, cl.first.out, cl.gaps.out, cl.offset.out, at.out);
        BalancedWelcome(cl.got.err, cl.first.err, cl.gaps.err, cl.offset.err, at.err);
    }
  }

  lemma DeliverBalances(cl: Client, k: Kind, bytes: seq<byte>, j: Kind)
    requires Balanced(cl.got.Get(j), cl.first.Get(j), cl.gaps.Get(j), cl.offset.Get(j))
    ensures
      var cl' := Deliver(cl, k, bytes);
      Balanced(cl'.got.Get(j), cl'.first.Get(j), cl'.gaps.Get(j), cl'.offset.Get(j))
  {
    Alignment.DeliverTouches(cl, k, bytes, j);
    if j == k {
      BalancedDeliver(cl.got.Get(j), cl.first.Get(j), cl.gaps.Get(j), cl.offset.Get(j), bytes);
    }
  }

  lemma DeliverAccounts(cl: Client, k: Kind, bytes: seq<byte>, sent: bool)
    requires Accounted(cl)
    ensures Accounted(Acknowledged(Deliver(cl, k, bytes), sent))
  {
    DeliverBalances(cl, k, bytes, Stdout);
    DeliverBalances(cl, k, bytes, Stderr);
  }

  lemma ConsumeAccounts(cl: Client, i: Incoming)
    requires Accounted(cl) && cl.welcomed
    ensures Accounted(Consume(cl, i)) && Consume(cl, i).welcomed
  {
    match i
    case Received(Output(k, bytes), _, ackSent) => DeliverAccounts(cl, k, bytes, ackSent);
    case Received(ExitStatus(_), _, _) =>
    case Received(Hello(_), _, _) =>
    case Lost(_, attempts) => ResumedAccounts(cl, attempts);
  }

  /** Whatever arrives, and however attempts to attach end, the client's books stay balanced. */
  lemma {:induction false} ConsumedAccounts(cl: Client, inputs: seq<Incoming>)
    requires Accounted(cl) && cl.welcomed
    ensures Accounted(Consumed(cl, inputs))
    decreases |inputs|
  {
    if inputs != [] && !cl.phase.Done? {
      ConsumeAccounts(cl, inputs[0]);
      ConsumedAccounts(Consume(cl, inputs[0]), inputs[1..]);
    }
  }
}
