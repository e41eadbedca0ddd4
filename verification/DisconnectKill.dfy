/**
 What a disconnect-kill does once its timer has fired.

 Each launch is a goroutine of its own: it looks once whether the exit has been recorded, sends the
 terminate signal, and after the grace period sends the kill signal, unless it sees the exit first.
 Nothing it does looks at the attachment again.
 */
module DisconnectKills {
  import opened Options
  import opened ManagedCommands

  datatype Phase = Launched | Checked | Terminated | Over

  /** A signal with its sender and the command as the signal reached it. */
  datatype Sent = Sent(killer: nat, escalated: bool, attached: Option<nat>, exited: bool)

  /** Killer `k` is the goroutine of the command's launch `k`. */
  datatype System = System(command: Command, killers: seq<Phase>, signals: seq<Sent>)

  datatype Action =
    | Locked(event: Event)
    | Check(killer: nat)
    | Terminate(killer: nat)
    | Escalate(killer: nat)
    | SeeExit(killer: nat)

  function Begun(p: Persistence): System {
    System(Started(p), [], [])
  }

  predicate Is(s: System, k: nat, phase: Phase) {
    k < |s.killers| && s.killers[k] == phase
  }

  function Signaled(s: System, k: nat, escalated: bool): System {
    s.(signals := s.signals + [Sent(k, escalated, s.command.current, s.command.exited)])
  }

  function Act(s: System, a: Action): System {
    match a
    case Locked(e) =>
      var c := Step(s.command, e);
      s.(command := c, killers := if |c.launches| > |s.command.launches| then s.killers + [Launched] else s.killers)
    case Check(k) =>
      if Is(s, k, Launched) then s.(killers := s.killers[k := if s.command.exited then Over else Checked]) else s
    case Terminate(k) =>
      if Is(s, k, Checked) then Signaled(s.(killers := s.killers[k := Terminated]), k, false) else s
    case Escalate(k) =>
      if Is(s, k, Terminated) then Signaled(s.(killers := s.killers[k := Over]), k, true) else s
    case SeeExit(k) =>
      if Is(s, k, Terminated) && s.command.exited then s.(killers := s.killers[k := Over]) else s
  }

  function ActAll(s: System, actions: seq<Action>): System
    decreases |actions|
  {
    if actions == [] then s else ActAll(Act(s, actions[0]), actions[1..])
  }

  // ------------------------------------------------------------------- where signals come from

  /** The signals of one killer in order, each as whether it was the kill signal. */
  function Of(signals: seq<Sent>, k: nat): seq<bool> {
    if signals == [] then []
    else
      var last := signals[|signals| - 1];
      Of(signals[..|signals| - 1], k) + if last.killer == k then [last.escalated] else []
  }

  lemma OfAppend(signals: seq<Sent>, sent: Sent, k: nat)
    ensures Of(signals + [sent], k) == Of(signals, k) + if sent.killer == k then [sent.escalated] else []
  {
    assert (signals + [sent])[..|signals|] == signals;
  }

  predicate InTurn(phase: Phase, sent: seq<bool>) {
    match phase
    case Launched => sent == []
    case Checked => sent == []
    case Terminated => sent == [false]
    case Over => sent <= [false, true]
  }

  ghost predicate AllInTurn(killers: seq<Phase>, signals: seq<Sent>) {
    && (forall k :: 0 <= k < |killers| ==> InTurn(killers[k], Of(signals, k)))
    && (forall k :: |killers| <= k ==> Of(signals, k) == [])
  }

  ghost predicate KillInv(s: System) {
    && Inv(s.command)
    && |s.killers| == |s.command.launches|
    && AllInTurn(s.killers, s.signals)
  }

  lemma OneLaunchAtMost(c: Command, e: Event)
    ensures
      var c' := Step(c, e);
      c'.launches == c.launches || |c'.launches| == |c.launches| + 1
  {
  }

  lemma SendKeepsTurns(killers: seq<Phase>, signals: seq<Sent>, sent: Sent, phase: Phase)
    requires AllInTurn(killers, signals) && sent.killer < |killers|
    requires InTurn(phase, Of(signals, sent.killer) + [sent.escalated])
    ensures AllInTurn(killers[sent.killer := phase], signals + [sent])
  {
    var all, moved := signals + [sent], killers[sent.killer := phase];
    forall k | 0 <= k < |moved| ensures InTurn(moved[k], Of(all, k)) {
      OfAppend(signals, sent, k);
    }
    forall k | |moved| <= k ensures Of(all, k) == [] {
      OfAppend(signals, sent, k);
    }
  }

  lemma ActKeepsInv(s: System, a: Action)
    requires KillInv(s)
    ensures KillInv(Act(s, a))
  {
    match a {
      case Locked(e) =>
        StepKeepsInv(s.command, e);
        OneLaunchAtMost(s.command, e);
      case Check(k) =>
        if Is(s, k, Launched) {
          assert InTurn(Launched, Of(s.signals, k));
        }
      case Terminate(k) =>
        if Is(s, k, Checked) {
          SendKeepsTurns(s.killers, s.signals, Sent(k, false, s.command.current, s.command.exited), Terminated);
        }
      case Escalate(k) =>
        if Is(s, k, Terminated) {
          SendKeepsTurns(s.killers, s.signals, Sent(k, true, s.command.current, s.command.exited), Over);
        }
      case SeeExit(k) =>
        if Is(s, k, Terminated) {
          assert InTurn(Terminated, Of(s.signals, k));
        }
    }
  }

  lemma {:induction false} ActAllKeepsInv(s: System, actions: seq<Action>)
    requires KillInv(s)
    ensures KillInv(ActAll(s, actions))
    decreases |actions|
  {
    if actions != [] {
      ActKeepsInv(s, actions[0]);
      ActAllKeepsInv(Act(s, actions[0]), actions[1..]);
    }
  }

  /** In every run a launch sends at most one terminate signal and at most one kill signal after it,
      and nothing else sends any; each was launched with nobody attached, under the kill policy and
      before the exit. */
  lemma SignalsStemFromLaunches(p: Persistence, actions: seq<Action>, k: nat)
    ensures
      var s := ActAll(Begun(p), actions);
      && Of(s.signals, k) <= [false, true]
      && (Of(s.signals, k) != [] ==>
            k < |s.command.launches| && s.command.launches[k] == Launch(false, Kill, false))
  {
    ActAllKeepsInv(Begun(p), actions);
    var s := ActAll(Begun(p), actions);
    if k < |s.killers| {
      assert InTurn(s.killers[k], Of(s.signals, k));
    }
  }

  // --------------------------------------------------------------------- whom a signal can hit

  /** A killer that will still send a signal if nobody stops it. */
  predicate CanSignal(s: System, k: nat) {
    k < |s.killers| && (s.killers[k].Checked? || s.killers[k].Terminated? || (s.killers[k].Launched? && !s.command.exited))
  }

  ghost predicate Loaded(s: System) {
    exists k: nat :: CanSignal(s, k)
  }

  /** Some signal after the first `from` ones reaches the command while `handle` holds it. */
  ghost predicate HitSince(s: System, from: nat, handle: nat) {
    exists j :: from <= j < |s.signals| && s.signals[j].attached == Some(handle)
  }

  /** Some continuation signals the command while its present holder is still attached. */
  ghost predicate CanHit(s: System, handle: nat) {
    exists actions: seq<Action> :: HitSince(ActAll(s, actions), |s.signals|, handle)
  }

  /** Attached or exited, the command launches nothing. */
  lemma NothingLaunched(c: Command, e: Event)
    requires Inv(c) && (c.current.Some? || c.exited)
    ensures Step(c, e).launches == c.launches && (c.exited ==> Step(c, e).exited)
  {
  }

  lemma QuietStep(s: System, a: Action)
    requires KillInv(s) && (s.command.current.Some? || s.command.exited) && !Loaded(s)
    ensures Act(s, a).signals == s.signals && !Loaded(Act(s, a))
    ensures s.command.exited ==> Act(s, a).command.exited
  {
    if a.Locked? {
      NothingLaunched(s.command, a.event);
    } else {
      assert !CanSignal(s, a.killer);
    }
    forall k: nat ensures !CanSignal(Act(s, a), k) {
      assert !CanSignal(s, k);
    }
  }

  /** A holder that has gone is not hit any more. */
  lemma {:induction false} GoneIsNotHit(s: System, actions: seq<Action>, from: nat, handle: nat)
    requires KillInv(s) && handle < |s.command.cancels| && s.command.current != Some(handle)
    requires !HitSince(s, from, handle)
    ensures !HitSince(ActAll(s, actions), from, handle)
    decreases |actions|
  {
    if actions != [] {
      var s' := Act(s, actions[0]);
      ActKeepsInv(s, actions[0]);
      if actions[0].Locked? {
        assert Run(s.command, [actions[0].event]) == s'.command;
        OldHandlesStayOld(s.command, [actions[0].event], handle);
      }
      GoneIsNotHit(s', actions[1..], from, handle);
    }
  }

  lemma {:induction false} QuietIsNotHit(s: System, actions: seq<Action>, handle: nat)
    requires KillInv(s) && s.command.current == Some(handle) && !Loaded(s)
    ensures !HitSince(ActAll(s, actions), |s.signals|, handle)
    decreases |actions|
  {
    if actions != [] {
      var s' := Act(s, actions[0]);
      ActKeepsInv(s, actions[0]);
      QuietStep(s, actions[0]);
      if s'.command.current == Some(handle) {
        QuietIsNotHit(s', actions[1..], handle);
      } else {
        assert handle < |s'.command.cancels|;
        GoneIsNotHit(s', actions[1..], |s.signals|, handle);
      }
    }
  }

  lemma ActTwice(s: System, a: Action, b: Action)
    ensures ActAll(s, [a]) == Act(s, a)
    ensures ActAll(s, [a, b]) == Act(Act(s, a), b)
  {
    assert [a, b][1..] == [b];
    assert ActAll(Act(s, a), [b]) == Act(Act(s, a), b);
  }

  /** The steps by which a killer comes to send its next signal. */
  function ToSignal(s: System, k: nat): seq<Action>
    requires CanSignal(s, k)
  {
    match s.killers[k]
    case Launched => [Check(k), Terminate(k)]
    case Checked => [Terminate(k)]
    case Terminated => [Escalate(k)]
  }

  lemma LoadedSignals(s: System, k: nat)
    requires CanSignal(s, k)
    ensures
      var s' := ActAll(s, ToSignal(s, k));
      s'.signals == s.signals + [Sent(k, s.killers[k].Terminated?, s.command.current, s.command.exited)]
  {
    ActTwice(s, ToSignal(s, k)[0], Terminate(k));
  }

  /** A client holding the command can be hit before it leaves exactly when, at this moment, a kill
      launched earlier has yet to send a signal: attaching stops the timer, not the launched kill. */
  lemma HolderHitIff(p: Persistence, past: seq<Action>, handle: nat)
    requires ActAll(Begun(p), past).command.current == Some(handle)
    ensures
      var s := ActAll(Begun(p), past);
      CanHit(s, handle) <==> Loaded(s)
  {
    var s := ActAll(Begun(p), past);
    ActAllKeepsInv(Begun(p), past);
    if Loaded(s) {
      var k: nat :| CanSignal(s, k);
      LoadedSignals(s, k);
      assert ActAll(s, ToSignal(s, k)).signals[|s.signals|].attached == Some(handle);
      assert HitSince(ActAll(s, ToSignal(s, k)), |s.signals|, handle);
    } else {
      forall actions: seq<Action> ensures !HitSince(ActAll(s, actions), |s.signals|, handle) {
        QuietIsNotHit(s, actions, handle);
      }
    }
  }

  /** With the exit recorded, nothing can be launched or pass the check any more. */
  lemma {:induction false} ExitedStaysSilent(s: System, actions: seq<Action>)
    requires KillInv(s) && s.command.exited && !Loaded(s)
    ensures ActAll(s, actions).signals == s.signals
    decreases |actions|
  {
    if actions != [] {
      ActKeepsInv(s, actions[0]);
      QuietStep(s, actions[0]);
      ExitedStaysSilent(Act(s, actions[0]), actions[1..]);
    }
  }

  /** An exited command is still signaled by some continuation exactly when a kill had passed its one
      look at the exit and is not over. */
  lemma ExitedSignaledIff(p: Persistence, past: seq<Action>)
    requires ActAll(Begun(p), past).command.exited
    ensures
      var s := ActAll(Begun(p), past);
      (exists actions: seq<Action> :: ActAll(s, actions).signals != s.signals) <==>
      (exists k :: 0 <= k < |s.killers| && (s.killers[k].Checked? || s.killers[k].Terminated?))
  {
    var s := ActAll(Begun(p), past);
    ActAllKeepsInv(Begun(p), past);
    if k: nat :| CanSignal(s, k) {
      LoadedSignals(s, k);
      assert ActAll(s, ToSignal(s, k)).signals != s.signals;
    } else {
      forall k | 0 <= k < |s.killers| ensures !(s.killers[k].Checked? || s.killers[k].Terminated?) {
        assert !CanSignal(s, k);
      }
      forall actions: seq<Action> ensures ActAll(s, actions).signals == s.signals {
        ExitedStaysSilent(s, actions);
      }
    }
  }

  /** A client comes back just after the timer has fired: it holds the command, its command is
      running, and the terminate signal reaches it all the same. */
  lemma ReturningClientIsHit()
    ensures
      var back := ActAll(Begun(Kill), [Locked(OnAttach), Locked(OnGone(0)), Locked(OnFire(0)), Locked(OnAttach)]);
      && back.command.current == Some(1) && !back.command.exited
      && CanHit(back, 1)
  {
    var a, g, f := Locked(OnAttach), Locked(OnGone(0)), Locked(OnFire(0));
    assert [a, g, f, a][1..] == [g, f, a] && [g, f, a][1..] == [f, a];
    var gone := Act(Act(Begun(Kill), a), g);
    assert ActAll(Begun(Kill), [a, g, f, a]) == ActAll(gone, [f, a]);
    ActTwice(gone, f, a);
    assert gone.command == Command(Kill, None, [0], Some(0), [Armed], false, []);
    var back := Act(Act(gone, f), a);
    assert CanSignal(back, 0);
    HolderHitIff(Kill, [a, g, f, a], 1);
  }
}
