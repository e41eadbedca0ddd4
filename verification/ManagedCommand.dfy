/**
 Who is attached to a managed command, and when its disconnection gets it killed.

 Attachment handles and kill timers are numbered in the order they are made. `Command` is the
 state under the command's mutex together with what happened to every handle and timer;
 `ManagedCommand` updates it in place, one method a critical section.
 */
module ManagedCommands {
  import opened Options

  datatype Persistence = Kill | Keep

  datatype Requested = RequestKeep | RequestKill | Unspecified

  /** Unless chosen, interactive commands and shells outlive their client. */
  function ResolvePersistence(requested: Requested, pty: bool, shell: bool): (p: Persistence)
    ensures p.Kill? <==> requested.RequestKill? || (requested.Unspecified? && !pty && !shell)
  {
    match requested
    case RequestKeep => Keep
    case RequestKill => Kill
    case Unspecified => if pty || shell then Keep else Kill
  }

  datatype Timer = Armed | Fired | Stopped

  /** The command as it was when a disconnect-kill was launched. */
  datatype Launch = Launch(attached: bool, persistence: Persistence, exited: bool)

  datatype Command = Command(
    persistence: Persistence,
    current: Option<nat>,
    cancels: seq<nat>,
    pending: Option<nat>,
    timers: seq<Timer>,
    exited: bool,
    launches: seq<Launch>)

  function Started(p: Persistence): Command {
    Command(p, None, [], None, [], false, [])
  }

  /** Stopping a timer has no effect once it has fired. */
  function CallOff(c: Command): Command {
    if c.pending.None? then c
    else
      var t := c.pending.value;
      c.(pending := None,
         timers := if t < |c.timers| && c.timers[t].Armed? then c.timers[t := Stopped] else c.timers)
  }

  function CancelCurrent(c: Command): Command {
    if c.current.Some? && c.current.value < |c.cancels| then
      c.(cancels := c.cancels[c.current.value := c.cancels[c.current.value] + 1])
    else c
  }

  function AfterAttach(c: Command): Command {
    var c' := CancelCurrent(CallOff(c));
    c'.(current := Some(|c'.cancels|), cancels := c'.cancels + [0])
  }

  function AfterGone(c: Command, handle: nat): Command {
    if c.current != Some(handle) then c
    else
      var c' := c.(current := None);
      if c.exited || c.persistence.Keep? then c'
      else
        var c'' := CallOff(c');
        c''.(pending := Some(|c''.timers|), timers := c''.timers + [Armed])
  }

  function AfterDetach(c: Command): Command {
    CancelCurrent(CallOff(c).(persistence := Keep)).(current := None)
  }

  function AfterExit(c: Command): Command {
    CallOff(c).(exited := true)
  }

  function AfterFire(c: Command, t: nat): Command {
    if t < |c.timers| && c.timers[t].Armed? then
      c.(timers := c.timers[t := Fired],
         launches := c.launches + [Launch(c.current.Some?, c.persistence, c.exited)])
    else c
  }

  // -------------------------------------------------------------------------- the object

  class ManagedCommand {
    var persistence: Persistence
    var current: Option<nat>
    var cancels: seq<nat>
    var pending: Option<nat>
    var timers: seq<Timer>
    var exited: bool
    ghost var launches: seq<Launch>

    ghost function View(): Command
      reads this
    {
      Command(persistence, current, cancels, pending, timers, exited, launches)
    }

    ghost predicate Valid()
      reads this
    {
      Inv(View())
    }

    constructor (p: Persistence)
      ensures Valid() && View() == Started(p)
    {
      persistence, current, cancels, pending, timers, exited, launches := p, None, [], None, [], false, [];
    }

    method StopPending()
      requires pending.Some? ==> pending.value < |timers|
      modifies this`pending, this`timers
      ensures View() == CallOff(old(View()))
    {
      if pending.Some? {
        if timers[pending.value].Armed? {
          timers := timers[pending.value := Stopped];
        }
        pending := None;
      }
    }

    method Attach() returns (handle: nat)
      requires Valid()
      modifies this
      ensures Valid() && View() == AfterAttach(old(View()))
      ensures current == Some(handle) && cancels[handle] == 0
      ensures old(current).Some? ==> handle != old(current).value && cancels[old(current).value] == 1
    {
      StepKeepsInv(View(), OnAttach);
      StopPending();
      if current.Some? {
        cancels := cancels[current.value := cancels[current.value] + 1];
      }
      handle := |cancels|;
      cancels := cancels + [0];
      current := Some(handle);
    }

    method ClientGone(handle: nat)
      requires Valid()
      modifies this
      ensures Valid() && View() == AfterGone(old(View()), handle)
      ensures old(current) != Some(handle) ==> unchanged(this)
    {
      StepKeepsInv(View(), OnGone(handle));
      if current != Some(handle) {
        return;
      }
      current := None;
      if exited || persistence != Kill {
        return;
      }
      StopPending();
      pending := Some(|timers|);
      timers := timers + [Armed];
    }

    method DetachAndKeep() returns (wasAttached: bool)
      requires Valid()
      modifies this
      ensures Valid() && View() == AfterDetach(old(View()))
      ensures wasAttached == old(current).Some?
    {
      StepKeepsInv(View(), OnDetach);
      StopPending();
      persistence := Keep;
      if current.None? {
        return false;
      }
      cancels := cancels[current.value := cancels[current.value] + 1];
      current := None;
      return true;
    }

    /** The locked part of reaping: `forget` says nobody is left to be told the exit status. */
    method RecordExit() returns (forget: bool)
      requires Valid()
      modifies this
      ensures Valid() && View() == AfterExit(old(View()))
      ensures forget == (old(persistence).Kill? && old(current).None?)
    {
      StepKeepsInv(View(), OnExit);
      StopPending();
      exited := true;
      return persistence == Kill && current.None?;
    }
  }

  // --------------------------------------------------------------------------- every run

  datatype Event = OnAttach | OnGone(handle: nat) | OnDetach | OnExit | OnFire(timer: nat)

  function Step(c: Command, e: Event): Command {
    match e
    case OnAttach => AfterAttach(c)
    case OnGone(h) => AfterGone(c, h)
    case OnDetach => AfterDetach(c)
    case OnExit => AfterExit(c)
    case OnFire(t) => AfterFire(c, t)
  }

  function Run(c: Command, events: seq<Event>): Command
    decreases |events|
  {
    if events == [] then c else Run(Step(c, events[0]), events[1..])
  }

  ghost predicate Inv(c: Command) {
    // The current handle has not been canceled, and none is canceled twice.
    && (c.current.Some? ==> c.current.value < |c.cancels| && c.cancels[c.current.value] == 0)
    && (forall h :: 0 <= h < |c.cancels| ==> c.cancels[h] <= 1)
    // At most the pending timer is armed, and then the command may be killed.
    && (c.pending.Some? ==> c.pending.value < |c.timers|)
    && (forall t :: 0 <= t < |c.timers| && c.timers[t].Armed? ==>
          c.pending == Some(t) && c.current.None? && c.persistence.Kill? && !c.exited)
    && (forall i :: 0 <= i < |c.launches| ==> c.launches[i] == Launch(false, Kill, false))
  }

  lemma CallOffKeepsInv(c: Command)
    requires Inv(c)
    ensures Inv(CallOff(c))
    ensures forall t :: 0 <= t < |CallOff(c).timers| ==> !CallOff(c).timers[t].Armed?
  {
  }

  lemma GoneKeepsInv(c: Command, handle: nat)
    requires Inv(c)
    ensures Inv(AfterGone(c, handle))
  {
    CallOffKeepsInv(c.(current := None));
  }

  lemma FireKeepsInv(c: Command, t: nat)
    requires Inv(c)
    ensures Inv(AfterFire(c, t))
  {
  }

  lemma StepKeepsInv(c: Command, e: Event)
    requires Inv(c)
    ensures Inv(Step(c, e))
  {
    match e {
      case OnGone(h) => GoneKeepsInv(c, h);
      case OnFire(t) => FireKeepsInv(c, t);
      case _ => CallOffKeepsInv(c);
    }
  }

  lemma {:induction false} RunKeepsInv(c: Command, events: seq<Event>)
    requires Inv(c)
    ensures Inv(Run(c, events))
    decreases |events|
  {
    if events != [] {
      StepKeepsInv(c, events[0]);
      RunKeepsInv(Step(c, events[0]), events[1..]);
    }
  }

  /** In every run the current handle is never canceled, no handle is canceled twice, and every
      disconnect-kill was launched with nobody attached, under the kill policy and before the exit. */
  lemma AttachmentAndKillSafety(p: Persistence, events: seq<Event>)
    ensures
      var c := Run(Started(p), events);
      && (c.current.Some? ==> c.current.value < |c.cancels| && c.cancels[c.current.value] == 0)
      && (forall h :: 0 <= h < |c.cancels| ==> c.cancels[h] <= 1)
      && (forall t :: 0 <= t < |c.timers| && c.timers[t].Armed? ==> c.current.None? && c.persistence.Kill? && !c.exited)
      && (forall i :: 0 <= i < |c.launches| ==> c.launches[i] == Launch(false, Kill, false))
  {
    RunKeepsInv(Started(p), events);
  }

  /** A handle that is not current never becomes current again. */
  lemma {:induction false} OldHandlesStayOld(c: Command, events: seq<Event>, handle: nat)
    requires Inv(c) && handle < |c.cancels| && c.current != Some(handle)
    ensures handle < |Run(c, events).cancels| && Run(c, events).current != Some(handle)
    decreases |events|
  {
    if events != [] {
      StepKeepsInv(c, events[0]);
      OldHandlesStayOld(Step(c, events[0]), events[1..], handle);
    }
  }

  /** Whatever happens after a client has lost the command, its late goodbye changes nothing. */
  lemma StaleGoodbyeIsIgnored(p: Persistence, before: seq<Event>, after: seq<Event>, handle: nat)
    requires handle < |Run(Started(p), before).cancels|
    requires Run(Started(p), before).current != Some(handle)
    ensures AfterGone(Run(Run(Started(p), before), after), handle) == Run(Run(Started(p), before), after)
  {
    RunKeepsInv(Started(p), before);
    OldHandlesStayOld(Run(Started(p), before), after, handle);
  }

  lemma KeepStep(c: Command, e: Event)
    requires Inv(c) && c.persistence.Keep?
    ensures Step(c, e).persistence.Keep? && Step(c, e).launches == c.launches
  {
  }

  /** Keep is absorbing: from then on nothing launches a disconnect-kill. */
  lemma {:induction false} KeepIsAbsorbing(c: Command, events: seq<Event>)
    requires Inv(c) && c.persistence.Keep?
    ensures Run(c, events).persistence.Keep?
    ensures Run(c, events).launches == c.launches
    decreases |events|
  {
    if events != [] {
      StepKeepsInv(c, events[0]);
      KeepStep(c, events[0]);
      KeepIsAbsorbing(Step(c, events[0]), events[1..]);
    }
  }

  /** An explicit detach is final: the command keeps running, whatever its policy was. */
  lemma NoKillAfterDetach(p: Persistence, before: seq<Event>, after: seq<Event>)
    ensures
      var c := Run(Started(p), before);
      Run(AfterDetach(c), after).launches == c.launches
  {
    RunKeepsInv(Started(p), before);
    var c := Run(Started(p), before);
    StepKeepsInv(c, OnDetach);
    KeepIsAbsorbing(AfterDetach(c), after);
  }

  /** While a client is attached no step launches a disconnect-kill, a late timer included. */
  lemma NoKillWhileAttached(p: Persistence, events: seq<Event>, e: Event)
    requires Run(Started(p), events).current.Some?
    ensures Step(Run(Started(p), events), e).launches == Run(Started(p), events).launches
  {
    RunKeepsInv(Started(p), events);
  }

  predicate KillArmed(c: Command) {
    c.pending.Some? && c.pending.value < |c.timers| && c.timers[c.pending.value].Armed?
  }

  /** A client's goodbye arms the kill exactly when the command runs under the kill policy. */
  lemma GoodbyeArmsKillIff(p: Persistence, events: seq<Event>, handle: nat)
    requires Run(Started(p), events).current == Some(handle)
    ensures
      var c := Run(Started(p), events);
      && AfterGone(c, handle).current.None?
      && (KillArmed(AfterGone(c, handle)) <==> c.persistence.Kill? && !c.exited)
  {
    RunKeepsInv(Started(p), events);
  }

  /** A takeover or an explicit detach cancels the handle that was current, and no other. */
  lemma TakeoverCancelsExactlyCurrent(p: Persistence, events: seq<Event>, handle: nat)
    requires handle < |Run(Started(p), events).cancels|
    ensures
      var c := Run(Started(p), events);
      var canceled := if c.current == Some(handle) then 1 else c.cancels[handle];
      && AfterAttach(c).cancels[handle] == canceled
      && AfterDetach(c).cancels[handle] == canceled
  {
    RunKeepsInv(Started(p), events);
  }
}
