/**
 The slots a daemon keeps for forwarding the SSH agent, one a connection name, each tagged with a
 generation so that a slow worker cannot tear down a forward started after its own was stopped.
 */
module AgentForward {

  /** `removing` are the generations taken out of the table by a call that has yet to cancel them;
      `issued` lists the generations ever handed out, with their names. */
  datatype Slots = Slots(
    entries: map<string, nat>,
    gen: nat,
    canceled: set<nat>,
    removing: set<nat>,
    closed: bool,
    issued: seq<(string, nat)>)

  function Init(): Slots {
    Slots(map[], 0, {}, {}, false, [])
  }

  predicate MayBegin(s: Slots, name: string) {
    !s.closed && name !in s.entries
  }

  function Begin(s: Slots, name: string): Slots {
    if !MayBegin(s, name) then s
    else s.(gen := s.gen + 1, entries := s.entries[name := s.gen + 1], issued := s.issued + [(name, s.gen + 1)])
  }

  /** The locked half of an explicit stop. */
  function Take(s: Slots, name: string): Slots {
    if name in s.entries then
      s.(entries := s.entries - {name}, removing := s.removing + {s.entries[name]})
    else s
  }

  /** The locked half of a worker's end: nothing, unless the slot is still the worker's own. */
  function TakeGen(s: Slots, name: string, gen: nat): Slots {
    if name in s.entries && s.entries[name] == gen then Take(s, name) else s
  }

  /** The unlocked half of either: the context is canceled. */
  function Cancel(s: Slots, gen: nat): Slots {
    if gen in s.removing then s.(removing := s.removing - {gen}, canceled := s.canceled + {gen}) else s
  }

  /** A reconnect cancels every forward and drops the table. */
  function Teardown(s: Slots): Slots {
    s.(canceled := s.canceled + s.entries.Values, entries := map[])
  }

  /** Closing the daemon cancels every forward; workers drop their own entries as they end. */
  function Closed(s: Slots): Slots {
    if s.closed then s else s.(closed := true, canceled := s.canceled + s.entries.Values)
  }

  // -------------------------------------------------------------------------- the object

  class AgentForwards {
    var entries: map<string, nat>
    var gen: nat
    var closed: bool
    var canceled: set<nat>
    ghost var issued: seq<(string, nat)>

    ghost function View(): Slots
      reads this
    {
      Slots(entries, gen, canceled, {}, closed, issued)
    }

    ghost predicate Valid()
      reads this
    {
      Inv(View())
    }

    constructor ()
      ensures Valid() && View() == Init()
    {
      entries, gen, closed, canceled, issued := map[], 0, false, {}, [];
    }

    method TryBegin(name: string) returns (g: nat, ok: bool)
      requires Valid()
      modifies this
      ensures Valid() && View() == Begin(old(View()), name)
      ensures ok <==> !old(closed) && name !in old(entries)
      ensures ok ==> name in entries && entries[name] == g && g > old(gen) && g !in canceled
    {
      BeginKeepsInv(View(), name);
      if closed || name in entries {
        return 0, false;
      }
      gen := gen + 1;
      entries := entries[name := gen];
      issued := issued + [(name, gen)];
      assert View() == Begin(old(View()), name);
      return gen, true;
    }

    method End(name: string)
      requires Valid()
      modifies this
      ensures Valid()
      ensures name in old(entries) ==> View() == Cancel(Take(old(View()), name), old(entries)[name])
      ensures name !in old(entries) ==> View() == old(View())
    {
      if name in entries {
        var g := entries[name];
        TakeKeepsInv(View(), name);
        CancelKeepsInv(Take(View(), name), g);
        entries := entries - {name};
        canceled := canceled + {g};
      }
    }

    method EndGen(name: string, g: nat)
      requires Valid()
      modifies this
      ensures Valid()
      ensures View() == Cancel(TakeGen(old(View()), name, g), g)
      // A worker's end leaves every other generation in place.
      ensures forall n :: n in old(entries) && old(entries)[n] != g ==> n in entries && entries[n] == old(entries)[n]
    {
      if name !in entries || entries[name] != g {
        return;
      }
      TakeKeepsInv(View(), name);
      CancelKeepsInv(Take(View(), name), g);
      entries := entries - {name};
      canceled := canceled + {g};
    }

    method TeardownForReconnect()
      requires Valid()
      modifies this
      ensures Valid() && View() == Teardown(old(View()))
    {
      TeardownKeepsInv(View());
      canceled := canceled + entries.Values;
      entries := map[];
    }

    method Close()
      requires Valid()
      modifies this
      ensures Valid() && View() == Closed(old(View()))
    {
      CloseKeepsInv(View());
      if !closed {
        closed := true;
        canceled := canceled + entries.Values;
      }
    }
  }

  // --------------------------------------------------------------------------- every run

  datatype Event =
    | OnBegin(name: string)
    | OnTake(name: string)
    | OnTakeGen(name: string, gen: nat)
    | OnCancel(gen: nat)
    | OnTeardown
    | OnClose

  function Step(s: Slots, e: Event): Slots {
    match e
    case OnBegin(name) => Begin(s, name)
    case OnTake(name) => Take(s, name)
    case OnTakeGen(name, gen) => TakeGen(s, name, gen)
    case OnCancel(gen) => Cancel(s, gen)
    case OnTeardown => Teardown(s)
    case OnClose => Closed(s)
  }

  function Run(s: Slots, events: seq<Event>): Slots
    decreases |events|
  {
    if events == [] then s else Run(Step(s, events[0]), events[1..])
  }

  ghost predicate Inv(s: Slots) {
    // Generations are handed out in order, each once.
    && |s.issued| == s.gen
    && (forall i :: 0 <= i < |s.issued| ==> s.issued[i].1 == i + 1)
    // An entry holds the generation issued to its name, so no two entries share one.
    && (forall n :: n in s.entries ==> 1 <= s.entries[n] <= s.gen && s.issued[s.entries[n] - 1].0 == n)
    && (forall g :: g in s.removing || g in s.canceled ==> 1 <= g <= s.gen)
    // Every generation is in its slot, about to be canceled, or canceled.
    && (forall g :: 1 <= g <= s.gen ==> InSlot(s, g) || g in s.removing || g in s.canceled)
    // Until the daemon closes, what is in a slot has not been canceled.
    && (forall g :: g in s.removing ==> !InSlot(s, g))
    && (!s.closed ==> forall g :: g in s.canceled ==> !InSlot(s, g))
  }

  predicate InSlot(s: Slots, g: nat) {
    1 <= g <= |s.issued| && s.issued[g - 1].0 in s.entries && s.entries[s.issued[g - 1].0] == g
  }

  lemma BeginKeepsInv(s: Slots, name: string)
    requires Inv(s)
    ensures Inv(Begin(s, name))
  {
    var s' := Begin(s, name);
    forall g | 1 <= g <= s.gen
      ensures InSlot(s', g) <==> InSlot(s, g)
    {
      assert s'.issued[g - 1] == s.issued[g - 1];
    }
  }

  lemma TakeSlots(s: Slots, name: string, g: nat)
    requires Inv(s) && name in s.entries
    ensures InSlot(Take(s, name), g) <==> InSlot(s, g) && g != s.entries[name]
  {
  }

  lemma TakeKeepsInv(s: Slots, name: string)
    requires Inv(s)
    ensures Inv(Take(s, name))
  {
    if name in s.entries {
      forall g: nat ensures InSlot(Take(s, name), g) <==> InSlot(s, g) && g != s.entries[name] {
        TakeSlots(s, name, g);
      }
    }
  }

  lemma CancelKeepsInv(s: Slots, g: nat)
    requires Inv(s)
    ensures Inv(Cancel(s, g))
  {
    var s' := Cancel(s, g);
    forall h: nat
      ensures InSlot(s', h) <==> InSlot(s, h)
    {
    }
  }

  lemma SlotsHoldValues(s: Slots, g: nat)
    requires Inv(s)
    ensures g in s.entries.Values <==> InSlot(s, g)
  {
  }

  lemma TeardownKeepsInv(s: Slots)
    requires Inv(s)
    ensures Inv(Teardown(s))
  {
    var s' := Teardown(s);
    forall g: nat
      ensures !InSlot(s', g) && (g in s.entries.Values <==> InSlot(s, g))
    {
      SlotsHoldValues(s, g);
    }
  }

  lemma CloseKeepsInv(s: Slots)
    requires Inv(s)
    ensures Inv(Closed(s))
  {
    var s' := Closed(s);
    forall g: nat
      ensures (InSlot(s', g) <==> InSlot(s, g)) && (g in s.entries.Values <==> InSlot(s, g))
    {
      SlotsHoldValues(s, g);
    }
  }

  lemma StepKeepsInv(s: Slots, e: Event)
    requires Inv(s)
    ensures Inv(Step(s, e))
  {
    match e {
      case OnBegin(name) => BeginKeepsInv(s, name);
      case OnTake(name) => TakeKeepsInv(s, name);
      case OnTakeGen(name, _) => TakeKeepsInv(s, name);
      case OnCancel(gen) => CancelKeepsInv(s, gen);
      case OnTeardown => TeardownKeepsInv(s);
      case OnClose => CloseKeepsInv(s);
    }
  }

  lemma {:induction false} RunKeepsInv(s: Slots, events: seq<Event>)
    requires Inv(s)
    ensures Inv(Run(s, events))
    decreases |events|
  {
    if events != [] {
      StepKeepsInv(s, events[0]);
      RunKeepsInv(Step(s, events[0]), events[1..]);
    }
  }

  /** No forward is lost track of: in every interleaving, every generation ever issued is the live
      entry of its name, or has been canceled, or is about to be by the call that removed it. */
  lemma NoForwardLeaks(events: seq<Event>, i: nat)
    ensures
      var s := Run(Init(), events);
      i < |s.issued| ==>
        var (name, gen) := s.issued[i];
        && gen == i + 1
        && ((name in s.entries && s.entries[name] == gen) || gen in s.removing || gen in s.canceled)
  {
    RunKeepsInv(Init(), events);
    var s := Run(Init(), events);
    if i < |s.issued| {
      assert s.issued[i].1 == i + 1;
      assert InSlot(s, i + 1) || i + 1 in s.removing || i + 1 in s.canceled;
    }
  }

  /** A generation that has left its slot never holds one again. */
  lemma {:induction false} GoneStaysGone(s: Slots, events: seq<Event>, gen: nat)
    requires Inv(s) && 1 <= gen <= s.gen && !InSlot(s, gen)
    ensures gen <= Run(s, events).gen && !InSlot(Run(s, events), gen)
    decreases |events|
  {
    if events != [] {
      StepKeepsInv(s, events[0]);
      GoneStep(s, events[0], gen);
      GoneStaysGone(Step(s, events[0]), events[1..], gen);
    }
  }

  lemma GoneStep(s: Slots, e: Event, gen: nat)
    requires Inv(s) && 1 <= gen <= s.gen && !InSlot(s, gen)
    ensures gen <= Step(s, e).gen && !InSlot(Step(s, e), gen)
  {
    if e.OnBegin? {
      assert Step(s, e).issued[gen - 1] == s.issued[gen - 1];
    }
  }

  /** No ABA: whatever happens after a worker's forward was stopped, the worker's own end, when it
      finally comes, changes nothing, whoever holds the name by then. */
  lemma LateWorkerChangesNothing(before: seq<Event>, after: seq<Event>, name: string, gen: nat)
    requires
      var s := Run(Init(), before);
      1 <= gen <= s.gen && !InSlot(s, gen)
    ensures
      var s := Run(Run(Init(), before), after);
      TakeGen(s, name, gen) == s
  {
    RunKeepsInv(Init(), before);
    var s := Run(Init(), before);
    assert |s.issued| == s.gen;
    GoneStaysGone(s, after, gen);
    RunKeepsInv(s, after);
  }

  // ------------------------------------------------------------------------------ backoff

  function Pow2(n: nat): nat {
    if n == 0 then 1 else 2 * Pow2(n - 1)
  }

  /** How long a slot is held after a run of consecutive failures. */
  function BackoffFor(base: nat, max: nat, failures: nat): nat
    requires failures >= 1
  {
    var shift := if failures - 1 <= 5 then failures - 1 else 5;
    var backoff := base * Pow2(shift);
    if backoff <= max then backoff else max
  }

  lemma {:induction false} Pow2Grows(a: nat, b: nat)
    requires a <= b
    ensures Pow2(a) <= Pow2(b)
    decreases b
  {
    if a < b {
      Pow2Grows(a, b - 1);
    }
  }

  /** The backoff doubles from the base up to the maximum for every number of failures exactly when
      five doublings reach the maximum; the defaults, one second and thirty, do. */
  lemma BackoffDoublesToMaxIff(base: nat, max: nat)
    requires base > 0
    ensures
      (forall f :: f >= 1 ==> BackoffFor(base, max, f) == if base * Pow2(f - 1) <= max then base * Pow2(f - 1) else max)
      <==> 32 * base >= max
  {
    assert Pow2(5) == 32 by {
      assert Pow2(4) == 16;
    }
    assert Pow2(6) == 64;
    if 32 * base >= max {
      forall f | f >= 1
        ensures BackoffFor(base, max, f) == if base * Pow2(f - 1) <= max then base * Pow2(f - 1) else max
      {
        if f - 1 > 5 {
          Pow2Grows(6, f - 1);
          assert base * Pow2(f - 1) >= base * 64;
        }
      }
    } else {
      assert BackoffFor(base, max, 7) == 32 * base;
      assert base * Pow2(7 - 1) == 64 * base;
    }
  }
}
