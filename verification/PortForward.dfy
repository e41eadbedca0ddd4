/**
 Forwarded ports of a daemon: those detected on the remote and those asked for explicitly.

 A forward is keyed by protocol and remote port. Whether a local port can be bound is up to the
 local machine: `busy` names the keys whose start finds its local port taken. Each started forward
 gets a number of its own, so that "left alone" can be told from "restarted".
 */
module PortForward {
  import opened Options

  type Key = (string, nat)

  datatype Spec = Spec(remotePort: nat, localPort: nat, protocol: string) {
    function EffectiveLocalPort(): nat {
      if localPort == 0 then remotePort else localPort
    }
    function EffectiveProtocol(): string {
      if protocol == "" then "tcp" else protocol
    }
    function KeyOf(): Key {
      (EffectiveProtocol(), remotePort)
    }
  }

  datatype Forward = Forward(localPort: nat, explicit: bool, conflict: bool, number: nat)

  datatype Ports = Ports(forwards: map<Key, Forward>, explicit: map<Key, Spec>, closed: bool, next: nat)

  /** Starting a forward, with the explicit specification if there is one. */
  function Start(key: Key, spec: Option<Spec>, busy: set<Key>, number: nat): Forward {
    var asked := if spec.Some? then spec.value.EffectiveLocalPort() else 0;
    Forward(if asked != 0 then asked else key.1, spec.Some?, key in busy, number)
  }

  function Lookup(explicit: map<Key, Spec>, key: Key): Option<Spec> {
    if key in explicit then Some(explicit[key]) else None
  }

  // ------------------------------------------------------------------------- operations

  function Add(p: Ports, spec: Spec, busy: set<Key>): Ports {
    var key := spec.KeyOf();
    if key in p.explicit then p
    else if key in p.forwards && p.forwards[key].localPort == spec.EffectiveLocalPort() && !p.forwards[key].conflict then
      p.(explicit := p.explicit[key := spec], forwards := p.forwards[key := p.forwards[key].(explicit := true)])
    else
      var cleared := p.(forwards := p.forwards - {key}, next := p.next + 1);
      if key in busy then cleared
      else if p.closed then cleared.(explicit := p.explicit[key := spec])
      else
        cleared.(explicit := p.explicit[key := spec],
                 forwards := cleared.forwards[key := Start(key, Some(spec), busy, p.next)])
  }

  function Remove(p: Ports, spec: Spec): Ports {
    var key := spec.KeyOf();
    if key !in p.explicit then p
    else p.(explicit := p.explicit - {key}, forwards := p.forwards - {key})
  }

  function Detected(remotePorts: seq<Key>): set<Key> {
    set k | k in remotePorts
  }

  /** The ports that should be forwarded. */
  function Wanted(p: Ports, detected: set<Key>): set<Key> {
    detected + p.explicit.Keys
  }

  /** The forwards a reconcile leaves alone: still wanted and not in conflict. */
  function Kept(p: Ports, detected: set<Key>): map<Key, Forward> {
    map k | k in p.forwards && k in Wanted(p, detected) && !p.forwards[k].conflict :: p.forwards[k]
  }

  /** What a reconcile decides to start, each with the specification it saw. */
  function Plan(p: Ports, detected: set<Key>): map<Key, Option<Spec>> {
    map k | k in Wanted(p, detected) && k !in Kept(p, detected) :: Lookup(p.explicit, k)
  }

  /** Putting what was started into whatever table there is by then. */
  function Install(p: Ports, plan: map<Key, Option<Spec>>, busy: set<Key>): Ports {
    if p.closed then p.(next := p.next + 1)
    else
      p.(forwards := p.forwards + (map k | k in plan :: Start(k, plan[k], busy, p.next)), next := p.next + 1)
  }

  function Reconcile(p: Ports, detected: set<Key>, busy: set<Key>): Ports {
    Install(p.(forwards := Kept(p, detected)), Plan(p, detected), busy)
  }

  function Teardown(p: Ports): Ports {
    p.(forwards := map[])
  }

  function Close(p: Ports): Ports {
    if p.closed then p else p.(closed := true, forwards := map[])
  }

  // -------------------------------------------------------------------------- invariants

  /** A forward is marked explicit exactly when its port is, and then binds the port asked for. */
  predicate Marked(p: Ports) {
    && (forall k :: k in p.explicit ==> p.explicit[k].KeyOf() == k)
    && (forall k :: k in p.forwards ==> MarkedAt(p, k))
  }

  predicate MarkedAt(p: Ports, k: Key)
    requires k in p.forwards
  {
    && (p.forwards[k].explicit <==> k in p.explicit)
    && (k in p.explicit ==> p.forwards[k].localPort == p.explicit[k].EffectiveLocalPort())
  }

  datatype Event =
    | OnAdd(spec: Spec, busy: set<Key>)
    | OnRemove(spec: Spec)
    | OnReconcile(detected: set<Key>, busy: set<Key>)
    | OnTeardown
    | OnClose

  function Step(p: Ports, e: Event): Ports {
    match e
    case OnAdd(spec, busy) => Add(p, spec, busy)
    case OnRemove(spec) => Remove(p, spec)
    case OnReconcile(detected, busy) => Reconcile(p, detected, busy)
    case OnTeardown => Teardown(p)
    case OnClose => Close(p)
  }

  function Run(p: Ports, events: seq<Event>): Ports
    decreases |events|
  {
    if events == [] then p else Run(Step(p, events[0]), events[1..])
  }

  function Init(): Ports {
    Ports(map[], map[], false, 0)
  }

  lemma StartMatchesSpec(spec: Spec, busy: set<Key>, number: nat)
    ensures Start(spec.KeyOf(), Some(spec), busy, number).localPort == spec.EffectiveLocalPort()
  {
  }

  lemma ReconcileKeepsMarked(p: Ports, detected: set<Key>, busy: set<Key>)
    requires Marked(p)
    ensures Marked(Reconcile(p, detected, busy))
  {
    var q := Reconcile(p, detected, busy);
    forall k | k in q.forwards
      ensures MarkedAt(q, k)
    {
      if k in Kept(p, detected) {
        assert MarkedAt(p, k);
      } else if k in p.explicit {
        StartMatchesSpec(p.explicit[k], busy, p.next);
      }
    }
  }

  lemma StepKeepsMarked(p: Ports, e: Event)
    requires Marked(p)
    ensures Marked(Step(p, e))
  {
    match e {
      case OnReconcile(detected, busy) => ReconcileKeepsMarked(p, detected, busy);
      case OnAdd(spec, busy) =>
        StartMatchesSpec(spec, busy, p.next);
        forall k | k in Step(p, e).forwards && k != spec.KeyOf()
          ensures MarkedAt(Step(p, e), k)
        {
          assert MarkedAt(p, k);
        }
      case OnRemove(_) =>
        forall k | k in Step(p, e).forwards
          ensures MarkedAt(Step(p, e), k)
        {
          assert MarkedAt(p, k);
        }
      case _ =>
    }
  }

  lemma {:induction false} RunKeepsMarked(p: Ports, events: seq<Event>)
    requires Marked(p)
    ensures Marked(Run(p, events))
    decreases |events|
  {
    if events != [] {
      StepKeepsMarked(p, events[0]);
      RunKeepsMarked(Step(p, events[0]), events[1..]);
    }
  }

  /** In every run of serialized operations a forward is explicit exactly when its port was asked
      for and not withdrawn, and then it binds the local port asked for. */
  lemma ExplicitMarking(events: seq<Event>, k: Key)
    ensures
      var p := Run(Init(), events);
      k in p.forwards ==>
        && (p.forwards[k].explicit <==> k in p.explicit)
        && (k in p.explicit ==> p.forwards[k].localPort == p.explicit[k].EffectiveLocalPort())
  {
    RunKeepsMarked(Init(), events);
    var p := Run(Init(), events);
    assert k in p.forwards ==> MarkedAt(p, k);
  }

  /** After a reconcile of an open daemon exactly the wanted ports are forwarded; a forward that is
      still wanted and not in conflict is the very same one; every other is freshly started. */
  lemma ReconcileReachesWanted(p: Ports, detected: set<Key>, busy: set<Key>)
    requires !p.closed
    ensures
      var q := Reconcile(p, detected, busy);
      && q.forwards.Keys == detected + p.explicit.Keys
      && q.explicit == p.explicit
      && (forall k :: k in q.forwards ==>
            if k in p.forwards && !p.forwards[k].conflict then q.forwards[k] == p.forwards[k]
            else q.forwards[k].number == p.next && (q.forwards[k].conflict <==> k in busy))
  {
    var q := Reconcile(p, detected, busy);
    assert q.forwards.Keys == Kept(p, detected).Keys + Plan(p, detected).Keys;
    assert q.forwards.Keys == Wanted(p, detected);
  }

  /** Reconciling again with nothing in the way changes no forward: the second pass restarts exactly
      the ones that are still in conflict. */
  lemma ReconcileSettles(p: Ports, detected: set<Key>, busy: set<Key>, busy': set<Key>)
    requires !p.closed
    ensures
      var q := Reconcile(p, detected, busy);
      var r := Reconcile(q, detected, busy');
      && r.forwards.Keys == q.forwards.Keys
      && (forall k :: k in q.forwards ==> (r.forwards[k].number == q.forwards[k].number <==> !q.forwards[k].conflict))
  {
    ReconcileReachesWanted(p, detected, busy);
    var q := Reconcile(p, detected, busy);
    ReconcileReachesWanted(q, detected, busy');
    NumbersBelowNext(p, detected, busy);
  }

  /** Numbers given by a reconcile are older than the next one. */
  lemma NumbersBelowNext(p: Ports, detected: set<Key>, busy: set<Key>)
    ensures
      var q := Reconcile(p, detected, busy);
      forall k :: k in q.forwards && q.forwards[k].conflict ==> q.forwards[k].number < q.next
  {
  }

  // --------------------------------------------------------------- what serialization buys

  /** Two answers to whether a port is asked for, and on which local port. */
  predicate SameAsk(a: Option<Spec>, b: Option<Spec>) {
    && (a.Some? <==> b.Some?)
    && (a.Some? && b.Some? ==> a.value.EffectiveLocalPort() == b.value.EffectiveLocalPort())
  }

  predicate PlanAgrees(p: Ports, plan: map<Key, Option<Spec>>) {
    forall k :: k in plan ==> SameAsk(plan[k], Lookup(p.explicit, k))
  }

  /** A plan holds specifications for their own keys. */
  predicate PlanSound(plan: map<Key, Option<Spec>>) {
    forall k :: k in plan && plan[k].Some? ==> plan[k].value.KeyOf() == k
  }

  lemma InstallMarked(p: Ports, plan: map<Key, Option<Spec>>, busy: set<Key>)
    requires Marked(p) && !p.closed && PlanSound(plan)
    ensures Marked(Install(p, plan, busy)) <==> PlanAgrees(p, plan)
  {
    var q := Install(p, plan, busy);
    forall k | k in plan
      ensures k in q.forwards && (MarkedAt(q, k) <==> SameAsk(plan[k], Lookup(p.explicit, k)))
    {
      if plan[k].Some? {
        StartMatchesSpec(plan[k].value, busy, p.next);
      }
    }
    forall k | k in q.forwards && k !in plan
      ensures MarkedAt(q, k)
    {
      assert MarkedAt(p, k);
    }
  }

  /** The first half of a reconcile, up to where the lock is dropped. */
  function Planned(p: Ports, detected: set<Key>): Ports {
    p.(forwards := Kept(p, detected))
  }

  /** What other goroutines may do before the second half; reconciles themselves run one at a time. */
  predicate NoReconcile(es: seq<Event>) {
    forall i :: 0 <= i < |es| ==> !es[i].OnReconcile?
  }

  lemma PlannedIsMarked(p: Ports, detected: set<Key>)
    requires Marked(p)
    ensures Marked(Planned(p, detected)) && PlanSound(Plan(p, detected))
  {
    var q := Planned(p, detected);
    forall k | k in q.forwards ensures MarkedAt(q, k) {
      assert MarkedAt(p, k);
    }
  }

  /** The lock is dropped between planning and installing. Whatever is added, removed, torn down or
      closed in between, the table is marked correctly afterwards exactly when the daemon was closed,
      or every planned port is asked for, or not, just as it was at planning, and on the same local
      port. */
  lemma InterleavedMarkedIff(p: Ports, detected: set<Key>, es: seq<Event>, busy: set<Key>)
    requires Marked(p) && NoReconcile(es)
    ensures
      var now := Run(Planned(p, detected), es);
      Marked(Install(now, Plan(p, detected), busy)) <==>
        now.closed || forall k :: k in Plan(p, detected) ==> SameAsk(Lookup(p.explicit, k), Lookup(now.explicit, k))
  {
    var now, plan := Run(Planned(p, detected), es), Plan(p, detected);
    PlannedIsMarked(p, detected);
    RunKeepsMarked(Planned(p, detected), es);
    if !now.closed {
      InstallMarked(now, plan, busy);
    }
  }

  predicate Names(e: Event, k: Key) {
    (e.OnAdd? && e.spec.KeyOf() == k) || (e.OnRemove? && e.spec.KeyOf() == k)
  }

  lemma {:induction false} UnnamedKeepsAsk(p: Ports, es: seq<Event>, k: Key)
    requires forall i :: 0 <= i < |es| ==> !Names(es[i], k)
    ensures Lookup(Run(p, es).explicit, k) == Lookup(p.explicit, k)
    decreases |es|
  {
    if es != [] {
      assert !Names(es[0], k);
      UnnamedKeepsAsk(Step(p, es[0]), es[1..], k);
    }
  }

  /** In particular it is enough that no planned port is added or removed meanwhile. */
  lemma UndisturbedPlanIsMarked(p: Ports, detected: set<Key>, es: seq<Event>, busy: set<Key>)
    requires Marked(p) && NoReconcile(es)
    requires forall k, i :: k in Plan(p, detected) && 0 <= i < |es| ==> !Names(es[i], k)
    ensures Marked(Install(Run(Planned(p, detected), es), Plan(p, detected), busy))
  {
    InterleavedMarkedIff(p, detected, es, busy);
    forall k | k in Plan(p, detected)
      ensures Lookup(Run(Planned(p, detected), es).explicit, k) == Lookup(p.explicit, k)
    {
      UnnamedKeepsAsk(Planned(p, detected), es, k);
    }
  }

  /** It can go wrong: an explicit request that arrives between the two halves is overwritten by the
      detected forward that was planned before it, for every port and every other local port. */
  lemma UnserializedReconcileLosesMark(spec: Spec, busy: set<Key>)
    requires spec.KeyOf() !in busy
    ensures
      var k := spec.KeyOf();
      var q := Install(Run(Planned(Init(), {k}), [OnAdd(spec, busy)]), Plan(Init(), {k}), busy);
      && !Marked(q)
      && k in q.explicit && k in q.forwards
      && q.forwards[k].localPort == k.1 && !q.forwards[k].explicit
  {
    var k := spec.KeyOf();
    var p, es := Planned(Init(), {k}), [OnAdd(spec, busy)];
    assert es[1..] == [];
    assert Run(p, es) == Add(p, spec, busy);
    assert k in Wanted(Init(), {k}) && k !in Kept(Init(), {k});
    assert k in Plan(Init(), {k}) && Plan(Init(), {k})[k] == None;
    InterleavedMarkedIff(Init(), {k}, es, busy);
  }

  /** A reconcile put together from what it keeps and what it starts. */
  lemma ReconcileByParts(p: Ports, detected: set<Key>, busy: set<Key>, started: map<Key, Forward>)
    requires started == map k | k in Wanted(p, detected) && k !in Kept(p, detected) :: Start(k, Lookup(p.explicit, k), busy, p.next)
    ensures Reconcile(p, detected, busy)
         == p.(forwards := if p.closed then Kept(p, detected) else Kept(p, detected) + started, next := p.next + 1)
  {
    var plan := Plan(p, detected);
    assert started == map k | k in plan :: Start(k, plan[k], busy, p.next);
  }

  // -------------------------------------------------------------------------- the object

  class PortForwards {
    var forwards: map<Key, Forward>
    var explicit: map<Key, Spec>
    var closed: bool
    var next: nat

    ghost function View(): Ports
      reads this
    {
      Ports(forwards, explicit, closed, next)
    }

    constructor ()
      ensures View() == Init()
    {
      forwards, explicit, closed, next := map[], map[], false, 0;
    }

    method AddExplicit(spec: Spec, busy: set<Key>) returns (ok: bool)
      requires Marked(View())
      modifies this
      ensures View() == Add(old(View()), spec, busy) && Marked(View())
      ensures ok && !closed ==> spec.KeyOf() in explicit
    {
      StepKeepsMarked(View(), OnAdd(spec, busy));
      var key := spec.KeyOf();
      if key in explicit {
        return true;
      }
      explicit := explicit[key := spec];
      if key in forwards {
        var existing := forwards[key];
        if existing.localPort == spec.EffectiveLocalPort() && !existing.conflict {
          forwards := forwards[key := existing.(explicit := true)];
          return true;
        }
        forwards := forwards - {key};
      }
      assert forwards == old(forwards) - {key};
      var started := Start(key, Some(spec), busy, next);
      next := next + 1;
      if started.conflict {
        explicit := explicit - {key};
        assert explicit == old(explicit);
        return false;
      }
      if closed {
        return false;
      }
      forwards := forwards[key := started];
      return true;
    }

    method RemoveExplicit(spec: Spec) returns (removed: bool)
      requires Marked(View())
      modifies this
      ensures View() == Remove(old(View()), spec) && Marked(View())
      ensures removed <==> spec.KeyOf() in old(explicit)
    {
      StepKeepsMarked(View(), OnRemove(spec));
      var key := spec.KeyOf();
      if key !in explicit {
        return false;
      }
      explicit := explicit - {key};
      if key in forwards {
        forwards := forwards - {key};
      }
      assert forwards == old(forwards) - {key};
      return true;
    }

    /** Collects the ports to forward: the detected ones, then the explicit ones. */
    method CollectWanted(remotePorts: seq<Key>) returns (wanted: set<Key>)
      ensures wanted == Wanted(View(), Detected(remotePorts))
    {
      wanted := {};
      for i := 0 to |remotePorts|
        invariant wanted == Detected(remotePorts[..i])
      {
        wanted := wanted + {remotePorts[i]};
        assert remotePorts[..i + 1] == remotePorts[..i] + [remotePorts[i]];
      }
      assert remotePorts[..|remotePorts|] == remotePorts;
      wanted := wanted + explicit.Keys;
    }

    /** Drops forwards that are no longer wanted, and those in conflict, which are to be retried. */
    method DropStale(wanted: set<Key>)
      modifies this`forwards
      ensures forwards == map k | k in old(forwards) && k in wanted && !old(forwards)[k].conflict :: old(forwards)[k]
    {
      var todo := forwards.Keys;
      while todo != {}
        invariant todo <= old(forwards).Keys && forwards.Keys <= old(forwards).Keys
        invariant forall k :: k in forwards ==> forwards[k] == old(forwards)[k]
        invariant forall k :: k in old(forwards) ==>
                    (k in forwards <==> k in todo || (k in wanted && !old(forwards)[k].conflict))
        decreases |todo|
      {
        var key :| key in todo;
        if key !in wanted || forwards[key].conflict {
          forwards := forwards - {key};
        }
        todo := todo - {key};
      }
    }

    /** Starts every wanted port that has no forward. */
    method StartMissing(wanted: set<Key>, busy: set<Key>) returns (started: map<Key, Forward>)
      ensures started == map k | k in wanted && k !in forwards :: Start(k, Lookup(explicit, k), busy, next)
    {
      started := map[];
      var todo := wanted;
      while todo != {}
        invariant todo <= wanted
        invariant forall k :: k in started <==> k in wanted && k !in todo && k !in forwards
        invariant forall k :: k in started ==> started[k] == Start(k, Lookup(explicit, k), busy, next)
        decreases |todo|
      {
        var key :| key in todo;
        if key !in forwards {
          started := started[key := Start(key, Lookup(explicit, key), busy, next)];
        }
        todo := todo - {key};
      }
    }

    method ReconcilePortForwards(remotePorts: seq<Key>, busy: set<Key>)
      requires Marked(View())
      modifies this
      ensures View() == Reconcile(old(View()), Detected(remotePorts), busy) && Marked(View())
    {
      ghost var detected := Detected(remotePorts);
      StepKeepsMarked(View(), OnReconcile(detected, busy));
      var wanted := CollectWanted(remotePorts);
      DropStale(wanted);
      assert forwards == Kept(old(View()), detected);
      var started := StartMissing(wanted, busy);
      ReconcileByParts(old(View()), detected, busy, started);
      next := next + 1;
      if closed {
        return;
      }
      forwards := forwards + started;
    }

    method TeardownForReconnect()
      modifies this
      ensures View() == Teardown(old(View()))
    {
      forwards := map[];
    }
  }
}
