/**
 Reference counts of the daemons that connections share, when one daemon can supersede another.
 Daemons and the initialize calls that own a reference are numbered; each mutex-protected block of the
 connection manager is one step. An owner is one initialize call together with the connection it
 registers: it holds one reference until it is removed or fails.
 */
module DaemonRefs {
  import opened Options

  datatype Daemon = Daemon(mapKey: string, refCount: int, rekeyed: bool, destroyed: bool)

  /** Merged: has followed its superseded daemon and waits for the superseding one. */
  datatype Phase = Holding | Initializing | Merged | Finished

  datatype Owner = Owner(name: string, daemon: nat, phase: Phase)

  /** all holds every daemon ever made and table the ones in use by key; supersededBy leads from a
      superseded daemon to the one that took its place. */
  datatype Manager = Manager(all: map<nat, Daemon>, table: map<string, nat>, supersededBy: map<nat, nat>,
                             connections: map<string, nat>, owners: map<nat, Owner>, nextId: nat)

  const Empty := Manager(map[], map[], map[], map[], map[], 0)

  // ----------------------------------------------------------------------- the operations

  function WithRefs(m: Manager, d: nat, n: int): Manager
    requires d in m.all
  {
    m.(all := m.all[d := m.all[d].(refCount := n)])
  }

  /** Forgets finished owners whose connection is no longer registered: nobody will release their
      reference. */
  function Swept(m: Manager): Manager {
    m.(owners := WithoutUnregistered(m.connections, m.owners))
  }

  /** Takes a reference to the daemon at a key, creating it if there is none. */
  function Acquired(m: Manager, name: string, key: string): Manager {
    if key in m.table && m.table[key] in m.all then
      var d := m.table[key];
      WithRefs(m, d, m.all[d].refCount + 1).(
        owners := m.owners[m.nextId := Owner(name, d, Holding)], nextId := m.nextId + 1)
    else
      m.(all := m.all[m.nextId := Daemon(key, 1, false, false)],
         table := m.table[key := m.nextId],
         owners := m.owners[m.nextId + 1 := Owner(name, m.nextId, Holding)],
         nextId := m.nextId + 2)
  }

  /** Registers the owner's connection under its name; a refusal leaks the reference. */
  function AfterRegister(m: Manager, id: nat, ok: bool): Manager
    requires id in m.owners
  {
    if ok then
      Swept(m.(connections := m.connections[m.owners[id].name := id],
               owners := m.owners[id := m.owners[id].(phase := Initializing)]))
    else m.(owners := m.owners - {id})
  }

  /** Re-keys a daemon once its host is resolved; if the key is taken it is superseded instead, and
      leaves the table but keeps its old key. */
  function AfterReassign(m: Manager, d: nat, key: string): Manager
    requires d in m.all
  {
    if m.all[d].mapKey == key then
      m.(all := m.all[d := m.all[d].(rekeyed := true)])
    else if key in m.table then
      m.(all := m.all[d := m.all[d].(rekeyed := true)],
         table := m.table - {m.all[d].mapKey},
         supersededBy := m.supersededBy[d := m.table[key]])
    else
      m.(all := m.all[d := m.all[d].(mapKey := key, rekeyed := true)],
         table := (m.table - {m.all[d].mapKey})[key := d])
  }

  /** Moves the owner's reference to the superseding daemon. */
  function Followed(m: Manager, id: nat, target: nat): Manager
    requires id in m.owners && m.owners[id].daemon in m.all && target in m.all
  {
    var from := m.owners[id].daemon;
    var m1 := WithRefs(m, from, m.all[from].refCount - 1);
    WithRefs(m1, target, m1.all[target].refCount + 1).(
      owners := m.owners[id := m.owners[id].(daemon := target, phase := Merged)])
  }

  /** Drops a reference; the last one destroys the daemon and deletes its key from the table. */
  function Released(m: Manager, d: nat): Manager
    requires d in m.all
  {
    var n := m.all[d].refCount - 1;
    if n > 0 then WithRefs(m, d, n)
    else m.(all := m.all[d := m.all[d].(refCount := n, destroyed := true)], table := m.table - {m.all[d].mapKey})
  }

  function AfterFinish(m: Manager, id: nat): Manager
    requires id in m.owners
  {
    Swept(m.(owners := m.owners[id := m.owners[id].(phase := Finished)]))
  }

  /** Unregisters whatever the owner's name stands for and gives up the owner's reference. */
  function Dropped(m: Manager, id: nat): Manager
    requires id in m.owners && m.owners[id].daemon in m.all
  {
    Released(Swept(m.(connections := m.connections - {m.owners[id].name}, owners := m.owners - {id})),
             m.owners[id].daemon)
  }

  // --------------------------------------------------------------------------------- runs

  datatype Event =
    | Acquire(name: string, key: string)
    | Register(id: nat, ok: bool)
    | Reassign(id: nat, key: string)
    | Follow(id: nat)
    | Finish(id: nat)
    | Fail(id: nat)
    | Remove(name: string)

  predicate Ready(m: Manager, id: nat, phase: Phase) {
    id in m.owners && m.owners[id].phase == phase && m.owners[id].daemon in m.all
  }

  predicate Busy(m: Manager, id: nat) {
    Ready(m, id, Initializing) || Ready(m, id, Merged)
  }

  /** No initialize of the name is under way. */
  predicate Quiet(m: Manager, name: string) {
    forall id :: id in m.owners && m.owners[id].name == name ==> m.owners[id].phase.Finished?
  }

  /** The owner whose reference a step releases, for the two that release one. */
  function Releasing(m: Manager, e: Event): (r: Option<nat>)
    ensures r.Some? ==> r.value in m.owners && m.owners[r.value].daemon in m.all
  {
    match e
    case Fail(id) => if Busy(m, id) then Some(id) else None
    case Remove(name) =>
      if name in m.connections && Ready(m, m.connections[name], Finished) && Quiet(m, name)
      then Some(m.connections[name]) else None
    case _ => None
  }

  /** The daemon a follow lands on. */
  function Landing(m: Manager, e: Event): (r: Option<nat>)
    ensures r.Some? ==> e.Follow? && Ready(m, e.id, Initializing) && r.value in m.all
  {
    if e.Follow? && Ready(m, e.id, Initializing) && m.owners[e.id].daemon in m.supersededBy
       && m.supersededBy[m.owners[e.id].daemon] in m.all
    then Some(m.supersededBy[m.owners[e.id].daemon]) else None
  }

  /** Steps that are not enabled change nothing. */
  function Step(m: Manager, e: Event): Manager {
    match e
    case Acquire(name, key) => Acquired(m, name, key)
    case Register(id, ok) => if Ready(m, id, Holding) then AfterRegister(m, id, ok) else m
    case Reassign(id, key) =>
      if Ready(m, id, Initializing) && !m.all[m.owners[id].daemon].rekeyed
      then AfterReassign(m, m.owners[id].daemon, key) else m
    case Follow(id) => if Landing(m, e).Some? then Followed(m, id, Landing(m, e).value) else m
    case Finish(id) => if Busy(m, id) then AfterFinish(m, id) else m
    case Fail(_) => if Releasing(m, e).Some? then Dropped(m, Releasing(m, e).value) else m
    case Remove(_) => if Releasing(m, e).Some? then Dropped(m, Releasing(m, e).value) else m
  }

  function Run(m: Manager, es: seq<Event>): Manager
    decreases |es|
  {
    if es == [] then m else Run(Step(m, es[0]), es[1..])
  }

  // -------------------------------------------------------------------------- the invariant

  type Daemons = map<nat, Daemon>
  type Owners = map<nat, Owner>

  /** The owners that hold a reference to a daemon. */
  ghost function Holders(owners: Owners, d: nat): set<nat> {
    set id | id in owners && owners[id].daemon == d
  }

  ghost predicate Counted(all: Daemons, owners: Owners) {
    forall d :: d in all ==> all[d].refCount >= |Holders(owners, d)|
  }

  /** Numbers are fresh. */
  ghost predicate Below(all: Daemons, owners: Owners, nextId: nat) {
    && (forall d :: d in all ==> d < nextId)
    && (forall id :: id in owners ==> id < nextId)
  }

  /** Every reference leads somewhere. */
  ghost predicate OwnersLinked(all: Daemons, owners: Owners) {
    forall id :: id in owners ==> owners[id].daemon in all
  }

  ghost predicate SupersedesLinked(all: Daemons, supersededBy: map<nat, nat>) {
    forall d :: d in supersededBy ==> d in all && all[d].rekeyed && supersededBy[d] in all
  }

  /** What the table holds is alive, in its own place, and not superseded. */
  ghost predicate TableSound(all: Daemons, table: map<string, nat>, supersededBy: map<nat, nat>) {
    forall k :: k in table ==>
      && table[k] in all && table[k] !in supersededBy
      && all[table[k]].mapKey == k && !all[table[k]].destroyed
  }

  predicate RegisteredUnder(owners: Owners, n: string, id: nat) {
    id in owners && owners[id].name == n && !owners[id].phase.Holding?
  }

  predicate HasName(connections: map<string, nat>, n: string, id: nat) {
    n in connections && connections[n] == id
  }

  /** Every registered connection has its owner, and a finished owner is registered. */
  ghost predicate ConnectionsSound(connections: map<string, nat>, owners: Owners) {
    && (forall n :: n in connections ==> RegisteredUnder(owners, n, connections[n]))
    && (forall id :: id in owners && owners[id].phase.Finished? ==> HasName(connections, owners[id].name, id))
  }

  predicate Early(o: Owner) {
    o.phase.Holding? || o.phase.Initializing?
  }

  /** An owner that has not followed anywhere is on a daemon that was not destroyed. */
  ghost predicate EarlyAlive(all: Daemons, owners: Owners) {
    forall id :: id in owners && Early(owners[id]) ==> owners[id].daemon in all && !all[owners[id].daemon].destroyed
  }

  ghost predicate Inv(m: Manager) {
    && Below(m.all, m.owners, m.nextId)
    && OwnersLinked(m.all, m.owners) && SupersedesLinked(m.all, m.supersededBy)
    && Counted(m.all, m.owners)
    && TableSound(m.all, m.table, m.supersededBy)
    && ConnectionsSound(m.connections, m.owners)
    && EarlyAlive(m.all, m.owners)
  }

  // ------------------------------------------------------------------------- counting holders

  lemma {:induction false} SubsetIsSmaller<T>(a: set<T>, b: set<T>)
    requires a <= b
    ensures |a| <= |b|
    decreases a
  {
    if x :| x in a {
      SubsetIsSmaller(a - {x}, b - {x});
    }
  }

  /** Owners may go or change phase, but not move. */
  ghost predicate Shrinks(a: Owners, b: Owners) {
    forall id :: id in b ==> id in a && a[id].daemon == b[id].daemon && a[id].name == b[id].name
  }

  lemma HoldersShrink(a: Owners, b: Owners, d: nat)
    requires Shrinks(a, b)
    ensures |Holders(b, d)| <= |Holders(a, d)|
  {
    SubsetIsSmaller(Holders(b, d), Holders(a, d));
  }

  lemma HoldersAdd(owners: Owners, id: nat, o: Owner, d: nat)
    requires id !in owners
    ensures |Holders(owners[id := o], d)| == |Holders(owners, d)| + if o.daemon == d then 1 else 0
  {
    if o.daemon == d {
      assert Holders(owners[id := o], d) == Holders(owners, d) + {id};
    } else {
      assert Holders(owners[id := o], d) == Holders(owners, d);
    }
  }

  lemma HoldersDrop(owners: Owners, id: nat, d: nat)
    requires id in owners
    ensures |Holders(owners - {id}, d)| == |Holders(owners, d)| - if owners[id].daemon == d then 1 else 0
  {
    if owners[id].daemon == d {
      assert Holders(owners - {id}, d) == Holders(owners, d) - {id};
    } else {
      assert Holders(owners - {id}, d) == Holders(owners, d);
    }
  }

  lemma HoldersMove(owners: Owners, id: nat, o: Owner, d: nat)
    requires id in owners
    ensures |Holders(owners[id := o], d)|
         == |Holders(owners, d)| - (if owners[id].daemon == d then 1 else 0) + if o.daemon == d then 1 else 0
  {
    HoldersDrop(owners, id, d);
    HoldersAdd(owners - {id}, id, o, d);
    assert (owners - {id})[id := o] == owners[id := o];
  }

  lemma CountedShrinks(all: Daemons, a: Owners, b: Owners)
    requires Counted(all, a) && Shrinks(a, b)
    ensures Counted(all, b)
  {
    forall d | d in all ensures all[d].refCount >= |Holders(b, d)| {
      HoldersShrink(a, b, d);
    }
  }

  /** A reference more, and an owner for it. */
  lemma CountedGrows(all: Daemons, owners: Owners, x: Daemon, id: nat, o: Owner)
    requires Counted(all, owners) && OwnersLinked(all, owners) && id !in owners
    requires x.refCount >= if o.daemon in all then all[o.daemon].refCount + 1 else 1
    ensures Counted(all[o.daemon := x], owners[id := o])
  {
    var all', owners' := all[o.daemon := x], owners[id := o];
    forall d | d in all' ensures all'[d].refCount >= |Holders(owners', d)| {
      HoldersAdd(owners, id, o, d);
      if d !in all {
        assert Holders(owners, d) == {};
      }
    }
  }

  /** A reference moves with its owner. */
  lemma CountedMoves(all: Daemons, all': Daemons, owners: Owners, id: nat, o: Owner)
    requires Counted(all, owners) && id in owners && owners[id].daemon in all && o.daemon in all
    requires all'.Keys == all.Keys
    requires forall d :: d in all ==>
      all'[d].refCount == all[d].refCount - (if d == owners[id].daemon then 1 else 0) + if d == o.daemon then 1 else 0
    ensures Counted(all', owners[id := o])
  {
    forall d | d in all' ensures all'[d].refCount >= |Holders(owners[id := o], d)| {
      HoldersMove(owners, id, o, d);
    }
  }

  /** A reference is given up with its owner; the last one leaves no holder behind. */
  lemma CountedDrops(all: Daemons, a: Owners, b: Owners, id: nat, x: Daemon)
    requires Counted(all, a) && id in a && id !in b && Shrinks(a, b)
    requires a[id].daemon in all && x.refCount == all[a[id].daemon].refCount - 1
    ensures Counted(all[a[id].daemon := x], b)
    ensures x.refCount <= 0 ==> x.refCount == 0 && Holders(b, a[id].daemon) == {}
  {
    CountedShrinks(all, a, b);
    HoldersDrop(a, id, a[id].daemon);
    HoldersShrink(a - {id}, b, a[id].daemon);
  }

  // ---------------------------------------------------------------- every step keeps the parts

  function WithoutUnregistered(connections: map<string, nat>, owners: Owners): Owners {
    map id | id in owners && (!owners[id].phase.Finished? || HasName(connections, owners[id].name, id)) :: owners[id]
  }

  lemma RegisterKeepsConnections(connections: map<string, nat>, owners: Owners, id: nat)
    requires ConnectionsSound(connections, owners) && id in owners
    ensures var o := owners[id].(phase := Initializing);
      var c' := connections[o.name := id];
      ConnectionsSound(c', WithoutUnregistered(c', owners[id := o]))
  {
  }

  lemma FinishKeepsConnections(connections: map<string, nat>, owners: Owners, id: nat)
    requires ConnectionsSound(connections, owners) && id in owners && !owners[id].phase.Holding?
    ensures ConnectionsSound(connections,
                             WithoutUnregistered(connections, owners[id := owners[id].(phase := Finished)]))
  {
  }

  lemma DropKeepsConnections(connections: map<string, nat>, owners: Owners, id: nat)
    requires ConnectionsSound(connections, owners) && id in owners
    ensures var c' := connections - {owners[id].name};
      ConnectionsSound(c', WithoutUnregistered(c', owners - {id}))
  {
  }

  /** The daemons of one are the daemons of the other, up to their reference counts. */
  ghost predicate SameButRefs(a: Daemons, b: Daemons) {
    && a.Keys == b.Keys
    && forall d :: d in a ==> b[d].mapKey == a[d].mapKey && b[d].rekeyed == a[d].rekeyed && b[d].destroyed == a[d].destroyed
  }

  lemma RefsDoNotMatter(a: Daemons, b: Daemons, table: map<string, nat>, supersededBy: map<nat, nat>, owners: Owners)
    requires SameButRefs(a, b) && TableSound(a, table, supersededBy) && SupersedesLinked(a, supersededBy)
    requires OwnersLinked(a, owners) && EarlyAlive(a, owners)
    ensures TableSound(b, table, supersededBy) && SupersedesLinked(b, supersededBy)
    ensures OwnersLinked(b, owners) && EarlyAlive(b, owners)
  {
  }

  lemma NewOwner(all: Daemons, owners: Owners, connections: map<string, nat>, id: nat, o: Owner)
    requires OwnersLinked(all, owners) && EarlyAlive(all, owners) && ConnectionsSound(connections, owners)
    requires id !in owners && o.phase.Holding? && o.daemon in all && !all[o.daemon].destroyed
    ensures OwnersLinked(all, owners[id := o]) && EarlyAlive(all, owners[id := o])
    ensures ConnectionsSound(connections, owners[id := o])
  {
  }

  lemma NewDaemon(all: Daemons, owners: Owners, table: map<string, nat>, supersededBy: map<nat, nat>, d: nat, x: Daemon)
    requires TableSound(all, table, supersededBy) && SupersedesLinked(all, supersededBy)
    requires OwnersLinked(all, owners) && EarlyAlive(all, owners)
    requires d !in all && !x.destroyed
    ensures TableSound(all[d := x], table[x.mapKey := d], supersededBy) && SupersedesLinked(all[d := x], supersededBy)
    ensures OwnersLinked(all[d := x], owners) && EarlyAlive(all[d := x], owners)
  {
  }

  lemma AcquireNumbers(m: Manager, name: string, key: string)
    requires Below(m.all, m.owners, m.nextId)
    ensures Below(Acquired(m, name, key).all, Acquired(m, name, key).owners, Acquired(m, name, key).nextId)
  {
  }

  lemma AcquireCounts(m: Manager, name: string, key: string)
    requires Below(m.all, m.owners, m.nextId) && OwnersLinked(m.all, m.owners) && Counted(m.all, m.owners)
    ensures Counted(Acquired(m, name, key).all, Acquired(m, name, key).owners)
  {
    if key in m.table && m.table[key] in m.all {
      var d := m.table[key];
      CountedGrows(m.all, m.owners, m.all[d].(refCount := m.all[d].refCount + 1), m.nextId, Owner(name, d, Holding));
    } else {
      CountedGrows(m.all, m.owners, Daemon(key, 1, false, false), m.nextId + 1, Owner(name, m.nextId, Holding));
    }
  }

  lemma AcquireHits(m: Manager, name: string, key: string)
    requires Inv(m) && key in m.table
    ensures Inv(Acquired(m, name, key))
  {
    var m', d := Acquired(m, name, key), m.table[key];
    AcquireNumbers(m, name, key);
    AcquireCounts(m, name, key);
    RefsDoNotMatter(m.all, m'.all, m.table, m.supersededBy, m.owners);
    NewOwner(m'.all, m.owners, m.connections, m.nextId, Owner(name, d, Holding));
  }

  lemma AcquireMissLinks(m: Manager, name: string, key: string)
    requires TableSound(m.all, m.table, m.supersededBy) && SupersedesLinked(m.all, m.supersededBy)
    requires OwnersLinked(m.all, m.owners) && EarlyAlive(m.all, m.owners)
    requires ConnectionsSound(m.connections, m.owners)
    requires key !in m.table && m.nextId !in m.all && m.nextId + 1 !in m.owners
    ensures var m' := Acquired(m, name, key);
      && TableSound(m'.all, m'.table, m'.supersededBy) && SupersedesLinked(m'.all, m'.supersededBy)
      && OwnersLinked(m'.all, m'.owners) && EarlyAlive(m'.all, m'.owners)
      && ConnectionsSound(m'.connections, m'.owners)
  {
    var x := Daemon(key, 1, false, false);
    NewDaemon(m.all, m.owners, m.table, m.supersededBy, m.nextId, x);
    NewOwner(m.all[m.nextId := x], m.owners, m.connections, m.nextId + 1, Owner(name, m.nextId, Holding));
  }

  lemma AcquireMisses(m: Manager, name: string, key: string)
    requires Inv(m) && key !in m.table
    ensures Inv(Acquired(m, name, key))
  {
    AcquireNumbers(m, name, key);
    AcquireCounts(m, name, key);
    AcquireMissLinks(m, name, key);
  }

  lemma FewerOwners(all: Daemons, a: Owners, b: Owners)
    requires Counted(all, a) && OwnersLinked(all, a) && EarlyAlive(all, a)
    requires Shrinks(a, b) && forall id :: id in b && Early(b[id]) ==> Early(a[id])
    ensures Counted(all, b) && OwnersLinked(all, b) && EarlyAlive(all, b)
  {
    CountedShrinks(all, a, b);
  }

  lemma RegisterKeepsInv(m: Manager, id: nat, ok: bool)
    requires Inv(m) && Ready(m, id, Holding)
    ensures Inv(AfterRegister(m, id, ok))
  {
    FewerOwners(m.all, m.owners, AfterRegister(m, id, ok).owners);
    if ok {
      RegisterKeepsConnections(m.connections, m.owners, id);
    }
  }

  /** A daemon that was not destroyed or superseded takes a free key. */
  lemma Rekeyed(all: Daemons, table: map<string, nat>, supersededBy: map<nat, nat>, d: nat, key: string)
    requires TableSound(all, table, supersededBy) && d in all && !all[d].destroyed && d !in supersededBy
    requires key !in table
    ensures TableSound(all[d := all[d].(mapKey := key, rekeyed := true)],
                       (table - {all[d].mapKey})[key := d], supersededBy)
  {
  }

  lemma Superseded(all: Daemons, table: map<string, nat>, supersededBy: map<nat, nat>, d: nat, key: string)
    requires TableSound(all, table, supersededBy) && SupersedesLinked(all, supersededBy) && d in all
    requires key in table && key != all[d].mapKey
    ensures var all' := all[d := all[d].(rekeyed := true)];
      && TableSound(all', table - {all[d].mapKey}, supersededBy[d := table[key]])
      && SupersedesLinked(all', supersededBy[d := table[key]])
  {
  }

  lemma OneDaemonChanges(all: Daemons, owners: Owners, supersededBy: map<nat, nat>, d: nat, x: Daemon)
    requires Counted(all, owners) && OwnersLinked(all, owners) && EarlyAlive(all, owners)
    requires SupersedesLinked(all, supersededBy)
    requires d in all && x.refCount == all[d].refCount && x.destroyed == all[d].destroyed && x.rekeyed
    ensures Counted(all[d := x], owners) && OwnersLinked(all[d := x], owners) && EarlyAlive(all[d := x], owners)
    ensures SupersedesLinked(all[d := x], supersededBy)
  {
  }

  lemma SupersedeKeepsInv(m: Manager, d: nat, key: string)
    requires Inv(m) && d in m.all && m.all[d].mapKey != key && key in m.table
    ensures Inv(AfterReassign(m, d, key))
  {
    OneDaemonChanges(m.all, m.owners, m.supersededBy, d, m.all[d].(rekeyed := true));
    Superseded(m.all, m.table, m.supersededBy, d, key);
  }

  lemma RekeyKeepsInv(m: Manager, d: nat, key: string)
    requires Inv(m) && d in m.all && !m.all[d].destroyed && d !in m.supersededBy
    requires m.all[d].mapKey != key && key !in m.table
    ensures Inv(AfterReassign(m, d, key))
  {
    OneDaemonChanges(m.all, m.owners, m.supersededBy, d, m.all[d].(mapKey := key, rekeyed := true));
    Rekeyed(m.all, m.table, m.supersededBy, d, key);
  }

  lemma SameKeyKeepsInv(m: Manager, d: nat)
    requires Inv(m) && d in m.all
    ensures Inv(AfterReassign(m, d, m.all[d].mapKey))
  {
    OneDaemonChanges(m.all, m.owners, m.supersededBy, d, m.all[d].(rekeyed := true));
    assert TableSound(m.all[d := m.all[d].(rekeyed := true)], m.table, m.supersededBy);
  }

  lemma ReassignKeepsInv(m: Manager, id: nat, key: string)
    requires Inv(m) && Ready(m, id, Initializing) && !m.all[m.owners[id].daemon].rekeyed
    ensures Inv(AfterReassign(m, m.owners[id].daemon, key))
  {
    var d := m.owners[id].daemon;
    if m.all[d].mapKey == key {
      SameKeyKeepsInv(m, d);
    } else if key in m.table {
      SupersedeKeepsInv(m, d, key);
    } else {
      assert Early(m.owners[id]);
      RekeyKeepsInv(m, d, key);
    }
  }

  lemma OwnerMoves(all: Daemons, owners: Owners, connections: map<string, nat>, id: nat, o: Owner)
    requires OwnersLinked(all, owners) && EarlyAlive(all, owners) && ConnectionsSound(connections, owners)
    requires id in owners && o.name == owners[id].name && o.phase.Merged? && o.daemon in all
    ensures OwnersLinked(all, owners[id := o]) && EarlyAlive(all, owners[id := o])
    ensures ConnectionsSound(connections, owners[id := o])
  {
  }

  lemma FollowCounts(m: Manager, id: nat, target: nat)
    requires Counted(m.all, m.owners) && id in m.owners && m.owners[id].daemon in m.all && target in m.all
    ensures var m' := Followed(m, id, target);
      Counted(m'.all, m'.owners) && SameButRefs(m.all, m'.all)
  {
    var m' := Followed(m, id, target);
    CountedMoves(m.all, m'.all, m.owners, id, m'.owners[id]);
  }

  lemma FollowKeepsInv(m: Manager, id: nat, target: nat)
    requires Inv(m) && Ready(m, id, Initializing) && target in m.all
    ensures Inv(Followed(m, id, target))
  {
    var m' := Followed(m, id, target);
    FollowCounts(m, id, target);
    RefsDoNotMatter(m.all, m'.all, m.table, m.supersededBy, m.owners);
    OwnerMoves(m'.all, m.owners, m.connections, id, m'.owners[id]);
  }

  lemma FinishKeepsInv(m: Manager, id: nat)
    requires Inv(m) && Busy(m, id)
    ensures Inv(AfterFinish(m, id))
  {
    FewerOwners(m.all, m.owners, AfterFinish(m, id).owners);
    FinishKeepsConnections(m.connections, m.owners, id);
  }

  /** Destroying a daemon nobody holds. */
  lemma LastReference(all: Daemons, owners: Owners, table: map<string, nat>, supersededBy: map<nat, nat>, d: nat, x: Daemon)
    requires TableSound(all, table, supersededBy) && SupersedesLinked(all, supersededBy)
    requires OwnersLinked(all, owners) && EarlyAlive(all, owners)
    requires d in all && x == all[d].(refCount := x.refCount, destroyed := true) && Holders(owners, d) == {}
    ensures TableSound(all[d := x], table - {x.mapKey}, supersededBy) && SupersedesLinked(all[d := x], supersededBy)
    ensures OwnersLinked(all[d := x], owners) && EarlyAlive(all[d := x], owners)
  {
    forall id | id in owners ensures owners[id].daemon != d {
      assert id !in Holders(owners, d);
    }
  }

  /** The owners left once one drops out and its name is unregistered. */
  function OwnersAfterDrop(m: Manager, id: nat): Owners
    requires id in m.owners
  {
    WithoutUnregistered(m.connections - {m.owners[id].name}, m.owners - {id})
  }

  lemma DropCounts(m: Manager, id: nat)
    requires Counted(m.all, m.owners) && id in m.owners && m.owners[id].daemon in m.all
    ensures var m', d := Dropped(m, id), m.owners[id].daemon;
      && m'.owners == OwnersAfterDrop(m, id)
      && Counted(m'.all, m'.owners)
      && (m'.all[d].refCount <= 0 ==> m'.all[d].refCount == 0 && Holders(m'.owners, d) == {})
  {
    var m', d := Dropped(m, id), m.owners[id].daemon;
    assert m'.all == m.all[d := m'.all[d]];
    CountedDrops(m.all, m.owners, m'.owners, id, m'.all[d]);
  }

  ghost predicate LinksSound(m: Manager) {
    && OwnersLinked(m.all, m.owners) && EarlyAlive(m.all, m.owners)
    && TableSound(m.all, m.table, m.supersededBy) && SupersedesLinked(m.all, m.supersededBy)
  }

  lemma ReleaseKeepsLinks(m: Manager, d: nat)
    requires LinksSound(m) && d in m.all
    requires m.all[d].refCount <= 1 ==> Holders(m.owners, d) == {}
    ensures LinksSound(Released(m, d))
  {
    var m' := Released(m, d);
    if m.all[d].refCount > 1 {
      RefsDoNotMatter(m.all, m'.all, m.table, m.supersededBy, m.owners);
    } else {
      LastReference(m.all, m.owners, m.table, m.supersededBy, d, m'.all[d]);
    }
  }

  lemma DropKeepsLinks(m: Manager, id: nat)
    requires Inv(m) && id in m.owners && m.owners[id].daemon in m.all
    ensures LinksSound(Dropped(m, id))
  {
    DropCounts(m, id);
    FewerOwners(m.all, m.owners, OwnersAfterDrop(m, id));
    ReleaseKeepsLinks(Swept(m.(connections := m.connections - {m.owners[id].name}, owners := m.owners - {id})),
                      m.owners[id].daemon);
  }

  lemma DropKeepsInv(m: Manager, id: nat)
    requires Inv(m) && id in m.owners && m.owners[id].daemon in m.all
    ensures Inv(Dropped(m, id))
  {
    DropCounts(m, id);
    DropKeepsLinks(m, id);
    DropKeepsConnections(m.connections, m.owners, id);
  }

  lemma StepKeepsInv(m: Manager, e: Event)
    requires Inv(m)
    ensures Inv(Step(m, e))
  {
    match e
    case Acquire(name, key) => if key in m.table { AcquireHits(m, name, key); } else { AcquireMisses(m, name, key); }
    case Register(id, ok) => if Ready(m, id, Holding) { RegisterKeepsInv(m, id, ok); }
    case Reassign(id, key) =>
      if Ready(m, id, Initializing) && !m.all[m.owners[id].daemon].rekeyed { ReassignKeepsInv(m, id, key); }
    case Follow(id) => if Landing(m, e).Some? { FollowKeepsInv(m, id, Landing(m, e).value); }
    case Finish(id) => if Busy(m, id) { FinishKeepsInv(m, id); }
    case Fail(_) => if Releasing(m, e).Some? { DropKeepsInv(m, Releasing(m, e).value); }
    case Remove(_) => if Releasing(m, e).Some? { DropKeepsInv(m, Releasing(m, e).value); }
  }

  lemma {:induction false} RunKeepsInv(m: Manager, es: seq<Event>)
    requires Inv(m)
    ensures Inv(Run(m, es))
    decreases |es|
  {
    if es != [] {
      StepKeepsInv(m, es[0]);
      RunKeepsInv(Step(m, es[0]), es[1..]);
    }
  }

  // ------------------------------------------------------------------------------ theorems

  /** In every run, each daemon's count covers every initialize call and registered connection on it;
      and the release that destroys a daemon leaves neither behind. */
  lemma ReleaseIsSafe(es: seq<Event>, e: Event, d: nat)
    requires d in Run(Empty, es).all
    ensures var m := Run(Empty, es);
      m.all[d].refCount >= |Holders(m.owners, d)|
    ensures var m, m' := Run(Empty, es), Step(Run(Empty, es), e);
      d in m'.all && (m'.all[d].destroyed && !m.all[d].destroyed ==>
        && m'.all[d].refCount == 0
        && (forall id :: id in m'.owners ==> m'.owners[id].daemon != d)
        && (forall n :: n in m'.connections ==>
              m'.connections[n] in m'.owners && m'.owners[m'.connections[n]].daemon != d))
  {
    RunKeepsInv(Empty, es);
    var m := Run(Empty, es);
    StepKeepsInv(m, e);
    DestroyedHasNoHolder(m, e, d);
  }

  ghost predicate SameFlags(a: Daemons, b: Daemons) {
    forall d :: d in a ==> d in b && b[d].destroyed == a[d].destroyed
  }

  lemma AcquireKeepsFlags(m: Manager, name: string, key: string)
    requires Below(m.all, m.owners, m.nextId)
    ensures SameFlags(m.all, Acquired(m, name, key).all)
  {
  }

  lemma ReassignKeepsFlags(m: Manager, d: nat, key: string)
    requires d in m.all
    ensures SameFlags(m.all, AfterReassign(m, d, key).all)
  {
  }

  lemma FollowKeepsFlags(m: Manager, id: nat, target: nat)
    requires id in m.owners && m.owners[id].daemon in m.all && target in m.all
    ensures SameFlags(m.all, Followed(m, id, target).all)
  {
  }

  /** Only a release destroys a daemon. */
  lemma OnlyReleasesDestroy(m: Manager, e: Event)
    requires Below(m.all, m.owners, m.nextId) && Releasing(m, e).None?
    ensures SameFlags(m.all, Step(m, e).all)
  {
    match e
    case Acquire(name, key) => AcquireKeepsFlags(m, name, key);
    case Reassign(id, key) => if Ready(m, id, Initializing) { ReassignKeepsFlags(m, m.owners[id].daemon, key); }
    case Follow(id) => if Landing(m, e).Some? { FollowKeepsFlags(m, id, Landing(m, e).value); }
    case _ =>
  }

  lemma DroppedHasNoHolder(m: Manager, id: nat)
    requires Counted(m.all, m.owners) && id in m.owners && m.owners[id].daemon in m.all
    ensures var m', d := Dropped(m, id), m.owners[id].daemon;
      && SameFlags(m.all - {d}, m'.all) && d in m'.all
      && (m'.all[d].destroyed && !m.all[d].destroyed ==>
            m'.all[d].refCount == 0 && forall o :: o in m'.owners ==> m'.owners[o].daemon != d)
  {
    var m', d := Dropped(m, id), m.owners[id].daemon;
    DropCounts(m, id);
    if m'.all[d].refCount <= 0 {
      forall o | o in m'.owners ensures m'.owners[o].daemon != d {
        assert o !in Holders(m'.owners, d);
      }
    }
  }

  lemma DestroyedHasNoHolder(m: Manager, e: Event, d: nat)
    requires Inv(m) && d in m.all
    ensures d in Step(m, e).all
    ensures Step(m, e).all[d].destroyed && !m.all[d].destroyed ==>
      Step(m, e).all[d].refCount == 0 && forall id :: id in Step(m, e).owners ==> Step(m, e).owners[id].daemon != d
  {
    if Releasing(m, e).Some? {
      DroppedHasNoHolder(m, Releasing(m, e).value);
      assert d != m.owners[Releasing(m, e).value].daemon ==> d in m.all - {m.owners[Releasing(m, e).value].daemon};
    } else {
      OnlyReleasesDestroy(m, e);
    }
  }

  /** No initialize call or registered connection is on a destroyed daemon. */
  ghost predicate NoDangling(m: Manager) {
    forall id :: id in m.owners && m.owners[id].daemon in m.all ==> !m.all[m.owners[id].daemon].destroyed
  }

  /** Owners stay where they are, or are new on a living daemon. */
  ghost predicate Stays(m: Manager, m': Manager) {
    forall id :: id in m'.owners ==>
      || (id in m.owners && m'.owners[id].daemon == m.owners[id].daemon)
      || (m'.owners[id].daemon in m'.all && !m'.all[m'.owners[id].daemon].destroyed)
  }

  lemma AcquireStays(m: Manager, name: string, key: string)
    requires TableSound(m.all, m.table, m.supersededBy)
    ensures Stays(m, Acquired(m, name, key))
  {
  }

  lemma OthersStay(m: Manager, e: Event)
    requires !e.Acquire? && Landing(m, e).None?
    ensures Stays(m, Step(m, e))
  {
  }

  lemma OnlyFollowsMove(m: Manager, e: Event)
    requires Inv(m) && Landing(m, e).None?
    ensures Stays(m, Step(m, e))
  {
    if e.Acquire? {
      AcquireStays(m, e.name, e.key);
    } else {
      OthersStay(m, e);
    }
  }

  lemma StayingDoesNotDangle(m: Manager, e: Event)
    requires Inv(m) && NoDangling(m) && Landing(m, e).None?
    ensures NoDangling(Step(m, e))
  {
    var m' := Step(m, e);
    OnlyFollowsMove(m, e);
    forall id | id in m'.owners && m'.owners[id].daemon in m'.all ensures !m'.all[m'.owners[id].daemon].destroyed {
      if id in m.owners && m'.owners[id].daemon == m.owners[id].daemon {
        DestroyedHasNoHolder(m, e, m.owners[id].daemon);
      }
    }
  }

  lemma FollowDanglesIff(m: Manager, id: nat, target: nat)
    requires NoDangling(m) && Counted(m.all, m.owners) && Ready(m, id, Initializing) && target in m.all
    ensures NoDangling(Followed(m, id, target)) <==> !m.all[target].destroyed
  {
    var m' := Followed(m, id, target);
    FollowCounts(m, id, target);
    assert m'.owners[id].daemon == target;
  }

  /** A step can put an owner on a destroyed daemon in exactly one way: following a supersede whose
      target was destroyed meanwhile. */
  lemma DanglesIff(m: Manager, e: Event)
    requires Inv(m) && NoDangling(m)
    ensures NoDangling(Step(m, e)) <==> !(Landing(m, e).Some? && m.all[Landing(m, e).value].destroyed)
  {
    if Landing(m, e).Some? {
      FollowDanglesIff(m, e.id, Landing(m, e).value);
    } else {
      StayingDoesNotDangle(m, e);
    }
  }

  /** In no state of the run is an owner on a destroyed daemon. */
  ghost predicate NeverDangling(m: Manager, es: seq<Event>)
    decreases |es|
  {
    NoDangling(m) && (es != [] ==> NeverDangling(Step(m, es[0]), es[1..]))
  }

  /** No step of the run follows to a daemon already destroyed. */
  predicate FollowsLiving(m: Manager, es: seq<Event>)
    decreases |es|
  {
    es != [] ==>
      && (Landing(m, es[0]).Some? ==> !m.all[Landing(m, es[0]).value].destroyed)
      && FollowsLiving(Step(m, es[0]), es[1..])
  }

  lemma {:induction false} DanglingFrom(m: Manager, es: seq<Event>)
    requires Inv(m) && NoDangling(m)
    ensures NeverDangling(m, es) <==> FollowsLiving(m, es)
    decreases |es|
  {
    if es != [] {
      DanglesIff(m, es[0]);
      StepKeepsInv(m, es[0]);
      if NoDangling(Step(m, es[0])) {
        DanglingFrom(Step(m, es[0]), es[1..]);
      }
    }
  }

  /** Over whole runs: no initialize call or registered connection is ever on a destroyed daemon,
      exactly when no follow lands on a daemon that was destroyed meanwhile. */
  lemma RunDanglesIff(es: seq<Event>)
    ensures NeverDangling(Empty, es) <==> FollowsLiving(Empty, es)
  {
    DanglingFrom(Empty, es);
  }

  lemma {:induction false} RunAppend(m: Manager, a: seq<Event>, b: seq<Event>)
    ensures Run(m, a + b) == Run(Run(m, a), b)
    decreases |a|
  {
    if a == [] {
      assert a + b == b;
    } else {
      assert (a + b)[1..] == a[1..] + b;
      RunAppend(Step(m, a[0]), a[1..], b);
    }
  }

  lemma RunTwo(m: Manager, a: Event, b: Event)
    ensures Run(m, [a, b]) == Step(Step(m, a), b)
  {
    assert [a, b][1..] == [b] && [b][1..] == [];
    assert Run(m, [a, b]) == Run(Step(m, a), [b]);
  }

  lemma RunFour(m: Manager, a: Event, b: Event, c: Event, d: Event)
    ensures Run(m, [a, b, c, d]) == Step(Step(Step(Step(m, a), b), c), d)
  {
    assert [a, b, c, d] == [a, b] + [c, d];
    RunAppend(m, [a, b], [c, d]);
    RunTwo(m, a, b);
    RunTwo(Run(m, [a, b]), c, d);
  }

  /** Connections a and b initializing on the daemons at x and y. */
  const TwoConnections := Manager(
    map[0 := Daemon("x", 1, false, false), 2 := Daemon("y", 1, false, false)],
    map["x" := 0, "y" := 2], map[], map["a" := 1, "b" := 3],
    map[1 := Owner("a", 0, Initializing), 3 := Owner("b", 2, Initializing)], 4)

  const Opening := [Acquire("a", "x"), Acquire("b", "y"), Register(1, true), Register(3, true)]

  const TwoHolding := TwoConnections.(
    connections := map[], owners := map[1 := Owner("a", 0, Holding), 3 := Owner("b", 2, Holding)])

  lemma AcquireSteps()
    ensures Step(Step(Empty, Acquire("a", "x")), Acquire("b", "y")) == TwoHolding
  {
    var m := Step(Step(Empty, Acquire("a", "x")), Acquire("b", "y"));
    assert m.owners == TwoHolding.owners && m.all == TwoHolding.all && m.table == TwoHolding.table;
  }

  const OneRegistered := TwoHolding.(
    connections := map["a" := 1], owners := map[1 := Owner("a", 0, Initializing), 3 := Owner("b", 2, Holding)])

  lemma FirstRegisters()
    ensures Step(TwoHolding, Register(1, true)) == OneRegistered
  {
    assert Step(TwoHolding, Register(1, true)).owners == OneRegistered.owners;
  }

  lemma SecondRegisters()
    ensures Step(OneRegistered, Register(3, true)) == TwoConnections
  {
    var m := Step(OneRegistered, Register(3, true));
    assert m.owners == TwoConnections.owners && m.connections == TwoConnections.connections;
  }

  lemma OpeningRun()
    ensures Run(Empty, Opening) == TwoConnections
  {
    AcquireSteps();
    FirstRegisters();
    SecondRegisters();
    RunFour(Empty, Acquire("a", "x"), Acquire("b", "y"), Register(1, true), Register(3, true));
  }

  /** The daemon at x turned out to be the one at y. */
  const Merging := TwoConnections.(
    all := map[0 := Daemon("x", 1, true, false), 2 := Daemon("y", 1, false, false)],
    table := map["y" := 2], supersededBy := map[0 := 2])

  lemma MergingStep()
    ensures Step(TwoConnections, Reassign(1, "y")) == Merging
  {
    var m := Step(TwoConnections, Reassign(1, "y"));
    assert m.all == Merging.all && m.table == Merging.table && m.supersededBy == Merging.supersededBy;
  }

  const BothSettled := Merging.(owners := map[1 := Owner("a", 0, Initializing), 3 := Owner("b", 2, Finished)])

  lemma FinishStep()
    ensures Step(Merging, Finish(3)) == BothSettled
  {
    assert Step(Merging, Finish(3)).owners == BothSettled.owners;
  }

  const TargetGone := Merging.(
    all := map[0 := Daemon("x", 1, true, false), 2 := Daemon("y", 0, false, true)], table := map[],
    connections := map["a" := 1], owners := map[1 := Owner("a", 0, Initializing)])

  const Unregistered := BothSettled.(connections := map["a" := 1], owners := map[1 := Owner("a", 0, Initializing)])

  lemma OneOwnerLeft()
    ensures BothSettled.owners - {3} == Unregistered.owners && BothSettled.connections - {"b"} == Unregistered.connections
  {
  }

  lemma NothingToSweep()
    ensures WithoutUnregistered(Unregistered.connections, Unregistered.owners) == Unregistered.owners
  {
  }

  lemma UnregisterStep()
    ensures Swept(BothSettled.(connections := BothSettled.connections - {"b"}, owners := BothSettled.owners - {3}))
         == Unregistered
  {
    OneOwnerLeft();
    NothingToSweep();
  }

  lemma RemoveStep()
    ensures Step(BothSettled, Remove("b")) == TargetGone
  {
    assert Releasing(BothSettled, Remove("b")) == Some(3);
    UnregisterStep();
    LastReferenceStep();
  }

  lemma LastReferenceStep()
    ensures Released(Unregistered, 2) == TargetGone
  {
    var m := Released(Unregistered, 2);
    assert m.table == TargetGone.table;
    assert m.all == TargetGone.all;
  }

  lemma FollowStep()
    ensures var m := Step(TargetGone, Follow(1));
      && m.connections == map["a" := 1] && m.owners == map[1 := Owner("a", 2, Merged)]
      && 2 in m.all && m.all[2].destroyed
  {
    assert Landing(TargetGone, Follow(1)) == Some(2);
  }

  /** It does happen: a connection is left registered on a daemon that was destroyed between the
      supersede and the follow. */
  lemma FollowLandsOnDestroyed()
    ensures var m := Run(Empty, Opening + [Reassign(1, "y"), Finish(3), Remove("b"), Follow(1)]);
      && m.connections == map["a" := 1] && m.owners == map[1 := Owner("a", 2, Merged)]
      && 2 in m.all && m.all[2].destroyed
  {
    OpeningRun();
    var rest := [Reassign(1, "y"), Finish(3), Remove("b"), Follow(1)];
    RunAppend(Empty, Opening, rest);
    assert Run(TwoConnections, rest) == Step(TargetGone, Follow(1)) by {
      MergingStep();
      FinishStep();
      RemoveStep();
      RunFour(TwoConnections, Reassign(1, "y"), Finish(3), Remove("b"), Follow(1));
    }
    FollowStep();
  }

  // ------------------------------------------------------------------- one daemon for each key

  /** Every daemon in use is in the table under its key, so no key has two. */
  ghost predicate Indexed(m: Manager) {
    forall d :: d in m.all && !m.all[d].destroyed && d !in m.supersededBy ==> HasName(m.table, m.all[d].mapKey, d)
  }

  /** The last reference to a daemon that has lost its key to another. */
  predicate StaleRelease(m: Manager, e: Event) {
    && Releasing(m, e).Some?
    && var d := m.owners[Releasing(m, e).value].daemon;
       m.all[d].refCount <= 1 && m.all[d].mapKey in m.table && m.table[m.all[d].mapKey] != d
  }

  lemma ReleasedIndexedIff(m: Manager, d: nat)
    requires TableSound(m.all, m.table, m.supersededBy) && Indexed(m) && d in m.all
    ensures Indexed(Released(m, d))
       <==> !(m.all[d].refCount <= 1 && m.all[d].mapKey in m.table && m.table[m.all[d].mapKey] != d)
  {
    var m', key := Released(m, d), m.all[d].mapKey;
    if m.all[d].refCount <= 1 && key in m.table && m.table[key] != d {
      var other := m.table[key];
      assert other in m'.all && !m'.all[other].destroyed && other !in m'.supersededBy && key !in m'.table;
    }
  }

  lemma DroppedIndexedIff(m: Manager, e: Event)
    requires Inv(m) && Indexed(m) && Releasing(m, e).Some?
    ensures Indexed(Step(m, e)) <==> !StaleRelease(m, e)
  {
    var id := Releasing(m, e).value;
    var m1 := Swept(m.(connections := m.connections - {m.owners[id].name}, owners := m.owners - {id}));
    ReleasedIndexedIff(m1, m.owners[id].daemon);
  }

  lemma AcquireKeepsIndexed(m: Manager, name: string, key: string)
    requires TableSound(m.all, m.table, m.supersededBy) && SupersedesLinked(m.all, m.supersededBy)
    requires Below(m.all, m.owners, m.nextId) && Indexed(m)
    ensures Indexed(Acquired(m, name, key))
  {
  }

  lemma ReassignKeepsIndexed(m: Manager, d: nat, key: string)
    requires TableSound(m.all, m.table, m.supersededBy) && Indexed(m)
    requires d in m.all && !m.all[d].destroyed && d !in m.supersededBy
    ensures Indexed(AfterReassign(m, d, key))
  {
  }

  /** Two daemons never serve one key, exactly as long as no release hits a daemon that has lost its
      key to another: it would delete the other's entry. */
  lemma IndexedIff(m: Manager, e: Event)
    requires Inv(m) && Indexed(m)
    ensures Indexed(Step(m, e)) <==> !StaleRelease(m, e)
  {
    match e
    case Acquire(name, key) => AcquireKeepsIndexed(m, name, key);
    case Reassign(id, key) =>
      if Ready(m, id, Initializing) && !m.all[m.owners[id].daemon].rekeyed {
        assert Early(m.owners[id]);
        ReassignKeepsIndexed(m, m.owners[id].daemon, key);
      }
    case Follow(id) => if Landing(m, e).Some? { FollowCounts(m, id, Landing(m, e).value); }
    case Register(_, _) =>
    case Finish(_) =>
    case Fail(_) => if Releasing(m, e).Some? { DroppedIndexedIff(m, e); }
    case Remove(_) => if Releasing(m, e).Some? { DroppedIndexedIff(m, e); }
  }

  ghost predicate AlwaysIndexed(m: Manager, es: seq<Event>)
    decreases |es|
  {
    Indexed(m) && (es != [] ==> AlwaysIndexed(Step(m, es[0]), es[1..]))
  }

  predicate NeverStale(m: Manager, es: seq<Event>)
    decreases |es|
  {
    es != [] ==> !StaleRelease(m, es[0]) && NeverStale(Step(m, es[0]), es[1..])
  }

  lemma {:induction false} IndexedFrom(m: Manager, es: seq<Event>)
    requires Inv(m) && Indexed(m)
    ensures AlwaysIndexed(m, es) <==> NeverStale(m, es)
    decreases |es|
  {
    if es != [] {
      IndexedIff(m, es[0]);
      StepKeepsInv(m, es[0]);
      if Indexed(Step(m, es[0])) {
        IndexedFrom(Step(m, es[0]), es[1..]);
      }
    }
  }

  /** Over whole runs: every daemon in use stays in the table under its key, so that no key is ever
      served by two, exactly when no last release hits a daemon that has lost its key to another. */
  lemma RunIndexedIff(es: seq<Event>)
    ensures AlwaysIndexed(Empty, es) <==> NeverStale(Empty, es)
  {
    IndexedFrom(Empty, es);
  }

  /** The daemon at x was superseded, and another took its key. */
  const Reused := Merging.(
    all := map[0 := Daemon("x", 1, true, false), 2 := Daemon("y", 1, false, false), 4 := Daemon("x", 1, false, false)],
    table := map["x" := 4, "y" := 2],
    owners := map[1 := Owner("a", 0, Initializing), 3 := Owner("b", 2, Initializing), 5 := Owner("c", 4, Holding)],
    nextId := 6)

  lemma ReuseStep()
    ensures Step(Merging, Acquire("c", "x")) == Reused
  {
    var m := Step(Merging, Acquire("c", "x"));
    assert m.all == Reused.all && m.table == Reused.table && m.owners == Reused.owners;
  }

  lemma StaleStep()
    ensures
      var m := Step(Reused, Fail(1));
      && StaleRelease(Reused, Fail(1))
      && m.table == map["y" := 2] && m.nextId == 6 && m.supersededBy == map[0 := 2]
      && 4 in m.all && m.all[4] == Daemon("x", 1, false, false)
  {
    assert Releasing(Reused, Fail(1)) == Some(1);
    assert Reused.table - {"x"} == map["y" := 2];
  }

  /** It does happen: giving up on the superseded daemon deletes the entry of the one that took its
      key, and the next connection to that host gets a second daemon. */
  lemma StaleReleaseSplitsKey()
    ensures var m := Run(Empty, Opening + [Reassign(1, "y"), Acquire("c", "x"), Fail(1), Acquire("d", "x")]);
      && 4 in m.all && 6 in m.all && m.all[4].mapKey == m.all[6].mapKey == "x"
      && !m.all[4].destroyed && !m.all[6].destroyed
      && 4 !in m.supersededBy && 6 !in m.supersededBy
  {
    OpeningRun();
    var rest := [Reassign(1, "y"), Acquire("c", "x"), Fail(1), Acquire("d", "x")];
    RunAppend(Empty, Opening, rest);
    assert Run(TwoConnections, rest) == Step(Step(Reused, Fail(1)), Acquire("d", "x")) by {
      MergingStep();
      ReuseStep();
      RunFour(TwoConnections, Reassign(1, "y"), Acquire("c", "x"), Fail(1), Acquire("d", "x"));
    }
    StaleStep();
    SplitStep(Step(Reused, Fail(1)));
  }

  lemma SplitStep(m: Manager)
    requires m.table == map["y" := 2] && m.nextId == 6 && m.supersededBy == map[0 := 2]
    requires 4 in m.all && m.all[4] == Daemon("x", 1, false, false)
    ensures
      var m' := Step(m, Acquire("d", "x"));
      && 4 in m'.all && 6 in m'.all && m'.all[4].mapKey == m'.all[6].mapKey == "x"
      && !m'.all[4].destroyed && !m'.all[6].destroyed
      && 4 !in m'.supersededBy && 6 !in m'.supersededBy
  {
  }

  // ------------------------------------------------------- removing during an initialize

  /** A removal while the initialize of the same name is under way: the registered connection's
      reference is released, but the call goes on and counts on it. */
  function HastilyRemoved(m: Manager, name: string): Manager
    requires name in m.connections && Busy(m, m.connections[name])
  {
    Released(m.(connections := m.connections - {name}), m.owners[m.connections[name]].daemon)
  }

  /** Removing a name at any time. */
  function Removed(m: Manager, name: string): Manager {
    if name !in m.connections then m
    else if Busy(m, m.connections[name]) then HastilyRemoved(m, name)
    else if Ready(m, m.connections[name], Finished) then Dropped(m, m.connections[name])
    else m
  }

  /** Such a removal keeps the counts honest exactly when some other reference to the daemon had been
      leaked; otherwise one more release will destroy the daemon under somebody, and if the connection
      was alone on its daemon this one does. */
  lemma HastyRemovalCountsIff(m: Manager, name: string)
    requires Inv(m) && name in m.connections && Busy(m, m.connections[name])
    ensures
      var m', d := HastilyRemoved(m, name), m.owners[m.connections[name]].daemon;
      && (Counted(m'.all, m'.owners) <==> m.all[d].refCount > |Holders(m.owners, d)|)
      && m.connections[name] in m'.owners && m'.owners[m.connections[name]].daemon == d
      && (m.all[d].refCount == 1 ==> m'.all[d].destroyed)
  {
    var m', d := HastilyRemoved(m, name), m.owners[m.connections[name]].daemon;
    assert m'.owners == m.owners && m'.all == m.all[d := m'.all[d]];
    assert m'.all[d].refCount == m.all[d].refCount - 1;
  }
}
