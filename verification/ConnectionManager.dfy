/**
 The connection manager object: its maps of connections and daemons, and the fields of the daemons it
 counts references to. Daemons and connections are named by number, so that a pointer to one is its
 number.
 */
module ConnectionManagers {
  import opened DaemonRefs

  class ConnectionManager {
    var all: map<nat, Daemon>
    var daemons: map<string, nat>
    var supersededBy: map<nat, nat>
    var connections: map<string, nat>
    var owners: map<nat, Owner>
    var nextId: nat

    ghost function View(): Manager
      reads this
    {
      Manager(all, daemons, supersededBy, connections, owners, nextId)
    }

    /** The object is in a state that the steps reach, so what holds of every run holds of it. */
    ghost predicate Valid()
      reads this
    {
      Reachable(View())
    }

    constructor ()
      ensures Valid() && View() == Empty
    {
      all, daemons, supersededBy, connections, owners, nextId := map[], map[], map[], map[], map[], 0;
      new;
      assert Run(Empty, []) == Empty;
    }

    /** The daemon at a key, with one reference more. */
    method ShareDaemon(key: string) returns (d: nat)
      requires key in daemons ==> daemons[key] in all
      modifies this`all, this`daemons, this`nextId
      ensures d == if key in old(daemons) then old(daemons[key]) else old(nextId)
      ensures daemons == old(daemons)[key := d]
      ensures nextId == if key in old(daemons) then old(nextId) else old(nextId) + 1
      ensures all == old(all)[d := if key in old(daemons) then old(all[d].(refCount := all[d].refCount + 1))
                                   else Daemon(key, 1, false, false)]
    {
      if key in daemons {
        d := daemons[key];
        all := all[d := all[d].(refCount := all[d].refCount + 1)];
        assert daemons == daemons[key := d];
        return;
      }
      d := nextId;
      nextId := nextId + 1;
      all := all[d := Daemon(key, 1, false, false)];
      daemons := daemons[key := d];
    }

    /** Returns the owner number of the reference taken. */
    method GetOrCreateDaemon(name: string, key: string) returns (id: nat)
      requires Valid()
      modifies this
      ensures Valid() && View() == Acquired(old(View()), name, key)
      ensures id !in old(owners) && id in owners && owners[id].name == name
      ensures HasName(daemons, key, owners[id].daemon)
    {
      ghost var m := View();
      EntriesAreSound(m, key);
      AcquireReaches(m, name, key);
      var d := ShareDaemon(key);
      AcquiredByParts(m, name, key, all, daemons);
      id := nextId;
      nextId := nextId + 1;
      owners := owners[id := Owner(name, d, Holding)];
    }

    /** overlaps says whether the local root overlaps that of another connection. */
    method CreateConnection(id: nat, overlaps: bool) returns (ok: bool)
      requires Valid() && Ready(View(), id, Holding)
      modifies this
      ensures Valid() && View() == AfterRegister(old(View()), id, !overlaps) && ok == !overlaps
      ensures ok ==> HasName(connections, old(owners[id].name), id)
    {
      StepReaches(View(), Register(id, !overlaps));
      if overlaps {
        owners := owners - {id};
        return false;
      }
      connections := connections[owners[id].name := id];
      owners := owners[id := owners[id].(phase := Initializing)];
      owners := WithoutUnregistered(connections, owners);
      return true;
    }

    /** Returns the daemon that serves the resolved key. */
    method ReassignDaemon(id: nat, key: string) returns (d: nat)
      requires Valid() && Ready(View(), id, Initializing) && !all[owners[id].daemon].rekeyed
      modifies this
      ensures Valid() && View() == AfterReassign(old(View()), old(owners[id].daemon), key)
      ensures d in all && all[d].mapKey == key
      ensures d != old(owners[id].daemon) ==> HasName(old(daemons), key, d)
    {
      EntriesAreSound(View(), key);
      ReassignReaches(View(), id, key);
      d := owners[id].daemon;
      var oldKey := all[d].mapKey;
      if oldKey == key {
        all := all[d := all[d].(rekeyed := true)];
        return;
      }
      if key in daemons {
        var existing := daemons[key];
        all := all[d := all[d].(rekeyed := true)];
        daemons := daemons - {oldKey};
        supersededBy := supersededBy[d := existing];
        return existing;
      }
      daemons := daemons - {oldKey};
      all := all[d := all[d].(mapKey := key, rekeyed := true)];
      daemons := daemons[key := d];
    }

    /** Moves the reference and points the connection at the superseding daemon. */
    method FollowSupersede(id: nat)
      requires Valid() && Landing(View(), Follow(id)).Some?
      modifies this
      ensures Valid() && View() == Followed(old(View()), id, old(supersededBy[owners[id].daemon]))
    {
      StepReaches(View(), Follow(id));
      var from := owners[id].daemon;
      var target := supersededBy[from];
      all := all[from := all[from].(refCount := all[from].refCount - 1)];
      all := all[target := all[target].(refCount := all[target].refCount + 1)];
      owners := owners[id := owners[id].(daemon := target, phase := Merged)];
    }

    method ReleaseDaemon(d: nat)
      requires d in all
      modifies this
      ensures View() == Released(old(View()), d)
    {
      var n := all[d].refCount - 1;
      all := all[d := all[d].(refCount := n)];
      if n > 0 {
        return;
      }
      daemons := daemons - {all[d].mapKey};
      all := all[d := all[d].(destroyed := true)];
    }

    /** The tail of a failed initialize that cleans up after itself. */
    method Abandon(id: nat)
      requires Valid() && Busy(View(), id)
      modifies this
      ensures Valid() && View() == Dropped(old(View()), id)
    {
      StepReaches(View(), Fail(id));
      var d := owners[id].daemon;
      connections := connections - {owners[id].name};
      owners := WithoutUnregistered(connections, owners - {id});
      ReleaseDaemon(d);
    }

    /** Removes a connection and releases its reference; an unknown name is an error. While the name is
        being initialized that reference is the one its call still counts on. */
    method RemoveConnection(name: string) returns (found: bool)
      requires Valid()
      modifies this
      ensures found <==> name in old(connections)
      ensures name !in connections
      ensures old(Quiet(View(), name)) ==> Valid() && View() == Step(old(View()), Remove(name))
      ensures View() == Removed(old(View()), name)
    {
      RegistrationsAreSound(View(), name);
      StepReaches(View(), Remove(name));
      if name !in connections {
        return false;
      }
      var id := connections[name];
      var d := owners[id].daemon;
      connections := connections - {name};
      if owners[id].phase.Finished? {
        owners := WithoutUnregistered(connections, owners - {id});
      }
      ReleaseDaemon(d);
      return true;
    }
  }

  /** Taking a reference, put together from what becomes of the daemons and of the table. */
  lemma AcquiredByParts(m: Manager, name: string, key: string, all: Daemons, table: map<string, nat>)
    requires key in m.table ==> m.table[key] in m.all
    requires
      var d := if key in m.table then m.table[key] else m.nextId;
      && table == m.table[key := d]
      && all == m.all[d := if key in m.table then m.all[d].(refCount := m.all[d].refCount + 1)
                           else Daemon(key, 1, false, false)]
    ensures
      var d := if key in m.table then m.table[key] else m.nextId;
      var id := if key in m.table then m.nextId else m.nextId + 1;
      Acquired(m, name, key)
        == m.(all := all, table := table, owners := m.owners[id := Owner(name, d, Holding)], nextId := id + 1)
  {
    if key in m.table {
      assert m.table[key := m.table[key]] == m.table;
    }
  }

  ghost predicate Reachable(m: Manager) {
    exists es :: Run(Empty, es) == m
  }

  lemma Reached(m: Manager)
    requires Reachable(m)
    ensures Inv(m)
  {
    var es :| Run(Empty, es) == m;
    RunKeepsInv(Empty, es);
  }

  lemma EntriesAreSound(m: Manager, key: string)
    requires Reachable(m)
    ensures key in m.table ==> m.table[key] in m.all && m.all[m.table[key]].mapKey == key
    ensures m.nextId !in m.owners && m.nextId + 1 !in m.owners
  {
    Reached(m);
  }

  lemma RegistrationsAreSound(m: Manager, name: string)
    requires Reachable(m)
    ensures name in m.connections ==>
              var id := m.connections[name];
              (Busy(m, id) || Ready(m, id, Finished)) && m.owners[id].name == name
  {
    Reached(m);
    if name in m.connections {
      assert RegisteredUnder(m.owners, name, m.connections[name]);
    }
  }

  lemma StepReaches(m: Manager, e: Event)
    requires Reachable(m)
    ensures Reachable(Step(m, e))
  {
    var es :| Run(Empty, es) == m;
    RunAppend(Empty, es, [e]);
    assert [e][1..] == [];
    assert Run(Empty, es + [e]) == Step(m, e);
  }

  lemma AcquireReaches(m: Manager, name: string, key: string)
    requires Reachable(m)
    ensures Reachable(Acquired(m, name, key))
  {
    StepReaches(m, Acquire(name, key));
  }

  lemma ReassignReaches(m: Manager, id: nat, key: string)
    requires Reachable(m) && Ready(m, id, Initializing) && !m.all[m.owners[id].daemon].rekeyed
    ensures Reachable(AfterReassign(m, m.owners[id].daemon, key))
  {
    StepReaches(m, Reassign(id, key));
  }
}
