/**
 The connection object: its table of active synchronizations and the session manager they share.
 */
module Connections {
  import opened Options
  import opened Paths
  import opened Synchronization
  import opened ConnectionSync

  /** The sessions a connection drives; calls counts every call that may touch one. */
  class SessionManager {
    var running: set<Session>
    var calls: nat

    constructor ()
      ensures running == {} && calls == 0
    {
      running := {};
      calls := 0;
    }

    method Start(s: Session)
      modifies this
      ensures running == old(running) + {s} && calls == old(calls) + 1
    {
      running := running + {s};
      calls := calls + 1;
    }

    /** Pausing and terminating both end a session's run. */
    method Pause(s: Session)
      modifies this
      ensures running == old(running) - {s} && calls == old(calls) + 1
    {
      running := running - {s};
      calls := calls + 1;
    }
  }

  class Connection {
    var localRoot: string
    var remoteRoot: string
    var closed: bool
    var synchronizations: map<string, ActiveSync>
    const sessions: SessionManager

    ghost function View(): Conn
      reads this, sessions
    {
      Conn(localRoot, remoteRoot, closed, synchronizations, sessions.running)
    }

    ghost predicate Valid()
      reads this, sessions
    {
      Inv(View())
    }

    constructor (localRoot: string, remoteRoot: string)
      ensures Valid() && fresh(sessions) && View() == Fresh(localRoot, remoteRoot)
    {
      this.localRoot := localRoot;
      this.remoteRoot := remoteRoot;
      closed := false;
      synchronizations := map[];
      sessions := new SessionManager();
    }

    method SetRoots(local: string, remote: string) returns (outcome: Outcome)
      requires Valid()
      modifies this
      ensures Valid() && (View(), outcome) == AfterSetRoots(old(View()), local, remote)
    {
      if |synchronizations| > 0 {
        return Failed;
      }
      if local != "" {
        localRoot := local;
      }
      if remote != "" {
        remoteRoot := remote;
      }
      return Changed;
    }

    /** Pauses an entry's sessions. */
    method PauseEntry(from: string, e: ActiveSync)
      modifies sessions
      ensures sessions.running == old(sessions.running) - SessionsOf(from, e)
      ensures sessions.calls > old(sessions.calls)
    {
      sessions.Pause(Primary(from, e.dest));
      if e.replica.Replicating? {
        sessions.Pause(GitReplica(from, e.dest));
      }
    }

    method PauseAll(syncs: map<string, ActiveSync>)
      modifies sessions
      ensures sessions.running == old(sessions.running) - AllSessions(syncs)
      ensures sessions.calls >= old(sessions.calls)
    {
      var left := syncs.Keys;
      while left != {}
        invariant left <= syncs.Keys
        invariant sessions.running == old(sessions.running) - SessionsUnder(syncs, syncs.Keys - left)
        invariant sessions.calls >= old(sessions.calls)
        decreases |left|
      {
        var from :| from in left;
        PauseEntry(from, syncs[from]);
        SessionsUnderGrows(syncs, syncs.Keys - left, from);
        assert syncs.Keys - (left - {from}) == (syncs.Keys - left) + {from};
        left := left - {from};
      }
      assert syncs.Keys - {} == syncs.Keys;
      AllUnderKeys(syncs);
    }

    method Close()
      requires Valid()
      modifies this, sessions
      ensures Valid() && View() == Closed(old(View()))
      ensures sessions.calls >= old(sessions.calls)
    {
      var syncs := synchronizations;
      synchronizations := map[];
      closed := true;
      PauseAll(syncs);
    }

    /** closing says that Close ran before the lock was taken. */
    method RecordSync(from: string, e: ActiveSync, closing: bool) returns (outcome: Outcome)
      requires Valid()
      requires Canonical(from) && NoOverlap(synchronizations.Keys, from)
      modifies this, sessions
      ensures Valid() && (View(), outcome) == Recorded(old(View()), from, e, closing)
      ensures outcome != Unchanged && sessions.calls >= old(sessions.calls)
    {
      if closing {
        Close();
      }
      if !closed {
        AntichainGrows(synchronizations.Keys, from);
        assert synchronizations[from := e].Keys == synchronizations.Keys + {from};
        synchronizations := synchronizations[from := e];
        return Changed;
      }
      PauseEntry(from, e);
      return Failed;
    }

    method ApplyGitReplicaFlip(i: Intent, existing: ActiveSync, env: Env) returns (outcome: Outcome)
      requires Valid()
      requires i.from in synchronizations && synchronizations[i.from] == existing
      modifies this, sessions
      ensures Valid() && (View(), outcome) == Flipped(old(View()), i, env)
      ensures outcome != Unchanged
    {
      var replica := NoReplica;
      if i.git {
        if !env.live {
          return Failed;
        }
        if env.replica.ReplicaFailed? {
          if env.replica.terminated {
            sessions.Pause(GitReplica(i.from, existing.dest));
          }
          return Failed;
        }
        if env.replica.ReplicaStarted? {
          sessions.Start(GitReplica(i.from, existing.dest));
        }
        replica := ReplicaOf(env.replica);
      } else if existing.replica.Replicating? {
        sessions.Pause(GitReplica(i.from, existing.dest));
      }
      outcome := RecordSync(i.from, existing.(replica := replica), !env.closing.Stays?);
    }

    /** Starts the primary session and records it, then the replica. */
    method CreateSync(i: Intent, env: Env) returns (outcome: Outcome)
      requires Valid() && NoOverlap(synchronizations.Keys, i.from)
      requires IsAbs(i.from) ==> Canonical(i.from)
      modifies this, sessions
      ensures Valid() && (View(), outcome) == Created(old(View()), i, env)
      ensures outcome != Unchanged
    {
      if !env.modesValid || !env.rootMade || !env.live || !IsAbs(i.from) {
        return Failed;
      }
      if env.start.StartFailed? {
        if env.start.terminated {
          sessions.Pause(Primary(i.from, i.to));
        }
        return Failed;
      }
      StartPrimary(i);
      var entry := EntryOf(i);
      outcome := RecordSync(i.from, entry, env.closing.BeforeRecord?);
      if outcome == Failed || !i.git {
        return;
      }
      outcome := AddReplica(i, entry, env);
    }

    method StartPrimary(i: Intent)
      requires Valid()
      modifies sessions
      ensures Valid() && View() == Begun(old(View()), i)
    {
      sessions.Start(Primary(i.from, i.to));
      if i.from in synchronizations && !synchronizations[i.from].replica.NoReplica? && !i.git {
        if synchronizations[i.from].replica.Replicating? {
          sessions.Pause(GitReplica(i.from, synchronizations[i.from].dest));
        }
      }
    }

    method AddReplica(i: Intent, entry: ActiveSync, env: Env) returns (outcome: Outcome)
      requires Valid() && entry == EntryOf(i)
      requires Canonical(i.from) && NoOverlap(synchronizations.Keys, i.from)
      modifies this, sessions
      ensures Valid() && (View(), outcome) == ReplicaAdded(old(View()), i, env)
      ensures outcome != Unchanged
    {
      if env.replica.ReplicaFailed? {
        if env.replica.terminated {
          sessions.Pause(GitReplica(i.from, i.to));
        }
        if env.closing.BetweenRecords? {
          Close();
        }
        return Failed;
      }
      if env.replica.ReplicaStarted? {
        sessions.Start(GitReplica(i.from, i.to));
      }
      outcome := RecordSync(i.from, entry.(replica := ReplicaOf(env.replica)), env.closing.BetweenRecords?);
    }

    /** Whether the active sync of the same source has the intent's modes and includes. */
    method IsCompatible(e: ActiveSync, i: Intent) returns (ok: bool)
      ensures ok <==> Compatible(e, i)
    {
      if !ModesCompatible(e.fileMode, e.dirMode, i.fileMode, i.dirMode) {
        return false;
      }
      ok := IncludesCompatible(e.includes, i.includes);
    }

    /** Establishes a sync. An intent that is already satisfied touches no session. */
    method EstablishSynchronization(intent: Intent, env: Env) returns (outcome: Outcome)
      requires Valid()
      modifies this, sessions
      ensures Valid() && (View(), outcome) == Established(old(View()), intent, env)
      ensures outcome == Unchanged ==> sessions.calls == old(sessions.calls)
    {
      var canonical := CanonicalizeSource(localRoot, intent.from);
      if canonical.Err? {
        return Failed;
      }
      CanonicalResult(localRoot, intent.from);
      var overlap := CheckSyncOverlap(synchronizations.Keys, canonical.value);
      if overlap.Err? {
        return Failed;
      }
      var i := Inherit(synchronizations, intent.(from := canonical.value));
      if i.from in synchronizations {
        var same := IsCompatible(synchronizations[i.from], i);
        if same && synchronizations[i.from].dest == i.to
           && i.git == !synchronizations[i.from].replica.NoReplica? {
          return Unchanged;
        }
      }
      if env.resolved.None? {
        return Failed;
      }
      outcome := EstablishResolved(i.(to := env.resolved.value), env);
    }

    method EstablishResolved(i: Intent, env: Env) returns (outcome: Outcome)
      requires Valid() && NoOverlap(synchronizations.Keys, i.from)
      requires IsAbs(i.from) ==> Canonical(i.from)
      modifies this, sessions
      ensures Valid() && (View(), outcome) == Resolved(old(View()), i, env)
      ensures outcome == Unchanged ==> sessions.calls == old(sessions.calls)
    {
      if i.from in synchronizations {
        var existing := synchronizations[i.from];
        if existing.dest != i.to {
          return Failed;
        }
        var same := IsCompatible(existing, i);
        if same {
          if i.git == !existing.replica.NoReplica? {
            return Unchanged;
          }
          outcome := ApplyGitReplicaFlip(i, existing, env);
          return;
        }
      }
      outcome := CreateSync(i, env);
    }

    /** The active syncs as intents, in any order. */
    method Synchronizations() returns (active: seq<Intent>)
      ensures Lists(active, synchronizations)
    {
      active := [];
      var left := synchronizations.Keys;
      while left != {}
        invariant left <= synchronizations.Keys
        invariant forall a :: a in active ==> Stands(a, synchronizations)
        invariant forall k :: k in synchronizations && k !in left ==> IntentOf(k, synchronizations[k]) in active
        decreases |left|
      {
        var from :| from in left;
        active := active + [IntentOf(from, synchronizations[from])];
        left := left - {from};
      }
    }

    /** Maps a local directory to its remote counterpart. No iteration order matters: every sync whose
        source contains the directory would give this answer. */
    method MatchCwd(cwd: string) returns (r: Option<string>)
      requires Valid()
      ensures RootMatch(localRoot, remoteRoot, cwd).Some? ==> r == RootMatch(localRoot, remoteRoot, cwd)
      ensures RootMatch(localRoot, remoteRoot, cwd).None? ==>
        && (forall k :: k in synchronizations && HasPathPrefix(cwd, k).Some?
              ==> r == Some(JoinPath(synchronizations[k].dest, HasPathPrefix(cwd, k).value)))
        && (r.Some? ==> exists k :: k in synchronizations && HasPathPrefix(cwd, k).Some?)
    {
      if localRoot != "" && remoteRoot != "" {
        var after := HasPathPrefix(cwd, localRoot);
        if after.Some? {
          return Some(JoinPath(remoteRoot, after.value));
        }
      }
      var left := synchronizations.Keys;
      while left != {}
        invariant left <= synchronizations.Keys
        invariant forall k :: k in synchronizations && k !in left ==> HasPathPrefix(cwd, k).None?
        decreases |left|
      {
        var candidate :| candidate in left;
        var after := HasPathPrefix(cwd, candidate);
        if after.Some? {
          forall k | k in synchronizations && HasPathPrefix(cwd, k).Some? ensures k == candidate {
            AtMostOneMatches(synchronizations.Keys, cwd, k, candidate);
          }
          return Some(JoinPath(synchronizations[candidate].dest, after.value));
        }
        left := left - {candidate};
      }
      return None;
    }
  }

  /** An active sync written as the intent it satisfies. */
  function IntentOf(from: string, e: ActiveSync): Intent {
    Intent(from, e.dest, !e.replica.NoReplica?, e.includes, e.fileMode, e.dirMode)
  }

  predicate Stands(a: Intent, syncs: map<string, ActiveSync>) {
    a.from in syncs && a == IntentOf(a.from, syncs[a.from])
  }

  predicate Lists(active: seq<Intent>, syncs: map<string, ActiveSync>) {
    && (forall a :: a in active ==> Stands(a, syncs))
    && (forall k :: k in syncs ==> IntentOf(k, syncs[k]) in active)
  }

  function RootMatch(localRoot: string, remoteRoot: string, cwd: string): Option<string> {
    if localRoot != "" && remoteRoot != "" && HasPathPrefix(cwd, localRoot).Some?
    then Some(JoinPath(remoteRoot, HasPathPrefix(cwd, localRoot).value)) else None
  }

  // ----------------------------------------------------------------------- closing in a loop

  ghost function SessionsUnder(syncs: map<string, ActiveSync>, keys: set<string>): set<Session>
    requires keys <= syncs.Keys
  {
    set k, s | k in keys && s in SessionsOf(k, syncs[k]) :: s
  }

  lemma SessionsUnderGrows(syncs: map<string, ActiveSync>, keys: set<string>, from: string)
    requires keys <= syncs.Keys && from in syncs
    ensures SessionsUnder(syncs, keys + {from}) == SessionsUnder(syncs, keys) + SessionsOf(from, syncs[from])
  {
  }

  lemma AllUnderKeys(syncs: map<string, ActiveSync>)
    ensures SessionsUnder(syncs, syncs.Keys) == AllSessions(syncs)
  {
  }
}
