/**
 The synchronizations of one connection: establishing them, flipping their .git replica, closing,
 and mapping local directories through them. Remote commands and the session manager are opaque:
 their answers come in as an Env value. A Close that runs while a sync is being established (it does
 not wait for the sync lock) is part of that value too.
 */
module ConnectionSync {
  import opened Options
  import opened Paths
  import opened Synchronization

  // ---------------------------------------------------------------------------- the state

  datatype Replica = NoReplica | Skipped | Replicating

  datatype ActiveSync = ActiveSync(dest: string, replica: Replica, fileMode: string, dirMode: string,
                                   includes: seq<string>)

  datatype Session = Primary(from: string, dest: string) | GitReplica(from: string, dest: string)

  /** One connection, and the sessions it started and has not paused. */
  datatype Conn = Conn(localRoot: string, remoteRoot: string, closed: bool, syncs: map<string, ActiveSync>,
                       running: set<Session>)

  datatype Start = Started | StartFailed(terminated: bool)

  /** A replica whose configuration went stale is terminated before it is created anew, which may then
      fail. */
  datatype ReplicaAnswer = ReplicaStarted | ReplicaSkipped | ReplicaFailed(terminated: bool)

  datatype Closing = Stays | BeforeRecord | BetweenRecords

  /** What the outside answers during one establishment. */
  datatype Env = Env(resolved: Option<string>, modesValid: bool, rootMade: bool, live: bool, start: Start,
                     replica: ReplicaAnswer, closing: Closing)

  datatype Outcome = Unchanged | Changed | Failed

  // ----------------------------------------------------------------------- the operations

  /** The sessions an entry's close functions pause. */
  function SessionsOf(from: string, e: ActiveSync): set<Session> {
    {Primary(from, e.dest)} + if e.replica.Replicating? then {GitReplica(from, e.dest)} else {}
  }

  function AllSessions(syncs: map<string, ActiveSync>): set<Session> {
    set k, s | k in syncs && s in SessionsOf(k, syncs[k]) :: s
  }

  function Closed(c: Conn): Conn {
    c.(closed := true, syncs := map[], running := c.running - AllSessions(c.syncs))
  }

  function AfterSetRoots(c: Conn, localRoot: string, remoteRoot: string): (Conn, Outcome) {
    if c.syncs != map[] then (c, Failed)
    else (c.(localRoot := if localRoot != "" then localRoot else c.localRoot,
             remoteRoot := if remoteRoot != "" then remoteRoot else c.remoteRoot), Changed)
  }

  /** Stores an entry, unless the connection was closed meanwhile: then its sessions are paused. */
  function Recorded(c: Conn, from: string, e: ActiveSync, closing: bool): (Conn, Outcome) {
    var c1 := if closing then Closed(c) else c;
    if c1.closed then (c1.(running := c1.running - SessionsOf(from, e)), Failed)
    else (c1.(syncs := c1.syncs[from := e]), Changed)
  }

  function ReplicaOf(answer: ReplicaAnswer): Replica {
    if answer.ReplicaStarted? then Replicating else Skipped
  }

  /** The sessions after a replica was asked for. */
  function WithReplica(c: Conn, from: string, dest: string, answer: ReplicaAnswer): Conn {
    match answer
    case ReplicaStarted => c.(running := c.running + {GitReplica(from, dest)})
    case ReplicaSkipped => c
    case ReplicaFailed(terminated) => if terminated then c.(running := c.running - {GitReplica(from, dest)}) else c
  }

  function WithoutReplica(c: Conn, from: string, e: ActiveSync): Conn {
    c.(running := if e.replica.Replicating? then c.running - {GitReplica(from, e.dest)} else c.running)
  }

  /** Only the .git replica is started or paused. */
  function Flipped(c: Conn, i: Intent, env: Env): (Conn, Outcome)
    requires i.from in c.syncs
  {
    var e := c.syncs[i.from];
    if i.git then
      if !env.live then (c, Failed)
      else if env.replica.ReplicaFailed? then (WithReplica(c, i.from, e.dest, env.replica), Failed)
      else Recorded(WithReplica(c, i.from, e.dest, env.replica), i.from,
                    e.(replica := ReplicaOf(env.replica)), !env.closing.Stays?)
    else
      Recorded(WithoutReplica(c, i.from, e), i.from, e.(replica := NoReplica), !env.closing.Stays?)
  }

  function EntryOf(i: Intent): ActiveSync {
    ActiveSync(i.to, NoReplica, i.fileMode, i.dirMode, i.includes)
  }

  /** The primary session was started; the replica of the entry it replaces is paused if it is no
      longer wanted. */
  function Begun(c: Conn, i: Intent): Conn {
    var c1 := c.(running := c.running + {Primary(i.from, i.to)});
    if i.from in c.syncs && !c.syncs[i.from].replica.NoReplica? && !i.git
    then WithoutReplica(c1, i.from, c.syncs[i.from]) else c1
  }

  /** The primary session is started and recorded, then the replica. */
  function Created(c: Conn, i: Intent, env: Env): (Conn, Outcome) {
    if !env.modesValid || !env.rootMade || !env.live || !IsAbs(i.from) then (c, Failed)
    else if env.start.StartFailed? then
      (c.(running := if env.start.terminated then c.running - {Primary(i.from, i.to)} else c.running), Failed)
    else
      var (c3, out) := Recorded(Begun(c, i), i.from, EntryOf(i), env.closing.BeforeRecord?);
      if out == Failed || !i.git then (c3, out) else ReplicaAdded(c3, i, env)
  }

  function ReplicaAdded(c: Conn, i: Intent, env: Env): (Conn, Outcome) {
    if env.replica.ReplicaFailed? then
      var c1 := WithReplica(c, i.from, i.to, env.replica);
      (if env.closing.BetweenRecords? then Closed(c1) else c1, Failed)
    else
      Recorded(WithReplica(c, i.from, i.to, env.replica), i.from,
               EntryOf(i).(replica := ReplicaOf(env.replica)), env.closing.BetweenRecords?)
  }

  /** Unset modes and includes are inherited from the active sync of the same source. */
  function Inherit(syncs: map<string, ActiveSync>, i: Intent): Intent {
    if i.from !in syncs then i
    else
      var e := syncs[i.from];
      i.(fileMode := if i.fileMode == "" then e.fileMode else i.fileMode,
         dirMode := if i.dirMode == "" then e.dirMode else i.dirMode,
         includes := if i.includes == [] then e.includes else i.includes)
  }

  predicate Compatible(e: ActiveSync, i: Intent) {
    ModesCompatible(e.fileMode, e.dirMode, i.fileMode, i.dirMode) && SameIncludes(e.includes, i.includes)
  }

  /** The active sync is what the intent asks for. */
  predicate Satisfied(syncs: map<string, ActiveSync>, i: Intent) {
    && i.from in syncs
    && syncs[i.from].dest == i.to
    && (i.git <==> !syncs[i.from].replica.NoReplica?)
    && Compatible(syncs[i.from], i)
  }

  /** Past the fast path: the remote path is resolved and the active sync looked at again. */
  function Resolved(c: Conn, i: Intent, env: Env): (Conn, Outcome) {
    if i.from !in c.syncs then Created(c, i, env)
    else if c.syncs[i.from].dest != i.to then (c, Failed)
    else if Satisfied(c.syncs, i) then (c, Unchanged)
    else if Compatible(c.syncs[i.from], i) then Flipped(c, i, env)
    else Created(c, i, env)
  }

  ghost function Established(c: Conn, intent: Intent, env: Env): (Conn, Outcome) {
    match CanonicalizeSource(c.localRoot, intent.from)
    case Err(_) => (c, Failed)
    case Ok(from) =>
      if !NoOverlap(c.syncs.Keys, from) then (c, Failed)
      else
        var i := Inherit(c.syncs, intent.(from := from));
        if Satisfied(c.syncs, i) then (c, Unchanged)
        else if env.resolved.None? then (c, Failed)
        else Resolved(c, i.(to := env.resolved.value), env)
  }

  // ---------------------------------------------------------------------------------- runs

  datatype Event = Establish(intent: Intent, env: Env) | SetRoots(local: string, remote: string) | Close

  ghost function Step(c: Conn, e: Event): Conn {
    match e
    case Establish(intent, env) => Established(c, intent, env).0
    case SetRoots(local, remote) => AfterSetRoots(c, local, remote).0
    case Close => Closed(c)
  }

  ghost function Run(c: Conn, es: seq<Event>): Conn
    decreases |es|
  {
    if es == [] then c else Run(Step(c, es[0]), es[1..])
  }

  function Fresh(localRoot: string, remoteRoot: string): Conn {
    Conn(localRoot, remoteRoot, false, map[], {})
  }

  // -------------------------------------------------------------------------- the antichain

  /** Every source is a canonical directory and none contains another. */
  ghost predicate Antichain(keys: set<string>) {
    && (forall k :: k in keys ==> Canonical(k))
    && (forall k, l :: k in keys && l in keys && k != l ==> !Overlapping(k, l))
  }

  predicate ClosedIsEmpty(c: Conn) {
    c.closed ==> c.syncs == map[]
  }

  ghost predicate Inv(c: Conn) {
    Antichain(c.syncs.Keys) && ClosedIsEmpty(c)
  }

  /** An operation on one source adds at most that source, if it is absolute, or drops all. */
  predicate TouchesOnly(c: Conn, c': Conn, from: string) {
    && ClosedIsEmpty(c')
    && (|| c'.syncs.Keys == c.syncs.Keys
        || c'.syncs.Keys == {}
        || (c'.syncs.Keys == c.syncs.Keys + {from} && IsAbs(from)))
    && c'.localRoot == c.localRoot && c'.remoteRoot == c.remoteRoot
  }

  lemma RecordedTouchesOnly(c: Conn, from: string, e: ActiveSync, closing: bool)
    requires ClosedIsEmpty(c) && IsAbs(from)
    ensures TouchesOnly(c, Recorded(c, from, e, closing).0, from)
  {
  }

  lemma ReplicaAddedTouchesOnly(c: Conn, i: Intent, env: Env)
    requires ClosedIsEmpty(c) && IsAbs(i.from)
    ensures TouchesOnly(c, ReplicaAdded(c, i, env).0, i.from)
  {
  }

  lemma CreatedTouchesOnly(c: Conn, i: Intent, env: Env)
    requires ClosedIsEmpty(c)
    ensures TouchesOnly(c, Created(c, i, env).0, i.from)
  {
    if IsAbs(i.from) {
      RecordedTouchesOnly(Begun(c, i), i.from, EntryOf(i), env.closing.BeforeRecord?);
      ReplicaAddedTouchesOnly(Recorded(Begun(c, i), i.from, EntryOf(i), env.closing.BeforeRecord?).0, i, env);
    }
  }

  lemma FlippedTouchesOnly(c: Conn, i: Intent, env: Env)
    requires ClosedIsEmpty(c) && i.from in c.syncs
    ensures TouchesOnly(c, Flipped(c, i, env).0, i.from)
  {
    assert c.syncs.Keys == c.syncs.Keys + {i.from};
  }

  lemma ResolvedTouchesOnly(c: Conn, i: Intent, env: Env)
    requires ClosedIsEmpty(c)
    ensures TouchesOnly(c, Resolved(c, i, env).0, i.from)
  {
    CreatedTouchesOnly(c, i, env);
    if i.from in c.syncs {
      FlippedTouchesOnly(c, i, env);
    }
  }

  lemma AntichainGrows(keys: set<string>, from: string)
    requires Antichain(keys) && Canonical(from) && NoOverlap(keys, from)
    ensures Antichain(keys + {from})
  {
  }

  lemma CanonicalResult(localRoot: string, from: string)
    ensures var r := CanonicalizeSource(localRoot, from);
      r.Ok? && IsAbs(r.value) ==> Canonical(r.value)
  {
    CanonicalizeSourceIff(localRoot, from);
  }

  lemma TouchingKeepsInv(c: Conn, c': Conn, from: string)
    requires Inv(c) && TouchesOnly(c, c', from) && NoOverlap(c.syncs.Keys, from)
    requires IsAbs(from) ==> Canonical(from)
    ensures Inv(c')
  {
    if IsAbs(from) {
      AntichainGrows(c.syncs.Keys, from);
    }
  }

  lemma EstablishedTouchesOnly(c: Conn, intent: Intent, env: Env)
    requires ClosedIsEmpty(c)
    ensures var r := CanonicalizeSource(c.localRoot, intent.from);
      if r.Ok? && NoOverlap(c.syncs.Keys, r.value)
      then TouchesOnly(c, Established(c, intent, env).0, r.value)
      else Established(c, intent, env) == (c, Failed)
  {
    var r := CanonicalizeSource(c.localRoot, intent.from);
    if r.Ok? && env.resolved.Some? {
      ResolvedTouchesOnly(c, Inherit(c.syncs, intent.(from := r.value)).(to := env.resolved.value), env);
    }
  }

  lemma EstablishedKeepsInv(c: Conn, intent: Intent, env: Env)
    requires Inv(c)
    ensures Inv(Established(c, intent, env).0)
  {
    EstablishedTouchesOnly(c, intent, env);
    CanonicalResult(c.localRoot, intent.from);
    var r := CanonicalizeSource(c.localRoot, intent.from);
    if r.Ok? && NoOverlap(c.syncs.Keys, r.value) {
      TouchingKeepsInv(c, Established(c, intent, env).0, r.value);
    }
  }

  lemma {:induction false} RunKeepsInv(c: Conn, es: seq<Event>)
    requires Inv(c)
    ensures Inv(Run(c, es))
    decreases |es|
  {
    if es != [] {
      if es[0].Establish? {
        EstablishedKeepsInv(c, es[0].intent, es[0].env);
      }
      RunKeepsInv(Step(c, es[0]), es[1..]);
    }
  }

  predicate BothContain(a: string, b: string, cwd: string) {
    HasPathPrefix(cwd, a).Some? && HasPathPrefix(cwd, b).Some?
  }

  lemma AtMostOneMatches(keys: set<string>, cwd: string, a: string, b: string)
    requires Antichain(keys) && a in keys && b in keys && BothContain(a, b, cwd)
    ensures a == b
  {
    if |a| <= |b| {
      PrefixesAreNested(cwd, a, b);
    } else {
      PrefixesAreNested(cwd, b, a);
    }
  }

  lemma NoneContainsAnother(keys: set<string>, a: string, b: string)
    requires Antichain(keys) && a in keys && b in keys && a != b
    ensures !(Components(a) <= Components(b))
  {
    PrefixIsContainment(b, a);
  }

  /** In every run of every connection the sync sources are absolute, cleaned and not the root, none
      contains another, and so no directory lies under two of them. */
  lemma SourcesFormAntichain(localRoot: string, remoteRoot: string, es: seq<Event>)
    ensures var keys := Run(Fresh(localRoot, remoteRoot), es).syncs.Keys;
      && (forall a :: a in keys ==> Canonical(a))
      && (forall a, b :: a in keys && b in keys && a != b ==> !(Components(a) <= Components(b)))
      && (forall a, b, cwd :: a in keys && b in keys && BothContain(a, b, cwd) ==> a == b)
  {
    RunKeepsInv(Fresh(localRoot, remoteRoot), es);
    AntichainMeans(Run(Fresh(localRoot, remoteRoot), es).syncs.Keys);
  }

  lemma AntichainMeans(keys: set<string>)
    requires Antichain(keys)
    ensures forall a, b :: a in keys && b in keys && a != b ==> !(Components(a) <= Components(b))
    ensures forall a, b, cwd :: a in keys && b in keys && BothContain(a, b, cwd) ==> a == b
  {
    forall a, b | a in keys && b in keys && a != b ensures !(Components(a) <= Components(b)) {
      NoneContainsAnother(keys, a, b);
    }
    forall a, b, cwd | a in keys && b in keys && BothContain(a, b, cwd) ensures a == b {
      AtMostOneMatches(keys, cwd, a, b);
    }
  }

  // --------------------------------------------------------------------- session accounting

  /** Every running session is one that an entry would pause. */
  ghost predicate Accounted(c: Conn) {
    c.running <= AllSessions(c.syncs)
  }

  predicate Holds(syncs: map<string, ActiveSync>, s: Session) {
    s.from in syncs && s in SessionsOf(s.from, syncs[s.from])
  }

  lemma AccountedIff(c: Conn)
    ensures Accounted(c) <==> forall s :: s in c.running ==> Holds(c.syncs, s)
  {
    assert forall s :: s in AllSessions(c.syncs) <==> Holds(c.syncs, s);
  }

  /** A session is recreated with its replica wanted as before, and the replica is neither started anew
      nor terminated: the new entry does not know the old replica. */
  predicate LosesReplica(c: Conn, i: Intent, env: Env) {
    && env.modesValid && env.rootMade && env.live && IsAbs(i.from) && env.start.Started?
    && i.git && GitReplica(i.from, i.to) in c.running
    && !env.closing.BeforeRecord?
    && (env.replica.ReplicaSkipped? || env.replica == ReplicaFailed(false))
  }

  lemma CreatedLosesReplica(c: Conn, i: Intent, env: Env)
    requires ClosedIsEmpty(c) && Accounted(c) && LosesReplica(c, i, env)
    ensures GitReplica(i.from, i.to) in Created(c, i, env).0.running
    ensures !Accounted(Created(c, i, env).0)
  {
    AccountedIff(c);
    var c3 := Recorded(Begun(c, i), i.from, EntryOf(i), false).0;
    assert GitReplica(i.from, i.to) in c3.running && !Holds(c3.syncs, GitReplica(i.from, i.to));
    AccountedIff(c3);
    AccountedIff(Created(c, i, env).0);
  }

  lemma ReplicaAddedStaysAccounted(c: Conn, i: Intent, env: Env)
    requires ClosedIsEmpty(c) && Accounted(c) && i.from in c.syncs && c.syncs[i.from] == EntryOf(i)
    ensures Accounted(ReplicaAdded(c, i, env).0)
  {
    AccountedIff(c);
    AccountedIff(ReplicaAdded(c, i, env).0);
  }

  /** What Created has done when it comes to the replica. */
  lemma ReplicaFoundAgain(c: Conn, i: Intent, env: Env)
    requires ClosedIsEmpty(c) && Accounted(c) && i.git
    requires env.replica.ReplicaStarted? || env.replica == ReplicaFailed(true)
    requires i.from in c.syncs ==> c.syncs[i.from].dest == i.to
    requires !c.closed
    ensures Accounted(ReplicaAdded(Recorded(Begun(c, i), i.from, EntryOf(i), false).0, i, env).0)
  {
    var c3 := Recorded(Begun(c, i), i.from, EntryOf(i), false).0;
    AccountedIff(c);
    assert forall s :: Holds(c3.syncs, s) ==> s in AllSessions(c3.syncs);
    AccountedIff(ReplicaAdded(c3, i, env).0);
  }

  lemma PrimaryStaysAccounted(c: Conn, i: Intent, closing: bool)
    requires ClosedIsEmpty(c) && Accounted(c)
    requires i.from in c.syncs ==> c.syncs[i.from].dest == i.to
    ensures var (c3, out) := Recorded(Begun(c, i), i.from, EntryOf(i), closing);
      (out == Failed || !i.git || GitReplica(i.from, i.to) !in c.running) ==> Accounted(c3)
  {
    AccountedIff(c);
    AccountedIff(Recorded(Begun(c, i), i.from, EntryOf(i), closing).0);
  }

  /** Establishing a session anew leaks one exactly when a running replica is not started again. */
  lemma CreatedAccountedIff(c: Conn, i: Intent, env: Env)
    requires ClosedIsEmpty(c) && Accounted(c)
    requires i.from in c.syncs ==> c.syncs[i.from].dest == i.to
    ensures Accounted(Created(c, i, env).0) <==> !LosesReplica(c, i, env)
  {
    if LosesReplica(c, i, env) {
      CreatedLosesReplica(c, i, env);
    } else {
      AccountedIff(c);
      PrimaryStaysAccounted(c, i, env.closing.BeforeRecord?);
      var (c3, out) := Recorded(Begun(c, i), i.from, EntryOf(i), env.closing.BeforeRecord?);
      if out != Failed && i.git {
        if env.replica.ReplicaStarted? || env.replica == ReplicaFailed(true) {
          ReplicaFoundAgain(c, i, env);
        } else if GitReplica(i.from, i.to) !in c.running {
          ReplicaAddedStaysAccounted(c3, i, env);
        }
      }
    }
  }

  lemma FlippedStaysAccounted(c: Conn, i: Intent, env: Env)
    requires ClosedIsEmpty(c) && Accounted(c) && i.from in c.syncs
    requires i.git <==> c.syncs[i.from].replica.NoReplica?
    ensures Accounted(Flipped(c, i, env).0)
  {
    AccountedIff(c);
    AccountedIff(Flipped(c, i, env).0);
  }

  /** The establishment recreates a session and loses track of its running replica. */
  ghost predicate Orphans(c: Conn, intent: Intent, env: Env) {
    var r := CanonicalizeSource(c.localRoot, intent.from);
    && r.Ok? && NoOverlap(c.syncs.Keys, r.value) && env.resolved.Some?
    && var i := Inherit(c.syncs, intent.(from := r.value));
       && i.from in c.syncs && c.syncs[i.from].dest == env.resolved.value
       && !Compatible(c.syncs[i.from], i)
       && LosesReplica(c, i.(to := env.resolved.value), env)
  }

  lemma ResolvedAccountedIff(c: Conn, i: Intent, env: Env)
    requires ClosedIsEmpty(c) && Accounted(c)
    ensures Accounted(Resolved(c, i, env).0)
       <==> !(&& i.from in c.syncs && c.syncs[i.from].dest == i.to
              && !Compatible(c.syncs[i.from], i) && LosesReplica(c, i, env))
  {
    AccountedIff(c);
    if i.from !in c.syncs || c.syncs[i.from].dest == i.to {
      CreatedAccountedIff(c, i, env);
    }
    if i.from in c.syncs && (i.git <==> c.syncs[i.from].replica.NoReplica?) {
      FlippedStaysAccounted(c, i, env);
    }
  }

  /** No session is left running outside the connection's table, exactly when no establishment
      recreates a session without starting its running replica again. */
  lemma EstablishedAccountedIff(c: Conn, intent: Intent, env: Env)
    requires Inv(c) && Accounted(c)
    ensures Accounted(Established(c, intent, env).0) <==> !Orphans(c, intent, env)
  {
    var r := CanonicalizeSource(c.localRoot, intent.from);
    if r.Ok? && env.resolved.Some? {
      var i := Inherit(c.syncs, intent.(from := r.value));
      ResolvedAccountedIff(c, i.(to := env.resolved.value), env);
    }
  }

  ghost predicate NeverOrphans(c: Conn, es: seq<Event>)
    decreases |es|
  {
    es != [] ==>
      && (es[0].Establish? ==> !Orphans(c, es[0].intent, es[0].env))
      && NeverOrphans(Step(c, es[0]), es[1..])
  }

  /** Short of that, every run accounts for every running session, and after a close none runs. */
  lemma {:induction false} SessionsAccounted(c: Conn, es: seq<Event>)
    requires Inv(c) && Accounted(c) && NeverOrphans(c, es)
    ensures Inv(Run(c, es)) && Accounted(Run(c, es))
    ensures Run(c, es).closed ==> Run(c, es).running == {}
    decreases |es|
  {
    if es != [] {
      if es[0].Establish? {
        EstablishedKeepsInv(c, es[0].intent, es[0].env);
        EstablishedAccountedIff(c, es[0].intent, es[0].env);
      }
      SessionsAccounted(Step(c, es[0]), es[1..]);
    }
  }

  ghost predicate AlwaysAccounted(c: Conn, es: seq<Event>)
    decreases |es|
  {
    Accounted(c) && (es != [] ==> AlwaysAccounted(Step(c, es[0]), es[1..]))
  }

  /** Over whole runs: every running session is one the table would pause, exactly when no
      establishment loses track of a running replica. */
  lemma {:induction false} RunAccountedIff(c: Conn, es: seq<Event>)
    requires Inv(c) && Accounted(c)
    ensures AlwaysAccounted(c, es) <==> NeverOrphans(c, es)
    decreases |es|
  {
    if es != [] {
      if es[0].Establish? {
        EstablishedKeepsInv(c, es[0].intent, es[0].env);
        EstablishedAccountedIff(c, es[0].intent, es[0].env);
      }
      if Accounted(Step(c, es[0])) {
        RunAccountedIff(Step(c, es[0]), es[1..]);
      }
    }
  }

  // ------------------------------------------------------------ a replica outliving a close

  const Fine := Env(None, true, true, true, Started, ReplicaStarted, Stays)

  /** Established past canonicalization, for a canonical source. */
  lemma EstablishedAt(c: Conn, i: Intent, env: Env)
    requires Canonical(i.from) && NoOverlap(c.syncs.Keys, i.from) && env.resolved == Some(i.to)
    ensures Established(c, i, env) ==
      if Satisfied(c.syncs, Inherit(c.syncs, i)) then (c, Unchanged)
      else Resolved(c, Inherit(c.syncs, i), env)
  {
    CanonicalSourceIsFixed(c.localRoot, i.from);
    assert i.(from := i.from) == i;
    assert Inherit(c.syncs, i).(to := i.to) == Inherit(c.syncs, i);
  }

  function WithSync(from: string, dest: string, replica: Replica, mode: string): Conn {
    Conn("", "", false, map[from := ActiveSync(dest, replica, mode, "", [])],
         {Primary(from, dest), GitReplica(from, dest)})
  }

  lemma FirstSync(i: Intent, env: Env)
    requires Canonical(i.from) && i.git && i.includes == [] && i.dirMode == ""
    requires env == Fine.(resolved := Some(i.to))
    ensures Established(Fresh("", ""), i, env).0 == WithSync(i.from, i.to, Replicating, i.fileMode)
  {
    EstablishedAt(Fresh("", ""), i, env);
  }

  lemma SecondSync(i: Intent, mode: string, env: Env)
    requires Canonical(i.from) && i.git && i.includes == [] && i.dirMode == ""
    requires i.fileMode != "" && i.fileMode != mode
    requires env == Fine.(resolved := Some(i.to), replica := ReplicaFailed(false))
    ensures Established(WithSync(i.from, i.to, Replicating, mode), i, env).0
         == WithSync(i.from, i.to, NoReplica, i.fileMode)
  {
    var c := WithSync(i.from, i.to, Replicating, mode);
    EstablishedAt(c, i, env);
    assert Inherit(c.syncs, i) == i && !Compatible(c.syncs[i.from], i);
    assert Begun(c, i) == c;
  }

  /** Changing the file mode of a sync with a replica, with the replica failing to start: the old
      replica still runs after the connection is closed. */
  lemma LostReplicaOutlivesClose(from: string, dest: string)
    requires Canonical(from)
    ensures
      var first := Intent(from, dest, true, [], "644", "");
      var good := Fine.(resolved := Some(dest));
      var bad := good.(replica := ReplicaFailed(false));
      var c := Run(Fresh("", ""), [Establish(first, good), Establish(first.(fileMode := "600"), bad), Close]);
      c.closed && c.running == {GitReplica(from, dest)}
  {
    var first := Intent(from, dest, true, [], "644", "");
    var second := first.(fileMode := "600");
    var good := Fine.(resolved := Some(dest));
    var bad := good.(replica := ReplicaFailed(false));
    FirstSync(first, good);
    SecondSync(second, "644", bad);
    var c2 := WithSync(from, dest, NoReplica, "600");
    assert AllSessions(c2.syncs) == {Primary(from, dest)} by { AccountedIff(c2); }
    var es := [Establish(first, good), Establish(second, bad), Close];
    assert es[1..] == [Establish(second, bad), Close] && es[1..][1..] == [Close];
    assert Run(c2, [Close]) == Closed(c2);
  }
}
