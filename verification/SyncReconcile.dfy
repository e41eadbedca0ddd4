/**
 The reconcile pass over the syncs of one connection: what is missing, establishing it, and why one
 successful pass is enough.
 */
module SyncReconcile {
  import opened Options
  import opened Paths
  import opened Synchronization
  import opened ConnectionSync
  import opened Connections

  /** The desired intents that no active sync satisfies, in order. */
  function Missing(desired: seq<Intent>, syncs: map<string, ActiveSync>): seq<Intent> {
    if desired == [] then []
    else (if Satisfied(syncs, desired[0]) then [] else [desired[0]]) + Missing(desired[1..], syncs)
  }

  lemma {:induction false} MissingAppend(a: seq<Intent>, d: Intent, syncs: map<string, ActiveSync>)
    ensures Missing(a + [d], syncs) == Missing(a, syncs) + Missing([d], syncs)
  {
    if a == [] {
      assert a + [d] == [d];
    } else {
      assert (a + [d])[1..] == a[1..] + [d];
      MissingAppend(a[1..], d, syncs);
    }
  }

  lemma {:induction false} MissingMembers(desired: seq<Intent>, syncs: map<string, ActiveSync>)
    ensures forall d :: d in Missing(desired, syncs) <==> d in desired && !Satisfied(syncs, d)
  {
    if desired != [] {
      MissingMembers(desired[1..], syncs);
      assert desired == [desired[0]] + desired[1..];
    }
  }

  /** The intent with its source resolved against the local root; one that cannot be resolved stays. */
  function Resolve(localRoot: string, conf: Intent): Intent {
    var r := CanonicalizeSource(localRoot, conf.from);
    if r.Ok? then conf.(from := r.value) else conf
  }

  method CanonicalizeIntents(localRoot: string, confs: seq<Intent>) returns (out: seq<Intent>)
    ensures |out| == |confs| && forall j :: 0 <= j < |confs| ==> out[j] == Resolve(localRoot, confs[j])
  {
    out := [];
    for j := 0 to |confs|
      invariant |out| == j && forall n :: 0 <= n < j ==> out[n] == Resolve(localRoot, confs[n])
    {
      var r := CanonicalizeSource(localRoot, confs[j].from);
      var conf := if r.Ok? then confs[j].(from := r.value) else confs[j];
      out := out + [conf];
    }
  }

  /** Resolved intents whose source is absolute are canonical, so comparing them with the active syncs
      is comparing keys, whatever root the connection itself resolves against. */
  lemma ResolvedSourcesAreCanonical(localRoot: string, conf: Intent, root: string)
    requires CanonicalizeSource(localRoot, conf.from).Ok? && (IsAbs(conf.from) || IsAbs(localRoot))
    ensures Canonical(Resolve(localRoot, conf).from)
    ensures CanonicalizeSource(root, Resolve(localRoot, conf).from) == Ok(Resolve(localRoot, conf).from)
  {
    CanonicalizeSourceIff(localRoot, conf.from);
    CanonicalSourceIsFixed(root, Resolve(localRoot, conf).from);
  }

  method ComputeMissingSyncs(desired: seq<Intent>, active: seq<Intent>, ghost syncs: map<string, ActiveSync>)
    returns (missing: seq<Intent>)
    requires Lists(active, syncs)
    ensures missing == Missing(desired, syncs)
  {
    if |desired| == 0 {
      return [];
    }
    var activeByLocal: map<string, Intent> := map[];
    for j := 0 to |active|
      invariant forall k :: k in activeByLocal ==> k in syncs && activeByLocal[k] == IntentOf(k, syncs[k])
      invariant forall n :: 0 <= n < j ==> active[n].from in activeByLocal
    {
      assert Stands(active[j], syncs);
      activeByLocal := activeByLocal[active[j].from := active[j]];
    }
    forall k | k in syncs ensures k in activeByLocal {
      assert IntentOf(k, syncs[k]) in active;
    }
    missing := [];
    for j := 0 to |desired|
      invariant missing == Missing(desired[..j], syncs)
    {
      var d := desired[j];
      var ok := false;
      if d.from in activeByLocal {
        var e := activeByLocal[d.from];
        if e.to == d.to && e.git == d.git && ModesCompatible(e.fileMode, e.dirMode, d.fileMode, d.dirMode) {
          ok := IncludesCompatible(e.includes, d.includes);
        }
      }
      MissingAppend(desired[..j], d, syncs);
      assert desired[..j + 1] == desired[..j] + [d];
      if !ok {
        missing := missing + [d];
      }
    }
    assert desired[..|desired|] == desired;
  }

  // ------------------------------------------------------------------------------- one pass

  ghost function Pass(c: Conn, intents: seq<Intent>, envs: seq<Env>): Conn
    requires |intents| <= |envs|
    decreases |intents|
  {
    if intents == [] then c else Pass(Established(c, intents[0], envs[0]).0, intents[1..], envs[1..])
  }

  method ReconcileSyncs(conn: Connection, desired: seq<Intent>, envs: seq<Env>)
    requires conn.Valid() && |desired| <= |envs|
    modifies conn, conn.sessions
    ensures conn.Valid()
    ensures |Missing(desired, old(conn.synchronizations))| <= |envs|
    ensures conn.View() == Pass(old(conn.View()), Missing(desired, old(conn.synchronizations)), envs)
  {
    var active := conn.Synchronizations();
    var missing := ComputeMissingSyncs(desired, active, conn.synchronizations);
    MissingIsShorter(desired, conn.synchronizations);
    for j := 0 to |missing|
      invariant conn.Valid()
      invariant Pass(conn.View(), missing[j..], envs[j..]) == Pass(old(conn.View()), missing, envs)
    {
      assert missing[j..][1..] == missing[j + 1..] && envs[j..][1..] == envs[j + 1..];
      var outcome := conn.EstablishSynchronization(missing[j], envs[j]);
    }
  }

  lemma {:induction false} MissingIsShorter(desired: seq<Intent>, syncs: map<string, ActiveSync>)
    ensures |Missing(desired, syncs)| <= |desired|
  {
    if desired != [] {
      MissingIsShorter(desired[1..], syncs);
    }
  }

  // --------------------------------------------------------------------- what a success does

  /** Only one key may differ. */
  ghost predicate OthersKept(a: map<string, ActiveSync>, b: map<string, ActiveSync>, from: string) {
    forall k :: k != from ==> (k in a <==> k in b) && (k in a && k in b ==> a[k] == b[k])
  }

  lemma CreatedSatisfies(c: Conn, i: Intent, env: Env)
    requires Created(c, i, env).1 != Failed
    ensures Satisfied(Created(c, i, env).0.syncs, i)
    ensures OthersKept(c.syncs, Created(c, i, env).0.syncs, i.from)
  {
  }

  lemma FlippedSatisfies(c: Conn, i: Intent, env: Env)
    requires i.from in c.syncs && c.syncs[i.from].dest == i.to && Compatible(c.syncs[i.from], i)
    requires Flipped(c, i, env).1 != Failed
    ensures Satisfied(Flipped(c, i, env).0.syncs, i)
    ensures OthersKept(c.syncs, Flipped(c, i, env).0.syncs, i.from)
  {
  }

  lemma ResolvedSatisfies(c: Conn, i: Intent, env: Env)
    requires Resolved(c, i, env).1 != Failed
    ensures Satisfied(Resolved(c, i, env).0.syncs, i)
    ensures OthersKept(c.syncs, Resolved(c, i, env).0.syncs, i.from)
  {
    if i.from in c.syncs && c.syncs[i.from].dest == i.to && Compatible(c.syncs[i.from], i) {
      if !Satisfied(c.syncs, i) {
        FlippedSatisfies(c, i, env);
      }
    } else {
      CreatedSatisfies(c, i, env);
    }
  }

  /** An intent is satisfied wherever its inherited form is. */
  lemma InheritedIsStronger(syncs: map<string, ActiveSync>, before: map<string, ActiveSync>, i: Intent)
    requires Satisfied(syncs, Inherit(before, i))
    ensures Satisfied(syncs, i)
  {
  }

  /** A success leaves the intent satisfied and every other sync as it was. */
  lemma EstablishedSatisfies(c: Conn, i: Intent, env: Env)
    requires Canonical(i.from) && env.resolved == Some(i.to)
    requires Established(c, i, env).1 != Failed
    ensures Satisfied(Established(c, i, env).0.syncs, i)
    ensures OthersKept(c.syncs, Established(c, i, env).0.syncs, i.from)
  {
    CanonicalSourceIsFixed(c.localRoot, i.from);
    EstablishedAt(c, i, env);
    var h := Inherit(c.syncs, i);
    if !Satisfied(c.syncs, h) {
      ResolvedSatisfies(c, h, env);
    }
    InheritedIsStronger(Established(c, i, env).0.syncs, c.syncs, i);
  }

  /** Establishing an intent that is already satisfied, its includes in any order, changes nothing and
      asks nothing of the outside. */
  lemma SatisfiedIsNoOp(c: Conn, i: Intent, includes: seq<string>, env: Env)
    requires Inv(c) && Satisfied(c.syncs, i) && multiset(includes) == multiset(i.includes)
    ensures Established(c, i.(includes := includes), env) == (c, Unchanged)
  {
    var j := i.(includes := includes);
    assert Canonical(i.from);
    CanonicalSourceIsFixed(c.localRoot, i.from);
    assert NoOverlap(c.syncs.Keys, i.from);
    assert j.(from := i.from) == j;
    assert |multiset(includes)| == |includes| && |multiset(i.includes)| == |i.includes|;
    assert Satisfied(c.syncs, Inherit(c.syncs, j));
  }

  // --------------------------------------------------------------------------- convergence

  predicate DistinctSources(intents: seq<Intent>) {
    forall m, n :: 0 <= m < n < |intents| ==> intents[m].from != intents[n].from
  }

  /** No intent has this one's source. */
  predicate Elsewhere(intents: seq<Intent>, d: Intent) {
    forall m :: 0 <= m < |intents| ==> intents[m].from != d.from
  }

  ghost predicate CanonicalSources(intents: seq<Intent>) {
    forall d :: d in intents ==> Canonical(d.from)
  }

  /** Every establishment of the pass succeeds, and its remote path was resolved already. */
  ghost predicate Successful(c: Conn, intents: seq<Intent>, envs: seq<Env>)
    requires |intents| <= |envs|
    decreases |intents|
  {
    intents != [] ==>
      && envs[0].resolved == Some(intents[0].to)
      && Established(c, intents[0], envs[0]).1 != Failed
      && Successful(Established(c, intents[0], envs[0]).0, intents[1..], envs[1..])
  }

  lemma OthersStaySatisfied(a: map<string, ActiveSync>, b: map<string, ActiveSync>, from: string, d: Intent)
    requires OthersKept(a, b, from) && d.from != from && Satisfied(a, d)
    ensures Satisfied(b, d)
  {
  }

  lemma {:induction false} PassKeepsInv(c: Conn, intents: seq<Intent>, envs: seq<Env>)
    requires Inv(c) && |intents| <= |envs|
    ensures Inv(Pass(c, intents, envs))
    decreases |intents|
  {
    if intents != [] {
      EstablishedKeepsInv(c, intents[0], envs[0]);
      PassKeepsInv(Established(c, intents[0], envs[0]).0, intents[1..], envs[1..]);
    }
  }

  /** A pass over other sources keeps a satisfied intent satisfied. */
  lemma {:induction false} PassKeepsSatisfied(c: Conn, intents: seq<Intent>, envs: seq<Env>, d: Intent)
    requires |intents| <= |envs| && CanonicalSources(intents) && Successful(c, intents, envs)
    requires Satisfied(c.syncs, d) && Elsewhere(intents, d)
    ensures Satisfied(Pass(c, intents, envs).syncs, d)
    decreases |intents|
  {
    if intents != [] {
      var first, c1 := intents[0], Established(c, intents[0], envs[0]).0;
      assert first in intents;
      EstablishedSatisfies(c, first, envs[0]);
      OthersStaySatisfied(c.syncs, c1.syncs, first.from, d);
      PassKeepsSatisfied(c1, intents[1..], envs[1..], d);
    }
  }

  lemma SourcesOfRest(intents: seq<Intent>)
    requires intents != [] && DistinctSources(intents) && CanonicalSources(intents)
    ensures DistinctSources(intents[1..]) && CanonicalSources(intents[1..])
    ensures Elsewhere(intents[1..], intents[0]) && Canonical(intents[0].from)
  {
    assert intents[0] in intents;
    assert forall d :: d in intents[1..] ==> d in intents;
  }

  lemma FirstIsSatisfied(c: Conn, intents: seq<Intent>, envs: seq<Env>)
    requires intents != [] && |intents| <= |envs|
    requires DistinctSources(intents) && CanonicalSources(intents) && Successful(c, intents, envs)
    ensures Satisfied(Pass(c, intents, envs).syncs, intents[0])
  {
    SourcesOfRest(intents);
    EstablishedSatisfies(c, intents[0], envs[0]);
    PassKeepsSatisfied(Established(c, intents[0], envs[0]).0, intents[1..], envs[1..], intents[0]);
  }

  lemma {:induction false} PassSatisfies(c: Conn, intents: seq<Intent>, envs: seq<Env>, n: nat)
    requires |intents| <= |envs| && n < |intents|
    requires DistinctSources(intents) && CanonicalSources(intents) && Successful(c, intents, envs)
    ensures Satisfied(Pass(c, intents, envs).syncs, intents[n])
    decreases |intents|
  {
    if n == 0 {
      FirstIsSatisfied(c, intents, envs);
    } else {
      SourcesOfRest(intents);
      PassSatisfies(Established(c, intents[0], envs[0]).0, intents[1..], envs[1..], n - 1);
    }
  }

  lemma {:induction false} MissingIsDistinct(desired: seq<Intent>, syncs: map<string, ActiveSync>)
    requires DistinctSources(desired)
    ensures DistinctSources(Missing(desired, syncs))
    decreases |desired|
  {
    if desired != [] {
      MissingIsDistinct(desired[1..], syncs);
      MissingMembers(desired[1..], syncs);
      var rest := Missing(desired[1..], syncs);
      forall n | 0 <= n < |rest| ensures rest[n].from != desired[0].from {
        assert rest[n] in desired[1..];
      }
    }
  }

  lemma SameSourceSameIntent(desired: seq<Intent>, a: Intent, b: Intent)
    requires DistinctSources(desired) && a in desired && b in desired && a.from == b.from
    ensures a == b
  {
  }

  lemma {:induction false} NothingMissing(desired: seq<Intent>, syncs: map<string, ActiveSync>)
    requires forall d :: d in desired ==> Satisfied(syncs, d)
    ensures Missing(desired, syncs) == []
    decreases |desired|
  {
    if desired != [] {
      assert desired[0] in desired;
      NothingMissing(desired[1..], syncs);
    }
  }

  /** One successful pass leaves nothing missing, and any later establishment of a desired intent, its
      includes in any order and whatever the outside would answer, is a no-op. */
  lemma ReconcileConverges(c: Conn, desired: seq<Intent>, envs: seq<Env>)
    requires Inv(c) && DistinctSources(desired) && CanonicalSources(desired)
    requires |Missing(desired, c.syncs)| <= |envs| && Successful(c, Missing(desired, c.syncs), envs)
    ensures var c' := Pass(c, Missing(desired, c.syncs), envs);
      && Missing(desired, c'.syncs) == []
      && forall d, includes, env :: d in desired && multiset(includes) == multiset(d.includes)
           ==> Established(c', d.(includes := includes), env) == (c', Unchanged)
  {
    var missing := Missing(desired, c.syncs);
    var c' := Pass(c, missing, envs);
    MissingIsDistinct(desired, c.syncs);
    MissingMembers(desired, c.syncs);
    PassKeepsInv(c, missing, envs);
    forall d | d in desired ensures Satisfied(c'.syncs, d) {
      if n :| 0 <= n < |missing| && missing[n] == d {
        PassSatisfies(c, missing, envs, n);
      } else {
        forall m | 0 <= m < |missing| ensures missing[m].from != d.from {
          if missing[m].from == d.from {
            SameSourceSameIntent(desired, missing[m], d);
          }
        }
        PassKeepsSatisfied(c, missing, envs, d);
      }
    }
    NothingMissing(desired, c'.syncs);
    forall d, includes, env | d in desired && multiset(includes) == multiset(d.includes)
      ensures Established(c', d.(includes := includes), env) == (c', Unchanged)
    {
      SatisfiedIsNoOp(c', d, includes, env);
    }
  }

  // ------------------------------------------------------------------ when a pass succeeds

  /** The outside answers every request, and the remote path is already resolved. */
  predicate Cooperative(env: Env, i: Intent) {
    && env.resolved == Some(i.to) && env.modesValid && env.rootMade && env.live
    && env.start.Started? && !env.replica.ReplicaFailed? && env.closing.Stays?
  }

  lemma CooperativeResolves(c: Conn, i: Intent, env: Env)
    requires !c.closed && IsAbs(i.from) && Cooperative(env, i)
    requires i.from in c.syncs ==> c.syncs[i.from].dest == i.to
    ensures Resolved(c, i, env).1 != Failed && !Resolved(c, i, env).0.closed
    ensures Resolved(c, i, env).0.syncs.Keys <= c.syncs.Keys + {i.from}
  {
  }

  /** With a cooperative outside an establishment on an open connection fails exactly when its source
      overlaps another's or is bound to another destination. */
  lemma CooperativeFailsIff(c: Conn, i: Intent, env: Env)
    requires !c.closed && Canonical(i.from) && Cooperative(env, i)
    ensures Established(c, i, env).1 == Failed
       <==> !NoOverlap(c.syncs.Keys, i.from) || (i.from in c.syncs && c.syncs[i.from].dest != i.to)
    ensures !Established(c, i, env).0.closed
    ensures Established(c, i, env).0.syncs.Keys <= c.syncs.Keys + {i.from}
  {
    CanonicalSourceIsFixed(c.localRoot, i.from);
    if NoOverlap(c.syncs.Keys, i.from) {
      EstablishedAt(c, i, env);
      if i.from !in c.syncs || c.syncs[i.from].dest == i.to {
        CooperativeResolves(c, Inherit(c.syncs, i), env);
      }
    }
  }

  /** The sources overlap neither each other nor an active sync, and keep their destinations. */
  ghost predicate Placeable(c: Conn, intents: seq<Intent>) {
    && (forall d :: d in intents ==> NoOverlap(c.syncs.Keys, d.from))
    && (forall d :: d in intents && d.from in c.syncs ==> c.syncs[d.from].dest == d.to)
    && (forall m, n :: 0 <= m < n < |intents| ==> !Overlapping(intents[m].from, intents[n].from))
  }

  lemma OverlapIsSymmetric(a: string, b: string)
    ensures Overlapping(a, b) <==> Overlapping(b, a)
  {
  }

  lemma PlaceableNext(c: Conn, c': Conn, intents: seq<Intent>)
    requires intents != [] && Placeable(c, intents) && DistinctSources(intents)
    requires OthersKept(c.syncs, c'.syncs, intents[0].from)
    requires c'.syncs.Keys <= c.syncs.Keys + {intents[0].from}
    ensures Placeable(c', intents[1..])
  {
    var rest := intents[1..];
    forall m | 0 <= m < |rest| ensures NoOverlap(c'.syncs.Keys, rest[m].from) {
      assert rest[m] in intents;
      OverlapIsSymmetric(intents[0].from, intents[m + 1].from);
    }
    forall d | d in rest && d.from in c'.syncs ensures c'.syncs[d.from].dest == d.to {
      assert d in intents;
    }
  }

  /** The first intent of a pass is established and the rest stay placeable. */
  lemma FirstSucceeds(c: Conn, intents: seq<Intent>, env: Env)
    requires intents != [] && !c.closed
    requires DistinctSources(intents) && CanonicalSources(intents) && Placeable(c, intents)
    requires Cooperative(env, intents[0])
    ensures
      var (c', r) := Established(c, intents[0], env);
      r != Failed && !c'.closed && Placeable(c', intents[1..])
  {
    assert intents[0] in intents;
    CooperativeFailsIff(c, intents[0], env);
    EstablishedSatisfies(c, intents[0], env);
    PlaceableNext(c, Established(c, intents[0], env).0, intents);
  }

  /** Given a cooperative outside, a pass over distinct, separate sources succeeds. */
  lemma {:induction false} PassSucceeds(c: Conn, intents: seq<Intent>, envs: seq<Env>)
    requires !c.closed && |intents| <= |envs|
    requires DistinctSources(intents) && CanonicalSources(intents) && Placeable(c, intents)
    requires forall n :: 0 <= n < |intents| ==> Cooperative(envs[n], intents[n])
    ensures Successful(c, intents, envs)
    decreases |intents|
  {
    if intents != [] {
      FirstSucceeds(c, intents, envs[0]);
      forall n | 0 <= n < |intents[1..]| ensures Cooperative(envs[1..][n], intents[1..][n]) {
        assert Cooperative(envs[n + 1], intents[n + 1]);
      }
      PassSucceeds(Established(c, intents[0], envs[0]).0, intents[1..], envs[1..]);
    }
  }
}
