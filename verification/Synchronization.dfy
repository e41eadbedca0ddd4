/**
 Sync intents of a connection: canonical sources, overlap, and when an active sync satisfies an
 intent.
 */
module Synchronization {
  import opened Paths
  import opened Strings

  datatype SourceError = Empty | NoLocalRoot | FilesystemRoot | Overlaps(existing: string)

  datatype Result<T> = Ok(value: T) | Err(error: SourceError)

  // -------------------------------------------------------------------- canonical sources

  /** A relative source resolves against the connection's local root; an empty one, one with no root
      to resolve against, and the file-system root are refused. */
  function CanonicalizeSource(localRoot: string, from: string): Result<string> {
    if from == "" then Err(Empty)
    else if !IsAbs(from) && localRoot == "" then Err(NoLocalRoot)
    else
      var resolved := Clean(if IsAbs(from) then from else JoinPath(localRoot, from));
      if resolved == ParentDir(resolved) then Err(FilesystemRoot) else Ok(resolved)
  }

  /** The path a source names, before cleaning. */
  function Named(localRoot: string, from: string): string {
    if IsAbs(from) then from else localRoot + "/" + from
  }

  /** The four outcomes, each exactly when: the key is the one cleaned path for the named directory. */
  lemma CanonicalizeSourceIff(localRoot: string, from: string)
    ensures CanonicalizeSource(localRoot, from) == Err(Empty) <==> from == ""
    ensures CanonicalizeSource(localRoot, from) == Err(NoLocalRoot)
       <==> (from != "" && !IsAbs(from) && localRoot == "")
    ensures CanonicalizeSource(localRoot, from) == Err(FilesystemRoot)
       <==> (from != "" && (IsAbs(from) || localRoot != "") && Components(Named(localRoot, from)) == [])
    ensures CanonicalizeSource(localRoot, from).Ok? ==>
      var p := CanonicalizeSource(localRoot, from).value;
      && p == Clean(p)
      && Components(p) == Components(Named(localRoot, from)) != []
      && (IsAbs(p) <==> IsAbs(from) || IsAbs(localRoot))
  {
    if from != "" && (IsAbs(from) || localRoot != "") {
      var named := Named(localRoot, from);
      CleanKeepsMeaning(named);
      OwnParentIff(Clean(named));
    }
  }

  /** An absolute key canonicalizes to itself, whatever the local root. */
  lemma CanonicalSourceIsFixed(localRoot: string, path: string)
    requires Canonical(path)
    ensures CanonicalizeSource(localRoot, path) == Ok(path)
  {
    CanonicalizeSourceIff(localRoot, path);
  }

  /** Two spellings of one directory give one key. */
  lemma SpellingsShareKey(localRoot: string, a: string, b: string)
    requires CanonicalizeSource(localRoot, a).Ok? && CanonicalizeSource(localRoot, b).Ok?
    ensures CanonicalizeSource(localRoot, a) == CanonicalizeSource(localRoot, b)
       <==> (&& Components(Named(localRoot, a)) == Components(Named(localRoot, b))
             && ((IsAbs(a) || IsAbs(localRoot)) <==> (IsAbs(b) || IsAbs(localRoot))))
  {
    CanonicalizeSourceIff(localRoot, a);
    CanonicalizeSourceIff(localRoot, b);
  }

  // ------------------------------------------------------------------------------ overlap

  predicate Overlapping(a: string, b: string) {
    HasPathPrefix(a, b).Some? || HasPathPrefix(b, a).Some?
  }

  /** No other key contains, or is contained in, the source. */
  ghost predicate NoOverlap(keys: set<string>, from: string) {
    forall k :: k in keys && k != from ==> !Overlapping(from, k)
  }

  method CheckSyncOverlap(keys: set<string>, from: string) returns (r: Result<()>)
    ensures r.Ok? <==> NoOverlap(keys, from)
    ensures r.Err? ==>
      && r.error.Overlaps? && r.error.existing in keys && r.error.existing != from
      && Overlapping(from, r.error.existing)
  {
    var left := keys;
    while left != {}
      invariant left <= keys
      invariant NoOverlap(keys - left, from)
      decreases |left|
    {
      var existing :| existing in left;
      if existing != from {
        if HasPathPrefix(from, existing).Some? {
          return Err(Overlaps(existing));
        }
        if HasPathPrefix(existing, from).Some? {
          return Err(Overlaps(existing));
        }
      }
      left := left - {existing};
    }
    return Ok(());
  }

  // ------------------------------------------------------------------------ compatibility

  datatype Intent = Intent(from: string, to: string, git: bool, includes: seq<string>,
                           fileMode: string, dirMode: string)

  /** An unset desired mode is satisfied by any. */
  predicate ModesCompatible(existingFile: string, existingDir: string, desiredFile: string, desiredDir: string) {
    && (desiredFile == "" || desiredFile == existingFile)
    && (desiredDir == "" || desiredDir == existingDir)
  }

  predicate Sorted(s: seq<string>) {
    forall i, j :: 0 <= i < j < |s| ==> !StringLess(s[j], s[i])
  }

  /** The patterns agree up to order; no desired pattern is satisfied by any. */
  predicate SameIncludes(existing: seq<string>, desired: seq<string>) {
    desired == [] || multiset(existing) == multiset(desired)
  }

  method IncludesCompatible(existing: seq<string>, desired: seq<string>) returns (ok: bool)
    ensures ok <==> SameIncludes(existing, desired)
  {
    if |desired| == 0 {
      return true;
    }
    if |existing| != |desired| {
      assert |multiset(existing)| == |existing| && |multiset(desired)| == |desired|;
      return false;
    }
    var e := SortStrings(existing);
    var d := SortStrings(desired);
    ok := e == d;
    if multiset(existing) == multiset(desired) {
      SortedIsUnique(e, d);
    }
  }

  method SortStrings(s: seq<string>) returns (r: seq<string>)
    ensures Sorted(r) && multiset(r) == multiset(s)
  {
    r := [];
    for i := 0 to |s|
      invariant Sorted(r) && multiset(r) == multiset(s[..i])
    {
      r := InsertString(s[i], r);
      assert s[..i + 1] == s[..i] + [s[i]];
    }
    assert s[..|s|] == s;
  }

  function InsertString(x: string, s: seq<string>): (r: seq<string>)
    requires Sorted(s)
    ensures Sorted(r) && multiset(r) == multiset(s) + multiset{x}
    decreases |s|
  {
    if s == [] then [x]
    else if StringLess(s[0], x) then
      var rest := InsertString(x, s[1..]);
      InsertAfter(x, s, rest);
      [s[0]] + rest
    else
      InsertBefore(x, s);
      [x] + s
  }

  lemma InsertBefore(x: string, s: seq<string>)
    requires s != [] && Sorted(s) && !StringLess(s[0], x)
    ensures Sorted([x] + s)
  {
    forall j | 0 <= j < |s| ensures !StringLess(s[j], x) {
      NotLessTransitive(s[j], s[0], x);
    }
  }

  lemma NotLessTransitive(a: string, b: string, c: string)
    requires (a == b || !StringLess(a, b)) && !StringLess(b, c)
    ensures !StringLess(a, c)
  {
    StringLessTrichotomy(a, b);
    StringLessTrichotomy(b, c);
    if StringLess(b, a) && StringLess(c, b) {
      StringLessTransitive(c, b, a);
    }
    StringLessTrichotomy(a, c);
  }

  lemma InsertAfter(x: string, s: seq<string>, rest: seq<string>)
    requires s != [] && Sorted(s) && StringLess(s[0], x)
    requires Sorted(rest) && multiset(rest) == multiset(s[1..]) + multiset{x}
    ensures Sorted([s[0]] + rest) && multiset([s[0]] + rest) == multiset(s) + multiset{x}
  {
    assert s == [s[0]] + s[1..];
    StringLessTrichotomy(s[0], x);
    forall j | 0 <= j < |rest| ensures !StringLess(rest[j], s[0]) {
      assert rest[j] in multiset(rest);
      if rest[j] != x {
        assert rest[j] in multiset(s[1..]);
        assert rest[j] in s[1..];
      }
    }
  }

  /** A sorted arrangement is determined by what it holds. */
  lemma {:induction false} SortedIsUnique(a: seq<string>, b: seq<string>)
    requires Sorted(a) && Sorted(b) && multiset(a) == multiset(b)
    ensures a == b
    decreases |a|
  {
    assert |multiset(a)| == |a| && |multiset(b)| == |b|;
    if a != [] {
      LeastFirst(a, b);
      LeastFirst(b, a);
      StringLessTrichotomy(a[0], b[0]);
      assert a == [a[0]] + a[1..] && b == [b[0]] + b[1..];
      assert multiset(a[1..]) == multiset(a) - multiset{a[0]};
      assert multiset(b[1..]) == multiset(b) - multiset{b[0]};
      SortedIsUnique(a[1..], b[1..]);
    }
  }

  lemma LeastFirst(a: seq<string>, b: seq<string>)
    requires Sorted(a) && a != [] && b != [] && multiset(a) == multiset(b)
    ensures !StringLess(b[0], a[0])
  {
    assert b[0] in multiset(b);
    assert b[0] in a;
    StringLessTrichotomy(a[0], a[0]);
  }
}
