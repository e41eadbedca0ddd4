/**
 Slash-separated paths: lexical cleaning, joining, and containment on directory boundaries.
 */
module Paths {
  import opened Strings
  import opened Options

  // --------------------------------------------------------------- splitting and pasting

  /** Puts a character in front: a slash begins a new part. */
  function Push(c: char, rest: seq<string>): seq<string>
    requires rest != []
  {
    if c == '/' then [""] + rest else [[c] + rest[0]] + rest[1..]
  }

  /** Cuts at every slash. */
  function Split(s: string): (parts: seq<string>)
    ensures |parts| >= 1
  {
    if s == "" then [""] else Push(s[0], Split(s[1..]))
  }

  function Paste(parts: seq<string>): string {
    if parts == [] then ""
    else if |parts| == 1 then parts[0]
    else parts[0] + "/" + Paste(parts[1..])
  }

  predicate Slashless(parts: seq<string>) {
    forall p :: p in parts ==> '/' !in p
  }

  lemma {:induction false} SplitIsSlashless(s: string)
    ensures Slashless(Split(s))
  {
    if s != "" {
      SplitIsSlashless(s[1..]);
      var rest := Split(s[1..]);
      assert rest[0] in rest;
      assert forall p :: p in rest[1..] ==> p in rest;
    }
  }

  lemma {:induction false} SplitOfPart(p: string)
    requires '/' !in p
    ensures Split(p) == [p]
  {
    if p != "" {
      SplitOfPart(p[1..]);
      assert p == [p[0]] + p[1..];
    }
  }

  lemma PushOfAppend(c: char, a: seq<string>, b: seq<string>)
    requires a != []
    ensures Push(c, a + b) == Push(c, a) + b
  {
    assert (a + b)[1..] == a[1..] + b;
  }

  /** Splitting distributes over a slash. */
  lemma {:induction false} SplitAtSlash(a: string, b: string)
    ensures Split(a + "/" + b) == Split(a) + Split(b)
    decreases |a|
  {
    var s := a + "/" + b;
    if a == "" {
      assert s[1..] == b;
    } else {
      SplitAtSlash(a[1..], b);
      assert s[0] == a[0] && s[1..] == a[1..] + "/" + b;
      PushOfAppend(a[0], Split(a[1..]), Split(b));
    }
  }

  lemma {:induction false} SplitOfPaste(parts: seq<string>)
    requires parts != [] && Slashless(parts)
    ensures Split(Paste(parts)) == parts
    decreases |parts|
  {
    SplitOfPart(parts[0]);
    if |parts| > 1 {
      SplitOfPaste(parts[1..]);
      SplitAtSlash(parts[0], Paste(parts[1..]));
    }
  }

  lemma {:induction false} PasteOfAppend(a: seq<string>, b: seq<string>)
    requires a != [] && b != []
    ensures Paste(a + b) == Paste(a) + "/" + Paste(b)
    decreases |a|
  {
    assert (a + b)[1..] == a[1..] + b;
    if |a| > 1 {
      PasteOfAppend(a[1..], b);
      assert a[0] + "/" + (Paste(a[1..]) + "/" + Paste(b)) == (a[0] + "/" + Paste(a[1..])) + "/" + Paste(b);
    }
  }

  // -------------------------------------------------------------------- lexical cleaning

  predicate IsAbs(path: string) {
    path != "" && path[0] == '/'
  }

  /** One component read against the components kept so far. */
  function Enter(stack: seq<string>, part: string, rooted: bool): seq<string> {
    if part == "" || part == "." then stack
    else if part == ".." then
      if stack != [] && stack[|stack| - 1] != ".." then stack[..|stack| - 1]
      else if rooted then stack
      else stack + [".."]
    else stack + [part]
  }

  function Walk(stack: seq<string>, parts: seq<string>, rooted: bool): seq<string>
    decreases |parts|
  {
    if parts == [] then stack else Walk(Enter(stack, parts[0], rooted), parts[1..], rooted)
  }

  /** The components a path stands for. */
  function Components(path: string): seq<string> {
    Walk([], Split(path), IsAbs(path))
  }

  function Show(rooted: bool, stack: seq<string>): string {
    if rooted then "/" + Paste(stack) else if stack == [] then "." else Paste(stack)
  }

  function Clean(path: string): string {
    if path == "" then "." else Show(IsAbs(path), Components(path))
  }

  /** Joins two path elements, ignoring empty ones. */
  function JoinPath(a: string, b: string): string {
    if a == "" then (if b == "" then "" else Clean(b))
    else if b == "" then Clean(a)
    else Clean(a + "/" + b)
  }

  function ParentDir(path: string): string {
    Clean(path[..LastIndex(path, '/') + 1])
  }

  // --------------------------------------------------------------- cleaned paths are normal

  /** No empty, dot or slashed component; parent references only lead a relative path. */
  predicate Normal(stack: seq<string>, rooted: bool) {
    && Slashless(stack)
    && (forall i :: 0 <= i < |stack| ==> stack[i] != "" && stack[i] != ".")
    && (forall i :: 0 <= i < |stack| && stack[i] == ".." ==> !rooted && (i == 0 || stack[i - 1] == ".."))
  }

  lemma EnterKeepsNormal(stack: seq<string>, part: string, rooted: bool)
    requires Normal(stack, rooted) && '/' !in part
    ensures Normal(Enter(stack, part, rooted), rooted)
  {
    var next := Enter(stack, part, rooted);
    if |next| > |stack| {
      assert next[..|stack|] == stack;
      assert forall p :: p in next ==> p in stack || p == next[|stack|];
    } else {
      assert forall p :: p in next ==> p in stack;
    }
  }

  lemma {:induction false} WalkKeepsNormal(stack: seq<string>, parts: seq<string>, rooted: bool)
    requires Normal(stack, rooted) && Slashless(parts)
    ensures Normal(Walk(stack, parts, rooted), rooted)
    decreases |parts|
  {
    if parts != [] {
      assert parts[0] in parts;
      assert forall p :: p in parts[1..] ==> p in parts;
      EnterKeepsNormal(stack, parts[0], rooted);
      WalkKeepsNormal(Enter(stack, parts[0], rooted), parts[1..], rooted);
    }
  }

  lemma ComponentsAreNormal(path: string)
    ensures Normal(Components(path), IsAbs(path))
  {
    SplitIsSlashless(path);
    WalkKeepsNormal([], Split(path), IsAbs(path));
  }

  lemma {:induction false} WalkOfAppend(stack: seq<string>, a: seq<string>, b: seq<string>, rooted: bool)
    ensures Walk(stack, a + b, rooted) == Walk(Walk(stack, a, rooted), b, rooted)
    decreases |a|
  {
    if a == [] {
      assert a + b == b;
    } else {
      assert (a + b)[1..] == a[1..] + b;
      WalkOfAppend(Enter(stack, a[0], rooted), a[1..], b, rooted);
    }
  }

  /** Walking normal components keeps every one of them. */
  lemma {:induction false} WalkOfNormal(stack: seq<string>, parts: seq<string>, rooted: bool)
    requires Normal(stack + parts, rooted)
    ensures Walk(stack, parts, rooted) == stack + parts
    decreases |parts|
  {
    if parts == [] {
      assert stack + parts == stack;
    } else {
      var all, n := stack + parts, |stack|;
      assert all[n] == parts[0];
      assert n > 0 ==> all[n - 1] == stack[n - 1];
      assert Enter(stack, parts[0], rooted) == stack + [parts[0]];
      assert stack + [parts[0]] + parts[1..] == all;
      WalkOfNormal(stack + [parts[0]], parts[1..], rooted);
    }
  }

  lemma {:induction false} PasteStartsWell(stack: seq<string>)
    requires stack != [] && stack[0] != ""
    ensures Paste(stack) != "" && Paste(stack)[0] == stack[0][0]
  {
  }

  /** Reading back what cleaning shows. */
  lemma ComponentsOfShow(rooted: bool, stack: seq<string>)
    requires Normal(stack, rooted)
    ensures IsAbs(Show(rooted, stack)) == rooted
    ensures Components(Show(rooted, stack)) == stack
  {
    assert [] + stack == stack;
    WalkOfNormal([], stack, rooted);
    if stack == [] {
      if rooted {
        SplitAtSlash("", "");
        assert "" + "/" + "" == "/";
        assert Walk([], [""], true) == [];
        assert Walk([], ["", ""], true) == [] by { assert ["", ""][1..] == [""]; }
      } else {
        SplitOfPart(".");
        assert Walk([], ["."], false) == [];
      }
    } else {
      assert stack[0] in stack;
      PasteStartsWell(stack);
      SplitOfPaste(stack);
      if rooted {
        var s := "/" + Paste(stack);
        assert s[1..] == Paste(stack);
        assert Split(s) == [""] + stack;
        assert ([""] + stack)[1..] == stack;
      }
    }
  }

  /** Cleaning keeps what the path stands for, and is idempotent. */
  lemma CleanKeepsMeaning(path: string)
    requires path != ""
    ensures IsAbs(Clean(path)) == IsAbs(path)
    ensures Components(Clean(path)) == Components(path)
    ensures Clean(Clean(path)) == Clean(path)
  {
    ComponentsAreNormal(path);
    ComponentsOfShow(IsAbs(path), Components(path));
  }

  // ------------------------------------------------------------------- roots and parents

  /** Characters needed to write the components, each with a separator. */
  function Width(parts: seq<string>): nat {
    if parts == [] then 0 else |parts[0]| + 1 + Width(parts[1..])
  }

  lemma {:induction false} WidthOfAppend(a: seq<string>, b: seq<string>)
    ensures Width(a + b) == Width(a) + Width(b)
  {
    if a == [] {
      assert a + b == b;
    } else {
      assert (a + b)[1..] == a[1..] + b;
      WidthOfAppend(a[1..], b);
    }
  }

  lemma {:induction false} WidthOfSplit(s: string)
    ensures Width(Split(s)) == |s| + 1
  {
    if s != "" {
      WidthOfSplit(s[1..]);
      var rest := Split(s[1..]);
      if s[0] == '/' {
        assert ([""] + rest)[1..] == rest;
      } else {
        assert ([[s[0]] + rest[0]] + rest[1..])[1..] == rest[1..];
      }
    } else {
      assert [""][1..] == [];
    }
  }

  lemma {:induction false} WidthOfPaste(parts: seq<string>)
    requires parts != []
    ensures |Paste(parts)| + 1 == Width(parts)
    decreases |parts|
  {
    if |parts| > 1 {
      WidthOfPaste(parts[1..]);
    } else {
      assert parts[1..] == [];
    }
  }

  lemma {:induction false} WalkNeverWidens(stack: seq<string>, parts: seq<string>, rooted: bool)
    ensures Width(Walk(stack, parts, rooted)) <= Width(stack) + Width(parts)
    decreases |parts|
  {
    if parts != [] {
      var next := Enter(stack, parts[0], rooted);
      if |next| > |stack| {
        WidthOfAppend(stack, [parts[0]]);
      } else if |next| < |stack| {
        WidthOfAppend(next, stack[|next|..]);
        assert stack == next + stack[|next|..];
      }
      WalkNeverWidens(next, parts[1..], rooted);
    }
  }

  lemma CleanNeverGrows(path: string)
    requires path != ""
    ensures |Clean(path)| <= |path|
  {
    var parts, stack := Split(path), Components(path);
    WidthOfSplit(path);
    if stack != [] {
      WidthOfPaste(stack);
    }
    if IsAbs(path) {
      assert Walk([], parts, true) == Walk([], parts[1..], true);
      WalkNeverWidens([], parts[1..], true);
    } else {
      WalkNeverWidens([], parts, false);
    }
  }

  lemma {:induction false} PasteEndsWell(stack: seq<string>)
    requires stack != [] && stack[|stack| - 1] != ""
    ensures Paste(stack) != ""
    ensures var last := stack[|stack| - 1]; Paste(stack)[|Paste(stack)| - 1] == last[|last| - 1]
    decreases |stack|
  {
    if |stack| > 1 {
      PasteEndsWell(stack[1..]);
    }
  }

  /** A cleaned path is its own parent exactly when it has no component. */
  lemma OwnParentIff(path: string)
    requires path == Clean(path)
    ensures path == ParentDir(path) <==> Components(path) == []
  {
    ComponentsAreNormal(path);
    var stack := Components(path);
    var head := path[..LastIndex(path, '/') + 1];
    if stack == [] {
      assert path == "/" || path == ".";
      if path == "/" {
        assert head == "/";
      } else {
        assert head == "";
      }
    } else {
      var last := stack[|stack| - 1];
      assert last in stack;
      PasteEndsWell(stack);
      assert path[|path| - 1] == last[|last| - 1];
      if head != "" {
        CleanNeverGrows(head);
      } else {
        ComponentsOfShow(false, []);
      }
    }
  }

  // ------------------------------------------------------------------------- containment

  /** What follows the prefix, when the prefix ends on a directory boundary. */
  function HasPathPrefix(path: string, prefix: string): Option<string> {
    if prefix <= path then
      var after := path[|prefix|..];
      if after != "" && after[0] != '/' then None else Some(after)
    else None
  }

  /** An absolute, cleaned path other than the root. */
  predicate Canonical(path: string) {
    IsAbs(path) && path == Clean(path) && Components(path) != []
  }

  lemma CanonicalShape(path: string)
    requires Canonical(path)
    ensures Normal(Components(path), true)
    ensures path == "/" + Paste(Components(path))
    ensures Split(Paste(Components(path))) == Components(path)
  {
    ComponentsAreNormal(path);
    SplitOfPaste(Components(path));
  }

  lemma ContainedHasPrefix(path: string, prefix: string)
    requires Canonical(path) && Canonical(prefix) && Components(prefix) <= Components(path)
    ensures HasPathPrefix(path, prefix).Some?
  {
    var p, q := Components(path), Components(prefix);
    CanonicalShape(path);
    CanonicalShape(prefix);
    if p == q {
      PrefixSelf(path);
    } else {
      var rest := p[|q|..];
      PasteOfAppend(q, rest);
      assert p == q + rest;
      assert path == prefix + ("/" + Paste(rest));
      assert path[|prefix|..] == "/" + Paste(rest);
    }
  }

  lemma PrefixIsContained(path: string, prefix: string)
    requires Canonical(path) && Canonical(prefix) && HasPathPrefix(path, prefix).Some?
    ensures Components(prefix) <= Components(path)
  {
    var after := path[|prefix|..];
    assert path == prefix + after;
    if after == "" {
      assert path == prefix;
    } else {
      CanonicalShape(path);
      CanonicalShape(prefix);
      var p, q := Paste(Components(path)), Paste(Components(prefix));
      assert after == "/" + after[1..];
      assert p == path[1..] && q == prefix[1..];
      assert p == q + "/" + after[1..];
      SplitAtSlash(q, after[1..]);
    }
  }

  /** For canonical paths the textual prefix test is containment of directories. */
  lemma PrefixIsContainment(path: string, prefix: string)
    requires Canonical(path) && Canonical(prefix)
    ensures HasPathPrefix(path, prefix).Some? <==> Components(prefix) <= Components(path)
  {
    if Components(prefix) <= Components(path) {
      ContainedHasPrefix(path, prefix);
    }
    if HasPathPrefix(path, prefix).Some? {
      PrefixIsContained(path, prefix);
    }
  }

  /** Two directories that both contain a path contain one another. */
  lemma PrefixesAreNested(path: string, a: string, b: string)
    requires HasPathPrefix(path, a).Some? && HasPathPrefix(path, b).Some? && |a| <= |b|
    ensures HasPathPrefix(b, a).Some?
  {
    assert a == path[..|a|] && b == path[..|b|];
    assert a == b[..|a|];
    if |a| < |b| {
      assert b[|a|..][0] == path[|a|..][0];
    }
  }

  lemma PrefixSelf(path: string)
    ensures HasPathPrefix(path, path) == Some("")
  {
    assert path[|path|..] == "";
  }

  // ------------------------------------------------------------------------- translation

  lemma SplitOfRest(path: string, prefix: string)
    requires Canonical(path) && Canonical(prefix) && HasPathPrefix(path, prefix).Some?
    ensures Components(prefix) <= Components(path)
    ensures var after := HasPathPrefix(path, prefix).value;
      var rest := Components(path)[|Components(prefix)|..];
      if after == "" then rest == [] else Split(after) == [""] + rest
  {
    PrefixIsContained(path, prefix);
    var after := path[|prefix|..];
    assert path == prefix + after;
    if after == "" {
      assert path == prefix;
    } else {
      CanonicalShape(path);
      CanonicalShape(prefix);
      var p, q := Paste(Components(path)), Paste(Components(prefix));
      assert after == "" + "/" + after[1..];
      assert p == path[1..] && q == prefix[1..];
      assert p == q + "/" + after[1..];
      SplitAtSlash(q, after[1..]);
      SplitAtSlash("", after[1..]);
    }
  }

  lemma NormalTogether(a: seq<string>, b: seq<string>, n: nat)
    requires Normal(a, true) && Normal(b, true) && n <= |b|
    ensures Normal(a + b[n..], true)
  {
    assert forall p :: p in a + b[n..] ==> p in a || p in b;
  }

  /** Moving a path from under one directory to under another keeps its place below it. */
  lemma TranslationKeepsPlace(path: string, prefix: string, target: string)
    requires Canonical(path) && Canonical(prefix) && HasPathPrefix(path, prefix).Some?
    requires IsAbs(target)
    ensures Components(prefix) <= Components(path)
    ensures Components(JoinPath(target, HasPathPrefix(path, prefix).value))
         == Components(target) + Components(path)[|Components(prefix)|..]
  {
    SplitOfRest(path, prefix);
    var after := HasPathPrefix(path, prefix).value;
    var rest := Components(path)[|Components(prefix)|..];
    if after == "" {
      CleanKeepsMeaning(target);
      assert Components(target) + rest == Components(target);
    } else {
      var whole := target + "/" + after;
      assert IsAbs(whole);
      CleanKeepsMeaning(whole);
      SplitAtSlash(target, after);
      WalkOfAppend([], Split(target), Split(after), true);
      assert ([""] + rest)[1..] == rest;
      assert Walk(Components(target), [""] + rest, true) == Walk(Components(target), rest, true);
      ComponentsAreNormal(target);
      ComponentsAreNormal(path);
      NormalTogether(Components(target), Components(path), |Components(prefix)|);
      WalkOfNormal(Components(target), rest, true);
    }
  }
}
