/**
 Marking the file name of a remote document with the connection it came from, and undoing it.
 */
module RemotePath {
  import opened Options
  import opened Strings

  /** The extension of a file name: from its last dot on. */
  function Ext(name: string): string {
    var dot := LastIndex(name, '.');
    if dot < 0 then "" else name[dot..]
  }

  /** The file name before its extension. */
  function Stem(name: string): string {
    var dot := LastIndex(name, '.');
    if dot < 0 then name else name[..dot]
  }

  predicate HasSuffix(s: string, suffix: string) {
    |suffix| <= |s| && s[|s| - |suffix|..] == suffix
  }

  function CutSuffix(s: string, suffix: string): Option<string> {
    if HasSuffix(s, suffix) then Some(s[..|s| - |suffix|]) else None
  }

  function Dir(path: string): string {
    path[..LastIndex(path, '/') + 1]
  }

  function Name(path: string): string {
    path[LastIndex(path, '/') + 1..]
  }

  function Marker(conn: string): string {
    "@" + conn
  }

  /** The marker goes before the extension; a name without a stem gets it appended. */
  function DecorateName(name: string, conn: string): string {
    if name == "" then name
    else if Stem(name) == "" then name + Marker(conn)
    else Stem(name) + Marker(conn) + Ext(name)
  }

  /** The marker is looked for before the extension first, then at the end. */
  function StripName(name: string, conn: string): string {
    var cut := CutSuffix(Stem(name), Marker(conn));
    if cut.Some? && cut.value != "" then cut.value + Ext(name)
    else
      var whole := CutSuffix(name, Marker(conn));
      if whole.Some? then whole.value else name
  }

  function Decorate(path: string, conn: string): string {
    Dir(path) + DecorateName(Name(path), conn)
  }

  function Strip(path: string, conn: string): string {
    Dir(path) + StripName(Name(path), conn)
  }

  // ---------------------------------------------------------------------------- facts

  /** A path whose last slash ends its directory part. */
  lemma PathParts(dir: string, name: string)
    requires dir == "" || dir[|dir| - 1] == '/'
    requires '/' !in name
    ensures Dir(dir + name) == dir && Name(dir + name) == name
  {
    LastIndexIs(dir + name, '/', |dir| - 1);
  }

  lemma PartsOfPath(path: string)
    ensures path == Dir(path) + Name(path)
    ensures Dir(path) == "" || Dir(path)[|Dir(path)| - 1] == '/'
    ensures '/' !in Name(path)
  {
    var i := LastIndex(path, '/');
    assert forall j :: 0 <= j < |Name(path)| ==> Name(path)[j] == path[i + 1 + j];
  }

  lemma PartsOfName(name: string)
    ensures name == Stem(name) + Ext(name)
    ensures Ext(name) != "" ==> Ext(name)[0] == '.' && '.' !in Ext(name)[1..]
    ensures Ext(name) == "" ==> '.' !in name
  {
    var i := LastIndex(name, '.');
    if i >= 0 {
      assert forall j :: 1 <= j < |Ext(name)| ==> Ext(name)[j] == name[i + j];
    }
  }

  /** A name put together from a stem and an extension. */
  lemma NameParts(stem: string, ext: string)
    requires ext != "" && ext[0] == '.' && '.' !in ext[1..]
    ensures Stem(stem + ext) == stem && Ext(stem + ext) == ext
  {
    var name := stem + ext;
    assert forall j :: |stem| < j < |name| ==> name[j] == ext[1..][j - |stem| - 1];
    LastIndexIs(name, '.', |stem|);
  }

  lemma NoDotParts(name: string)
    requires '.' !in name
    ensures Stem(name) == name && Ext(name) == ""
  {
    LastIndexIs(name, '.', -1);
  }

  lemma CutMarker(s: string, conn: string)
    ensures CutSuffix(s + Marker(conn), Marker(conn)) == Some(s)
  {
    assert (s + Marker(conn))[|s|..] == Marker(conn);
    assert (s + Marker(conn))[..|s|] == s;
  }

  function Dots(s: string): nat
    decreases |s|
  {
    if s == "" then 0 else (if s[0] == '.' then 1 else 0) + Dots(s[1..])
  }

  lemma {:induction false} DotsOfConcat(a: string, b: string)
    ensures Dots(a + b) == Dots(a) + Dots(b)
    decreases |a|
  {
    if a == "" {
      assert a + b == b;
    } else {
      assert (a + b)[1..] == a[1..] + b;
      DotsOfConcat(a[1..], b);
    }
  }

  lemma {:induction false} NoDots(s: string)
    ensures Dots(s) == 0 <==> '.' !in s
    decreases |s|
  {
    if s != "" {
      NoDots(s[1..]);
      assert s == [s[0]] + s[1..];
    }
  }

  /** A string has the dots of its suffix, and one more if it starts with a dot before it. */
  lemma SuffixDots(s: string, suffix: string)
    requires HasSuffix(s, suffix)
    ensures Dots(suffix) <= Dots(s)
    ensures |suffix| < |s| && s[0] == '.' ==> Dots(suffix) < Dots(s)
    ensures |suffix| == |s| ==> s == suffix
  {
    var x := s[..|s| - |suffix|];
    assert s == x + suffix;
    DotsOfConcat(x, suffix);
  }

  lemma {:induction false} DotsUpTo(conn: string, j: nat)
    requires j < |conn| && conn[j] == '.' && '.' !in conn[j + 1..]
    ensures Dots(conn[..j]) == Dots(conn) - 1
  {
    var tail := "." + conn[j + 1..];
    assert conn == conn[..j] + tail;
    DotsOfConcat(conn[..j], tail);
    assert tail[1..] == conn[j + 1..];
    NoDots(conn[j + 1..]);
  }

  lemma DotsOfName(name: string)
    requires name != "" && '.' !in name[1..]
    ensures Dots(name) == if name[0] == '.' then 1 else 0
  {
    NoDots(name[1..]);
  }

  lemma StemOfAppended(name: string, conn: string, j: nat)
    requires j < |conn| && conn[j] == '.' && forall i :: j < i < |conn| ==> conn[i] != '.'
    ensures Stem(name + Marker(conn)) == name + ("@" + conn[..j])
  {
    var whole := name + Marker(conn);
    forall i | |name| + 1 + j < i < |whole|
      ensures whole[i] != '.'
    {
      assert whole[i] == conn[i - |name| - 1];
    }
    LastIndexIs(whole, '.', |name| + 1 + j);
  }

  /** Appending a dotted connection name to a name with at most a leading dot: the last dot is the
      connection's, and what precedes it does not end in the marker. */
  lemma DottedMarkerIsNotInStem(name: string, conn: string)
    requires '.' in conn && name != "" && '.' !in name[1..]
    ensures !HasSuffix(Stem(name + Marker(conn)), Marker(conn))
  {
    var j := LastIndex(conn, '.');
    StemOfAppended(name, conn, j);
    var rest := "@" + conn[..j];
    var stem := name + rest;
    DotsUpTo(conn, j);
    DotsOfName(name);
    DotsOfConcat(name, rest);
    assert rest[1..] == conn[..j];
    assert Marker(conn)[1..] == conn;
    assert Dots(Marker(conn)) == Dots(conn);
    assert stem[0] == name[0];
    if HasSuffix(stem, Marker(conn)) {
      SuffixDots(stem, Marker(conn));
    }
  }

  // ------------------------------------------------------------------- the file name alone

  /** Past its first character, an undotted marker adds no dot. */
  lemma NoDotAppended(name: string, conn: string, i: nat)
    requires name != "" && '.' !in name[1..] && '.' !in conn && 0 < i < |name + Marker(conn)|
    ensures (name + Marker(conn))[i] != '.'
  {
    var marked := name + Marker(conn);
    if i < |name| {
      assert marked[i] == name[1..][i - 1];
    } else if i > |name| {
      assert marked[i] == conn[i - |name| - 1];
    }
  }

  lemma UndottedAppended(name: string, conn: string)
    requires name != "" && '.' !in name[1..] && '.' !in conn
    ensures Stem(name + Marker(conn)) == if name[0] == '.' then "" else name + Marker(conn)
    ensures Ext(name + Marker(conn)) == if name[0] == '.' then name + Marker(conn) else ""
  {
    var marked := name + Marker(conn);
    forall i | 0 < i < |marked|
      ensures marked[i] != '.'
    {
      NoDotAppended(name, conn, i);
    }
    LastIndexIs(marked, '.', if name[0] == '.' then 0 else -1);
  }

  /** A name without extension, or a dotfile: the marker goes to the end. */
  lemma StripAppended(name: string, conn: string)
    requires name != "" && '.' !in name[1..]
    ensures StripName(name + Marker(conn), conn) == name
  {
    CutMarker(name, conn);
    if '.' in conn {
      DottedMarkerIsNotInStem(name, conn);
    } else {
      UndottedAppended(name, conn);
    }
  }

  lemma StripInserted(stem: string, ext: string, conn: string)
    requires stem != "" && ext != "" && ext[0] == '.' && '.' !in ext[1..]
    ensures StripName(stem + Marker(conn) + ext, conn) == stem + ext
  {
    NameParts(stem + Marker(conn), ext);
    CutMarker(stem, conn);
  }

  lemma StripNameUndoesDecorateName(name: string, conn: string)
    ensures StripName(DecorateName(name, conn), conn) == name
  {
    PartsOfName(name);
    if name == "" {
      NoDotParts("");
    } else if Stem(name) == "" {
      assert name == Ext(name);
      StripAppended(name, conn);
    } else if Ext(name) == "" {
      assert DecorateName(name, conn) == name + Marker(conn);
      StripAppended(name, conn);
    } else {
      StripInserted(Stem(name), Ext(name), conn);
    }
  }

  /** What decorating does to the extension of a name with a stem. */
  lemma ExtOfDecoratedName(name: string, conn: string)
    requires Stem(name) != ""
    ensures Ext(DecorateName(name, conn)) == Ext(name) <==> Ext(name) != "" || '.' !in conn
  {
    PartsOfName(name);
    if Ext(name) != "" {
      NameParts(Stem(name) + Marker(conn), Ext(name));
    } else {
      assert DecorateName(name, conn) == name + Marker(conn);
      if '.' in conn {
        var j := LastIndex(conn, '.');
        assert (name + Marker(conn))[|name| + 1 + j] == '.';
      } else {
        UndottedAppended(name, conn);
      }
    }
  }

  // -------------------------------------------------------------------------- theorems

  lemma DecoratedNameHasNoSlash(name: string, conn: string)
    requires '/' !in name && '/' !in conn
    ensures '/' !in DecorateName(name, conn)
  {
    PartsOfName(name);
    assert forall i :: 0 <= i < |Ext(name)| ==> Ext(name)[i] == name[|Stem(name)| + i];
  }

  /** The round trip: for every path and every connection name without a slash, dots and dotfiles and
      files already ending in the marker included, stripping undoes decorating. */
  lemma StripUndoesDecorate(path: string, conn: string)
    requires '/' !in conn
    ensures Strip(Decorate(path, conn), conn) == path
  {
    PartsOfPath(path);
    var name := DecorateName(Name(path), conn);
    DecoratedNameHasNoSlash(Name(path), conn);
    PathParts(Dir(path), name);
    StripNameUndoesDecorateName(Name(path), conn);
  }

  /** No two remote files are shown under one decorated path. */
  lemma DecorateIsInjective(a: string, b: string, conn: string)
    requires '/' !in conn && Decorate(a, conn) == Decorate(b, conn)
    ensures a == b
  {
    StripUndoesDecorate(a, conn);
    StripUndoesDecorate(b, conn);
  }

  lemma ExtOfConcat(a: string, b: string)
    requires '.' in b
    ensures Ext(a + b) == Ext(b)
  {
    var i := LastIndex(b, '.');
    var whole := a + b;
    forall j | |a| + i < j < |whole| ensures whole[j] != '.' {
      assert whole[j] == b[j - |a|];
    }
    LastIndexIs(whole, '.', |a| + i);
  }

  /** A name without a stem gets the marker at its end, and with it the connection's extension. */
  lemma DottedDotfile(name: string, conn: string)
    requires '.' in conn
    ensures Ext(name + Marker(conn)) == Ext(conn)
  {
    var mark := Marker(conn);
    ExtOfConcat("@", conn);
    assert mark[LastIndex(conn, '.') + 1] == '.';
    ExtOfConcat(name, mark);
  }

  lemma ExtOfDecoratedDotfile(name: string, conn: string)
    requires name != "" && Stem(name) == ""
    ensures Ext(name + Marker(conn)) == Ext(name) <==> Ext(conn) == name
  {
    PartsOfName(name);
    assert name == Ext(name);
    if '.' in conn {
      DottedDotfile(name, conn);
    } else {
      NoDotParts(conn);
      var marked := name + Marker(conn);
      UndottedAppended(name, conn);
      assert |marked| == |name| + 1 + |conn|;
    }
  }

  predicate KeepsExtension(name: string, conn: string) {
    if name == "" then true
    else if Stem(name) == "" then Ext(conn) == name
    else Ext(name) != "" || '.' !in conn
  }

  lemma NameExtensionKeptIff(name: string, conn: string)
    ensures Ext(DecorateName(name, conn)) == Ext(name) <==> KeepsExtension(name, conn)
  {
    if Stem(name) != "" {
      ExtOfDecoratedName(name, conn);
    } else if name != "" {
      ExtOfDecoratedDotfile(name, conn);
    }
  }

  lemma NameOfDecorated(path: string, conn: string)
    requires '/' !in conn
    ensures Name(Decorate(path, conn)) == DecorateName(Name(path), conn)
  {
    PartsOfPath(path);
    DecoratedNameHasNoSlash(Name(path), conn);
    PathParts(Dir(path), DecorateName(Name(path), conn));
  }

  /** An editor sees the same extension on a decorated file exactly when the path names no file; or
      the file has a stem, and an extension or a connection whose name has no dot to be taken for one;
      or it has no stem and happens to be named like the connection's own extension. */
  lemma ExtensionKeptIff(path: string, conn: string)
    requires '/' !in conn
    ensures Ext(Name(Decorate(path, conn))) == Ext(Name(path)) <==> KeepsExtension(Name(path), conn)
  {
    NameOfDecorated(path, conn);
    NameExtensionKeptIff(Name(path), conn);
  }

  lemma MiddleIsDetermined(front: string, x: string, y: string, back: string)
    requires front + x + back == front + y + back
    ensures x == y
  {
    var whole := front + x + back;
    assert x == whole[|front|..|whole| - |back|];
    assert y == whole[|front|..|whole| - |back|];
  }

  lemma Regroup(a: string, b: string, c: string, d: string)
    ensures a + (b + c + d) == (a + b) + c + d
  {
  }

  lemma DecoratedShape(path: string, conn: string, base: string, back: string)
    requires Name(path) != ""
    requires base == if Stem(Name(path)) == "" then Name(path) else Stem(Name(path))
    requires back == if Stem(Name(path)) == "" then "" else Ext(Name(path))
    ensures Decorate(path, conn) == (Dir(path) + base) + Marker(conn) + back
  {
    var mark := Marker(conn);
    Regroup(Dir(path), base, mark, back);
    assert DecorateName(Name(path), conn) == base + mark + back by {
      if back == "" {
        assert base + mark + back == base + mark;
      }
    }
  }

  /** The mark tells connections apart, and a remote file from a local one. */
  lemma DecorateTellsConnections(path: string, a: string, b: string)
    requires Name(path) != ""
    ensures |Decorate(path, a)| == |path| + 1 + |a|
    ensures Decorate(path, a) == Decorate(path, b) ==> a == b
  {
    PartsOfPath(path);
    PartsOfName(Name(path));
    var base := if Stem(Name(path)) == "" then Name(path) else Stem(Name(path));
    var back := if Stem(Name(path)) == "" then "" else Ext(Name(path));
    DecoratedShape(path, a, base, back);
    DecoratedShape(path, b, base, back);
    if Decorate(path, a) == Decorate(path, b) {
      MiddleIsDetermined(Dir(path) + base, Marker(a), Marker(b), back);
      assert a == Marker(a)[1..] && b == Marker(b)[1..];
    }
  }

  // ------------------------------------------------------------- minting and unminting URIs

  datatype Uri = Uri(scheme: string, host: string, path: string)

  function Lower(c: char): char {
    if 'A' <= c <= 'Z' then c + ('a' - 'A') else c
  }

  predicate EqualFold(a: string, b: string) {
    |a| == |b| && forall i :: 0 <= i < |a| ==> Lower(a[i]) == Lower(b[i])
  }

  /** Pointing a client at the content of a remote-only file. */
  function Mint(u: Uri, conn: string): Uri {
    if u.scheme != "file" then u else Uri("graft", conn, Decorate(u.path, conn))
  }

  /** Handing the real path back to the language server. */
  function Unmint(u: Uri, conn: string): Uri {
    if u.scheme != "graft" || !EqualFold(u.host, conn) then u else Uri("file", "", Strip(u.path, conn))
  }

  /** A minted URI comes back as the file it stood for, exactly when that file URI named no host. */
  lemma UnmintUndoesMintIff(u: Uri, conn: string)
    requires '/' !in conn && u.scheme == "file"
    ensures Unmint(Mint(u, conn), conn) == u.(host := "")
    ensures Unmint(Mint(u, conn), conn) == u <==> u.host == ""
  {
    StripUndoesDecorate(u.path, conn);
  }
}
