/**
 Expanding the tokens of an SSH ProxyCommand. The implementation chains six textual replacements
 through a sentinel; the meaning is a single left-to-right pass, as the TOKENS section of
 ssh_config(5) describes.
 */
module ProxyTokens {

  predicate HasPrefix(s: string, prefix: string) {
    |prefix| <= |s| && s[..|prefix|] == prefix
  }

  /** Replaces non-overlapping occurrences, left to right. */
  function ReplaceAll(s: string, old': string, new': string): string
    requires old' != ""
    decreases |s|
  {
    if s == "" then ""
    else if HasPrefix(s, old') then new' + ReplaceAll(s[|old'|..], old', new')
    else [s[0]] + ReplaceAll(s[1..], old', new')
  }

  const SENTINEL: string := "\0PERCENT\0"

  datatype Values = Values(host: string, port: string, user: string, alias: string)

  function ReplaceToken(s: string, letter: char, value: string): string {
    ReplaceAll(s, ['%', letter], value)
  }

  function SubstituteProxyTokens(cmd: string, v: Values): string {
    var c1 := ReplaceToken(cmd, '%', SENTINEL);
    var c2 := ReplaceToken(c1, 'h', v.host);
    var c3 := ReplaceToken(c2, 'p', v.port);
    var c4 := ReplaceToken(c3, 'r', v.user);
    var c5 := ReplaceToken(c4, 'n', v.alias);
    ReplaceAll(c5, SENTINEL, "%")
  }

  predicate StartsWithToken(cmd: string) {
    |cmd| >= 2 && cmd[0] == '%' && cmd[1] in {'%', 'h', 'p', 'r', 'n'}
  }

  /** One left-to-right pass; anything that is not a token stays. */
  function Expand(cmd: string, v: Values): string
    decreases |cmd|
  {
    if cmd == "" then ""
    else if StartsWithToken(cmd) then
      (match cmd[1]
       case '%' => "%"
       case 'h' => v.host
       case 'p' => v.port
       case 'r' => v.user
       case _ => v.alias) + Expand(cmd[2..], v)
    else [cmd[0]] + Expand(cmd[1..], v)
  }

  // -------------------------------------------------------------------------- pieces

  /** A command cut into tokens and other characters. */
  datatype Piece = Percent | Host | Port | User | Alias | Plain(c: char)

  function Pieces(cmd: string): seq<Piece>
    decreases |cmd|
  {
    if cmd == "" then []
    else if StartsWithToken(cmd) then
      [match cmd[1]
       case '%' => Percent
       case 'h' => Host
       case 'p' => Port
       case 'r' => User
       case _ => Alias] + Pieces(cmd[2..])
    else [Plain(cmd[0])] + Pieces(cmd[1..])
  }

  /** How far the chain of replacements has come: how many of the five tokens are replaced. */
  function Render(p: Piece, v: Values, stage: nat): string {
    match p
    case Plain(c) => [c]
    case Percent => if stage >= 6 then "%" else if stage >= 1 then SENTINEL else "%%"
    case Host => if stage >= 2 then v.host else "%h"
    case Port => if stage >= 3 then v.port else "%p"
    case User => if stage >= 4 then v.user else "%r"
    case Alias => if stage >= 5 then v.alias else "%n"
  }

  function RenderAll(ps: seq<Piece>, v: Values, stage: nat): string
    decreases |ps|
  {
    if ps == [] then "" else Render(ps[0], v, stage) + RenderAll(ps[1..], v, stage)
  }

  /** A bare percent is followed by nothing, or by a character that makes no token with it; and no
      character is NUL. */
  predicate WellCut(ps: seq<Piece>)
    decreases |ps|
  {
    ps != [] ==>
      && WellCut(ps[1..])
      && ps[0] != Plain('\0')
      && (ps[0] == Plain('%') && |ps| > 1 ==> ps[1].Plain? && ps[1].c !in {'%', 'h', 'p', 'r', 'n'})
  }

  lemma {:induction false} PiecesAreWellCut(cmd: string)
    requires '\0' !in cmd
    ensures WellCut(Pieces(cmd))
    ensures cmd != "" && cmd[0] !in {'%'} ==> Pieces(cmd) != [] && Pieces(cmd)[0] == Plain(cmd[0])
    decreases |cmd|
  {
    if cmd != "" {
      if StartsWithToken(cmd) {
        PiecesAreWellCut(cmd[2..]);
        assert Pieces(cmd)[1..] == Pieces(cmd[2..]);
      } else {
        PiecesAreWellCut(cmd[1..]);
        assert Pieces(cmd)[1..] == Pieces(cmd[1..]);
      }
    }
  }

  /** The first piece spells the first token or character. */
  lemma FirstPieceSpells(cmd: string, v: Values)
    requires cmd != ""
    ensures
      var n := if StartsWithToken(cmd) then 2 else 1;
      Pieces(cmd) != [] && Render(Pieces(cmd)[0], v, 0) == cmd[..n] && Pieces(cmd)[1..] == Pieces(cmd[n..])
  {
    if StartsWithToken(cmd) {
      assert cmd[..2] == [cmd[0], cmd[1]];
    } else {
      assert cmd[..1] == [cmd[0]];
    }
  }

  lemma {:induction false} PiecesSpellCommand(cmd: string, v: Values)
    ensures RenderAll(Pieces(cmd), v, 0) == cmd
    decreases |cmd|
  {
    if cmd != "" {
      var n := if StartsWithToken(cmd) then 2 else 1;
      FirstPieceSpells(cmd, v);
      PiecesSpellCommand(cmd[n..], v);
      assert cmd == cmd[..n] + cmd[n..];
    }
  }

  lemma {:induction false} PiecesExpand(cmd: string, v: Values)
    ensures RenderAll(Pieces(cmd), v, 6) == Expand(cmd, v)
    decreases |cmd|
  {
    if cmd != "" {
      if StartsWithToken(cmd) {
        PiecesExpand(cmd[2..], v);
        assert Pieces(cmd)[1..] == Pieces(cmd[2..]);
      } else {
        PiecesExpand(cmd[1..], v);
        assert Pieces(cmd)[1..] == Pieces(cmd[1..]);
      }
    }
  }

  // -------------------------------------------------------------------- one replacement

  /** Every percent in a is followed, inside a, by a character other than t. */
  predicate Inert(a: string, t: char) {
    forall i :: 0 <= i < |a| && a[i] == '%' ==> i + 1 < |a| && a[i + 1] != t
  }

  /** Text that cannot take part in a match passes through. */
  lemma {:induction false} InertPasses(a: string, b: string, t: char, new': string)
    requires Inert(a, t)
    ensures ReplaceAll(a + b, ['%', t], new') == a + ReplaceAll(b, ['%', t], new')
    decreases |a|
  {
    if a == "" {
      assert a + b == b;
    } else {
      assert (a + b)[0] == a[0] && (a + b)[1..] == a[1..] + b;
      NotAPair(a + b, t);
      InertPasses(a[1..], b, t, new');
      assert a == [a[0]] + a[1..];
    }
  }

  lemma NotAPair(s: string, t: char)
    requires |s| < 2 || s[0] != '%' || s[1] != t
    ensures !HasPrefix(s, ['%', t])
  {
    if |s| >= 2 {
      assert s[..2] == [s[0], s[1]];
    }
  }

  lemma NotAPrefix(s: string, old': string)
    requires s != "" && old' != "" && s[0] != old'[0]
    ensures !HasPrefix(s, old')
  {
    if |old'| <= |s| {
      assert s[..|old'|][0] == s[0];
    }
  }

  lemma {:induction false} FreePasses(a: string, b: string, old': string, new': string)
    requires old' != "" && old'[0] !in a
    ensures ReplaceAll(a + b, old', new') == a + ReplaceAll(b, old', new')
    decreases |a|
  {
    if a == "" {
      assert a + b == b;
    } else {
      assert (a + b)[0] == a[0] && (a + b)[1..] == a[1..] + b;
      NotAPrefix(a + b, old');
      FreePasses(a[1..], b, old', new');
      assert a == [a[0]] + a[1..];
    }
  }

  lemma ReplaceHits(b: string, old': string, new': string)
    requires old' != ""
    ensures ReplaceAll(old' + b, old', new') == new' + ReplaceAll(b, old', new')
  {
    assert (old' + b)[..|old'|] == old' && (old' + b)[|old'|..] == b;
  }

  /** A percent that the next character does not complete stays. */
  lemma PercentStays(b: string, t: char, new': string)
    requires b == "" || b[0] != t
    ensures ReplaceAll("%" + b, ['%', t], new') == "%" + ReplaceAll(b, ['%', t], new')
  {
    NotAPair("%" + b, t);
    assert ("%" + b)[1..] == b;
  }

  // ------------------------------------------------------------------ the six replacements

  function Letter(stage: nat): char
    requires stage < 5
  {
    if stage == 0 then '%' else if stage == 1 then 'h' else if stage == 2 then 'p'
    else if stage == 3 then 'r' else 'n'
  }

  function Replacement(stage: nat, v: Values): string
    requires stage < 5
  {
    if stage == 0 then SENTINEL else if stage == 1 then v.host else if stage == 2 then v.port
    else if stage == 3 then v.user else v.alias
  }

  /** An earlier value cannot make a token with what follows or inside itself, or that token is
      replaced by itself. */
  predicate Spared(value: string, t: char, own: string) {
    Inert(value, t) || own == ['%', t]
  }

  predicate Harmless(v: Values) {
    && '\0' !in v.host && '\0' !in v.port && '\0' !in v.user && '\0' !in v.alias
    && Spared(v.host, 'p', v.port) && Spared(v.host, 'r', v.user) && Spared(v.host, 'n', v.alias)
    && Spared(v.port, 'r', v.user) && Spared(v.port, 'n', v.alias)
    && Spared(v.user, 'n', v.alias)
  }

  predicate SelfNaming(stage: nat, v: Values)
    requires stage < 5
  {
    Replacement(stage, v) == ['%', Letter(stage)]
  }

  lemma {:induction false} SelfReplacement(s: string, token: string)
    requires token != ""
    ensures ReplaceAll(s, token, token) == s
    decreases |s|
  {
    if s != "" {
      if HasPrefix(s, token) {
        SelfReplacement(s[|token|..], token);
        assert s == s[..|token|] + s[|token|..];
      } else {
        SelfReplacement(s[1..], token);
        assert s == [s[0]] + s[1..];
      }
    }
  }

  lemma {:induction false} SelfNamingStage(ps: seq<Piece>, v: Values, stage: nat)
    requires 0 < stage < 5 && SelfNaming(stage, v)
    ensures RenderAll(ps, v, stage) == RenderAll(ps, v, stage + 1)
    decreases |ps|
  {
    if ps != [] {
      SelfNamingStage(ps[1..], v, stage);
    }
  }

  /** A piece other than a bare percent is the token being replaced, or cannot match. */
  lemma RenderedPiece(p: Piece, v: Values, stage: nat)
    requires stage < 5 && Harmless(v) && p != Plain('%') && !SelfNaming(stage, v)
    ensures
      || (Render(p, v, stage) == ['%', Letter(stage)] && Render(p, v, stage + 1) == Replacement(stage, v))
      || (Inert(Render(p, v, stage), Letter(stage)) && Render(p, v, stage + 1) == Render(p, v, stage))
  {
    assert '%' !in SENTINEL;
  }

  /** What one replacement does to the first piece. */
  lemma HeadStep(p: Piece, rest: string, v: Values, stage: nat)
    requires stage < 5 && Harmless(v) && !SelfNaming(stage, v)
    requires p == Plain('%') ==> rest == "" || rest[0] !in {'%', 'h', 'p', 'r', 'n'}
    ensures ReplaceAll(Render(p, v, stage) + rest, ['%', Letter(stage)], Replacement(stage, v))
         == Render(p, v, stage + 1) + ReplaceAll(rest, ['%', Letter(stage)], Replacement(stage, v))
  {
    var t, new' := Letter(stage), Replacement(stage, v);
    var r := Render(p, v, stage);
    if p == Plain('%') {
      PercentStays(rest, t, new');
    } else {
      RenderedPiece(p, v, stage);
      if r == ['%', t] && Render(p, v, stage + 1) == new' {
        ReplaceHits(rest, r, new');
      } else {
        InertPasses(r, rest, t, new');
      }
    }
  }

  lemma {:induction false} StageStep(ps: seq<Piece>, v: Values, stage: nat)
    requires stage < 5 && Harmless(v) && WellCut(ps)
    ensures ReplaceToken(RenderAll(ps, v, stage), Letter(stage), Replacement(stage, v))
         == RenderAll(ps, v, stage + 1)
    decreases |ps|
  {
    if stage > 0 && SelfNaming(stage, v) {
      SelfNamingStage(ps, v, stage);
      SelfReplacement(RenderAll(ps, v, stage), ['%', Letter(stage)]);
    } else if ps != [] {
      var rest := RenderAll(ps[1..], v, stage);
      StageStep(ps[1..], v, stage);
      assert !SelfNaming(stage, v) by { assert |SENTINEL| > 2; }
      HeadStep(ps[0], rest, v, stage);
    }
  }

  lemma {:induction false} LastStep(ps: seq<Piece>, v: Values)
    requires Harmless(v) && WellCut(ps)
    ensures ReplaceAll(RenderAll(ps, v, 5), SENTINEL, "%") == RenderAll(ps, v, 6)
    decreases |ps|
  {
    if ps != [] {
      var rest := RenderAll(ps[1..], v, 5);
      LastStep(ps[1..], v);
      if ps[0] == Percent {
        ReplaceHits(rest, SENTINEL, "%");
      } else {
        FreePasses(Render(ps[0], v, 5), rest, SENTINEL, "%");
      }
    }
  }

  /** The replacements from a stage on. */
  function FromStage(s: string, v: Values, stage: nat): string
    requires stage <= 5
    decreases 5 - stage
  {
    if stage == 5 then ReplaceAll(s, SENTINEL, "%")
    else FromStage(ReplaceToken(s, Letter(stage), Replacement(stage, v)), v, stage + 1)
  }

  lemma SubstituteFromStart(cmd: string, v: Values)
    ensures SubstituteProxyTokens(cmd, v) == FromStage(cmd, v, 0)
  {
    var c1 := ReplaceToken(cmd, '%', SENTINEL);
    var c2 := ReplaceToken(c1, 'h', v.host);
    var c3 := ReplaceToken(c2, 'p', v.port);
    assert FromStage(cmd, v, 0) == FromStage(c2, v, 2);
    assert FromStage(c2, v, 2) == FromStage(c3, v, 3);
  }

  lemma {:induction false} StagesCompose(ps: seq<Piece>, v: Values, stage: nat)
    requires stage <= 5 && Harmless(v) && WellCut(ps)
    ensures FromStage(RenderAll(ps, v, stage), v, stage) == RenderAll(ps, v, 6)
    decreases 5 - stage
  {
    if stage == 5 {
      LastStep(ps, v);
    } else {
      StageStep(ps, v, stage);
      StagesCompose(ps, v, stage + 1);
    }
  }

  /** The chain of replacements is one pass over the command. */
  lemma SubstituteIsExpand(cmd: string, v: Values)
    requires '\0' !in cmd && Harmless(v)
    ensures SubstituteProxyTokens(cmd, v) == Expand(cmd, v)
  {
    PiecesAreWellCut(cmd);
    PiecesSpellCommand(cmd, v);
    StagesCompose(Pieces(cmd), v, 0);
    SubstituteFromStart(cmd, v);
    PiecesExpand(cmd, v);
  }

  // --------------------------------------------------------------- when it is not one pass

  function Percents(s: string): nat {
    if s == "" then 0 else (if s[0] == '%' then 1 else 0) + Percents(s[1..])
  }

  predicate HasPair(s: string, t: char) {
    exists i :: 0 <= i < |s| - 1 && s[i] == '%' && s[i + 1] == t
  }

  /** How often a replacement finds its token. */
  function Matches(s: string, t: char): nat
    decreases |s|
  {
    if s == "" then 0
    else if HasPrefix(s, ['%', t]) then 1 + Matches(s[2..], t)
    else Matches(s[1..], t)
  }

  lemma {:induction false} PercentsSkip(a: string, b: string)
    requires '%' !in a
    ensures Percents(a + b) == Percents(b)
    decreases |a|
  {
    if a == "" {
      assert a + b == b;
    } else {
      assert (a + b)[1..] == a[1..] + b;
      PercentsSkip(a[1..], b);
    }
  }

  lemma PercentsOfPair(s: string, t: char)
    requires HasPrefix(s, ['%', t]) && t != '%'
    ensures Percents(s) == 1 + Percents(s[2..])
  {
    assert s[0] == ['%', t][0] && s[1] == ['%', t][1];
    assert s[1..][1..] == s[2..];
    assert Percents(s[1..]) == Percents(s[2..]);
  }

  lemma PercentsOfFirst(c: char, r: string)
    ensures Percents([c] + r) == (if c == '%' then 1 else 0) + Percents(r)
  {
    assert ([c] + r)[1..] == r;
  }

  /** Replacing by text without a percent takes away one percent for each match. */
  lemma {:induction false} ReplaceTakesPercents(s: string, t: char, new': string)
    requires t != '%' && '%' !in new'
    ensures Percents(ReplaceAll(s, ['%', t], new')) == Percents(s) - Matches(s, t)
    decreases |s|
  {
    if s != "" {
      if HasPrefix(s, ['%', t]) {
        ReplaceTakesPercents(s[2..], t, new');
        PercentsOfPair(s, t);
        PercentsSkip(new', ReplaceAll(s[2..], ['%', t], new'));
      } else {
        ReplaceTakesPercents(s[1..], t, new');
        PercentsOfFirst(s[0], ReplaceAll(s[1..], ['%', t], new'));
      }
    }
  }

  lemma {:induction false} UnmatchedStays(s: string, t: char, new': string)
    requires Matches(s, t) == 0
    ensures ReplaceAll(s, ['%', t], new') == s
    decreases |s|
  {
    if s != "" {
      UnmatchedStays(s[1..], t, new');
      assert s == [s[0]] + s[1..];
    }
  }

  lemma {:induction false} PairIsMatched(s: string, t: char, i: nat)
    requires i < |s| - 1 && s[i] == '%' && s[i + 1] == t
    ensures Matches(s, t) > 0
    decreases |s|
  {
    if i == 0 {
      assert s[..2] == ['%', t];
    } else if !HasPrefix(s, ['%', t]) {
      PairIsMatched(s[1..], t, i - 1);
    }
  }

  lemma {:induction false} ReplaceKeepsFree(s: string, old': string, new': string, c: char)
    requires old' != "" && c !in s && c !in new'
    ensures c !in ReplaceAll(s, old', new')
    decreases |s|
  {
    if s != "" {
      if HasPrefix(s, old') {
        ReplaceKeepsFree(s[|old'|..], old', new', c);
      } else {
        ReplaceKeepsFree(s[1..], old', new', c);
      }
    }
  }

  predicate Plainly(v: Values) {
    && '%' !in v.port && '%' !in v.user && '%' !in v.alias
    && '\0' !in v.host && '\0' !in v.port && '\0' !in v.user && '\0' !in v.alias
  }

  /** Once the host is in, the later replacements eat a percent of any token they find. */
  lemma LaterStagesEat(s: string, v: Values)
    requires Plainly(v) && '\0' !in s
    requires HasPair(s, 'p') || HasPair(s, 'r') || HasPair(s, 'n')
    ensures FromStage(s, v, 2) != s
  {
    var c3 := ReplaceToken(s, 'p', v.port);
    var c4 := ReplaceToken(c3, 'r', v.user);
    var c5 := ReplaceToken(c4, 'n', v.alias);
    ReplaceTakesPercents(s, 'p', v.port);
    ReplaceTakesPercents(c3, 'r', v.user);
    ReplaceTakesPercents(c4, 'n', v.alias);
    SomeMatch(s, v);
    ReplaceKeepsFree(s, "%p", v.port, '\0');
    ReplaceKeepsFree(c3, "%r", v.user, '\0');
    ReplaceKeepsFree(c4, "%n", v.alias, '\0');
    NothingToRestore(c5);
    assert FromStage(s, v, 2) == FromStage(c4, v, 4);
    assert FromStage(c4, v, 4) == c5;
  }

  /** The token is found by its own stage, or by an earlier one. */
  lemma SomeMatch(s: string, v: Values)
    requires HasPair(s, 'p') || HasPair(s, 'r') || HasPair(s, 'n')
    ensures
      var c3 := ReplaceToken(s, 'p', v.port);
      var c4 := ReplaceToken(c3, 'r', v.user);
      Matches(s, 'p') > 0 || Matches(c3, 'r') > 0 || Matches(c4, 'n') > 0
  {
    if Matches(s, 'p') == 0 {
      UnmatchedStays(s, 'p', v.port);
      if Matches(s, 'r') == 0 {
        UnmatchedStays(s, 'r', v.user);
      }
    }
    if i :| 0 <= i < |s| - 1 && s[i] == '%' && s[i + 1] == 'p' {
      PairIsMatched(s, 'p', i);
    } else if i :| 0 <= i < |s| - 1 && s[i] == '%' && s[i + 1] == 'r' {
      PairIsMatched(s, 'r', i);
    } else if i :| 0 <= i < |s| - 1 && s[i] == '%' && s[i + 1] == 'n' {
      PairIsMatched(s, 'n', i);
    }
  }

  lemma NothingToRestore(s: string)
    requires '\0' !in s
    ensures ReplaceAll(s, SENTINEL, "%") == s
  {
    FreePasses(s, "", SENTINEL, "%");
    assert s + "" == s;
  }

  lemma HostThenTail(tail: string, v: Values)
    requires '%' !in tail
    ensures SubstituteProxyTokens("%h" + tail, v) == FromStage(v.host + tail, v, 2)
    ensures Expand("%h" + tail, v) == v.host + tail
  {
    var cmd := "%h" + tail;
    SubstituteFromStart(cmd, v);
    assert ReplaceToken(cmd, '%', SENTINEL) == cmd by {
      InertPasses(cmd, "", '%', SENTINEL);
      assert cmd + "" == cmd;
    }
    assert ReplaceToken(cmd, 'h', v.host) == v.host + tail by {
      ReplaceHits(tail, "%h", v.host);
      InertPasses(tail, "", 'h', v.host);
      assert tail + "" == tail;
    }
    assert cmd[2..] == tail;
    NothingToExpand(tail, v);
  }

  lemma {:induction false} NothingToExpand(s: string, v: Values)
    requires '%' !in s
    ensures Expand(s, v) == s
    decreases |s|
  {
    if s != "" {
      NothingToExpand(s[1..], v);
    }
  }

  /** With plain port, user and alias, the chain of replacements is one pass over every command
      exactly when no percent of the host name could begin a later token. */
  lemma OnePassIff(v: Values)
    requires Plainly(v)
    ensures (forall cmd | '\0' !in cmd :: SubstituteProxyTokens(cmd, v) == Expand(cmd, v))
       <==> (Inert(v.host, 'p') && Inert(v.host, 'r') && Inert(v.host, 'n'))
  {
    if Inert(v.host, 'p') && Inert(v.host, 'r') && Inert(v.host, 'n') {
      forall cmd | '\0' !in cmd
        ensures SubstituteProxyTokens(cmd, v) == Expand(cmd, v)
      {
        SubstituteIsExpand(cmd, v);
      }
    } else {
      var cmd := SomeTrouble(v);
    }
  }

  lemma SomeTrouble(v: Values) returns (cmd: string)
    requires Plainly(v)
    requires !(Inert(v.host, 'p') && Inert(v.host, 'r') && Inert(v.host, 'n'))
    ensures '\0' !in cmd && SubstituteProxyTokens(cmd, v) != Expand(cmd, v)
  {
    var h := v.host;
    var i :| 0 <= i < |h| && h[i] == '%' && !(i + 1 < |h| && h[i + 1] !in {'p', 'r', 'n'});
    var tail := if i + 1 == |h| then "p" else "";
    cmd := "%h" + tail;
    var s := h + tail;
    assert s[i] == '%' && s[i + 1] in {'p', 'r', 'n'};
    HostThenTail(tail, v);
    LaterStagesEat(s, v);
  }

  /** With percents in the other values the host's percents need not matter: a host and a port both
      spelled like the port's token are put back as they were. */
  lemma LuckyTokens(cmd: string, user: string, alias: string)
    requires '\0' !in cmd && '\0' !in user && '\0' !in alias && '%' !in user
    ensures !Inert("%p", 'p')
    ensures
      var v := Values("%p", "%p", user, alias);
      SubstituteProxyTokens(cmd, v) == Expand(cmd, v)
  {
    var v := Values("%p", "%p", user, alias);
    assert "%p"[0] == '%' && "%p"[1] == 'p';
    assert Inert("%p", 'r') && Inert("%p", 'n');
    SubstituteIsExpand(cmd, v);
  }
}
