/** What the eight rules of the sanitizer mean, in terms of the texts themselves: which texts they
    take for an instance, without regard to letter case, and what stands there afterwards. */
module SanitizerRules {
  import opened Letters
  import opened Options
  import opened Patterns
  import opened Sanitizer

  // ------------------------------------------------------------ pieces of a match

  /** White space, by its codes. */
  predicate IsBlank(s: string) {
    forall i | 0 <= i < |s| :: s[i] as int in {9, 10, 11, 12, 13, 28, 29, 30, 31, 32}
  }

  lemma SpaceIff(c: char)
    ensures IsSpace(c) <==> c as int in {9, 10, 11, 12, 13, 28, 29, 30, 31, 32}
  {
    CodesOfSpaces();
    if c as int == 32 {
      SameCode(c, ' ');
    }
  }

  lemma CodesOfSpaces()
    ensures ' ' as int == 32 && '\t' as int == 9 && '\r' as int == 13
    ensures '\U{1C}' as int == 28 && '\U{1F}' as int == 31
  {
  }

  /** A match of two patterns in a row is a match of the one and then of the other. */
  lemma {:induction false} MatchesBoth(p: Pattern, q: Pattern, w: string)
    ensures Matches(p + q, w) <==> exists i :: 0 <= i <= |w| && Matches(p, w[..i]) && Matches(q, w[i..])
    decreases |p|
  {
    if p == [] {
      assert p + q == q && w[0..] == w && w[..0] == "";
    } else {
      var item, rest := p[0], p[1..];
      assert p == [item] + rest && p + q == [item] + (rest + q);
      hide Matches;
      if Matches(p + q, w) {
        var i := SplitMatch(item, rest, q, w);
      }
      if i :| 0 <= i <= |w| && Matches(p, w[..i]) && Matches(q, w[i..]) {
        JoinMatch(item, rest, q, w, i);
      }
    }
  }

  lemma Slices(w: string, n: nat, i: nat)
    requires n <= i <= |w|
    ensures w[n..][..i - n] == w[..i][n..] && w[n..][i - n..] == w[i..] && w[..i][..n] == w[..n]
  {
  }

  lemma {:induction false} SplitMatch(item: Item, rest: Pattern, q: Pattern, w: string) returns (i: nat)
    requires Matches([item] + (rest + q), w)
    ensures i <= |w| && Matches([item] + rest, w[..i]) && Matches(q, w[i..])
    decreases |rest| + 1, 0
  {
    hide Matches, Takes;
    var n := FirstPiece(item, rest + q, w);
    var u := w[n..];
    MatchesBoth(rest, q, u);
    var k :| 0 <= k <= |u| && Matches(rest, u[..k]) && Matches(q, u[k..]);
    SplitStep(item, rest, q, w, n, k);
    i := n + k;
  }

  lemma SplitStep(item: Item, rest: Pattern, q: Pattern, w: string, n: nat, k: nat)
    requires n + k <= |w| && Takes(item, w[..n]) && Matches(rest, w[n..][..k]) && Matches(q, w[n..][k..])
    ensures Matches([item] + rest, w[..n + k]) && Matches(q, w[n + k..])
  {
    hide Matches, Takes;
    Slices(w, n, n + k);
    PutPiece(item, rest, w[..n + k], n);
  }

  lemma {:induction false} JoinMatch(item: Item, rest: Pattern, q: Pattern, w: string, i: nat)
    requires i <= |w| && Matches([item] + rest, w[..i]) && Matches(q, w[i..])
    ensures Matches([item] + (rest + q), w)
    decreases |rest| + 1, 0
  {
    hide Matches, Takes;
    var n := FirstPiece(item, rest, w[..i]);
    Slices(w, n, i);
    MatchesBoth(rest, q, w[n..]);
    PutPiece(item, rest + q, w, n);
  }

  /** What one item may take. */
  predicate Takes(item: Item, s: string) {
    match item
    case Lit(c) => |s| == 1 && DifferInCase(s[0], c)
    case Spaces => IsBlank(s)
    case OptSlash => s == "" || s == "/"
    case NotGt => '>' !in s
  }

  lemma FirstPiece(item: Item, q: Pattern, w: string) returns (n: nat)
    requires Matches([item] + q, w)
    ensures n <= |w| && Takes(item, w[..n]) && Matches(q, w[n..])
  {
    assert ([item] + q)[1..] == q;
    match item
    case Lit(c) =>
      n := 1;
      SameIff(w[0], c);
    case Spaces =>
      var k :| 0 <= k <= |w| && (forall i | 0 <= i < k :: IsSpace(w[i])) && Matches(q, w[k..]);
      n := k;
      forall i | 0 <= i < n ensures w[..n][i] as int in {9, 10, 11, 12, 13, 28, 29, 30, 31, 32} {
        SpaceIff(w[i]);
      }
    case OptSlash =>
      if Matches(q, w) {
        n := 0;
        assert w[0..] == w;
      } else {
        n := 1;
      }
    case NotGt =>
      var k :| 0 <= k <= |w| && (forall i | 0 <= i < k :: w[i] != '>') && Matches(q, w[k..]);
      n := k;
  }

  lemma PutPiece(item: Item, q: Pattern, w: string, n: nat)
    requires n <= |w| && Takes(item, w[..n]) && Matches(q, w[n..])
    ensures Matches([item] + q, w)
  {
    assert ([item] + q)[1..] == q;
    match item
    case Lit(c) =>
      assert w[..n][0] == w[0];
      SameIff(w[0], c);
    case Spaces =>
      forall i | 0 <= i < n ensures IsSpace(w[i]) {
        assert w[..n][i] == w[i];
        SpaceIff(w[i]);
      }
    case OptSlash =>
      if n == 0 {
        assert w[0..] == w;
      } else {
        assert w[..n][0] == w[0];
      }
    case NotGt =>
      forall i | 0 <= i < n ensures w[i] != '>' {
        assert w[..n][i] == w[i];
      }
  }

  lemma {:induction false} WordMatches(name: string, q: Pattern, w: string)
    ensures Matches(Word(name) + q, w) <==>
      |name| <= |w| && CaseEqual(w[..|name|], name) && Matches(q, w[|name|..])
    decreases |name|
  {
    if name == "" {
      assert Word(name) + q == q && w[0..] == w;
    } else {
      assert Word(name) + q == [Lit(name[0])] + (Word(name[1..]) + q);
      if Matches(Word(name) + q, w) {
        var n := FirstPiece(Lit(name[0]), Word(name[1..]) + q, w);
        WordMatches(name[1..], q, w[1..]);
        CaseEqualTail(w, name);
      } else if |name| <= |w| && CaseEqual(w[..|name|], name) && Matches(q, w[|name|..]) {
        CaseEqualTail(w, name);
        WordMatches(name[1..], q, w[1..]);
        PutPiece(Lit(name[0]), Word(name[1..]) + q, w, 1);
      }
    }
  }

  lemma CaseEqualTail(w: string, name: string)
    requires name != "" && |name| <= |w|
    ensures CaseEqual(w[..|name|], name) <==> DifferInCase(w[0], name[0]) && CaseEqual(w[1..][..|name| - 1], name[1..])
    ensures w[1..][|name| - 1..] == w[|name|..]
  {
    var u := w[1..][..|name| - 1];
    assert forall i | 0 <= i < |u| :: u[i] == w[..|name|][i + 1] && name[1..][i] == name[i + 1];
    if DifferInCase(w[0], name[0]) && CaseEqual(u, name[1..]) {
      forall i | 0 <= i < |name| ensures DifferInCase(w[..|name|][i], name[i]) {
        if i > 0 {
          assert DifferInCase(u[i - 1], name[1..][i - 1]);
        }
      }
    }
  }

  lemma NotALetter(c: char, d: char)
    requires d as int in {60, 62}
    ensures DifferInCase(c, d) <==> c == d
  {
  }

  lemma CodesOfBrackets()
    ensures '<' as int == 60 && '>' as int == 62
  {
  }

  /** The end of a tag: blanks and a '>'. */
  lemma TailMatches(w: string)
    ensures Matches([Spaces, Lit('>')], w) <==> w != "" && w[|w| - 1] == '>' && IsBlank(w[..|w| - 1])
  {
    CodesOfBrackets();
    assert [Spaces, Lit('>')] == [Spaces] + [Lit('>')];
    if Matches([Spaces, Lit('>')], w) {
      var n := FirstPiece(Spaces, [Lit('>')], w);
      LastIsGt(w[n..]);
      assert w[..n] == w[..|w| - 1];
    } else if w != "" && w[|w| - 1] == '>' && IsBlank(w[..|w| - 1]) {
      LastIsGt(w[|w| - 1..]);
      PutPiece(Spaces, [Lit('>')], w, |w| - 1);
    }
  }

  lemma LastIsGt(w: string)
    ensures Matches([Lit('>')], w) <==> w == ">"
  {
    CodesOfBrackets();
    assert [Lit('>')] == [Lit('>')] + [];
    if Matches([Lit('>')], w) {
      var n := FirstPiece(Lit('>'), [], w);
      NotALetter(w[..n][0], '>');
      assert w == w[..n] + w[n..];
    } else if w == ">" {
      PutPiece(Lit('>'), [], w, 1);
    }
  }

  // --------------------------------------------------------------- the eight rules

  /** Blanks, an optional slash and blanks, before the name of a tag. */
  ghost predicate IsHead(w: string) {
    exists i, j :: 0 <= i <= j <= |w| && j <= i + 1 && IsBlank(w[..i]) && (i == j || w[i] == '/') && IsBlank(w[j..])
  }

  /** "<", an optional slash, the name without regard to case, ">", and blanks anywhere between. */
  ghost predicate IsTag(w: string, name: string) {
    exists i :: 1 <= i && IsNamedAt(w, i, name) && IsHead(w[1..i])
      && w[|w| - 1] == '>' && IsBlank(w[i + |name|..|w| - 1])
  }

  /** The text begins with "<", and the name stands at i, before the last character. */
  ghost predicate IsNamedAt(w: string, i: int, name: string) {
    w != "" && w[0] == '<' && 0 <= i && i + |name| < |w| && CaseEqual(w[i..i + |name|], name)
  }

  /** The same with anything but ">" after the name. */
  ghost predicate IsToolTag(w: string) {
    exists i :: 1 <= i && IsNamedAt(w, i, "tool_result") && IsHead(w[1..i])
      && w[|w| - 1] == '>' && '>' !in w[i + |"tool_result"|..|w| - 1]
  }

  /** "<", the role mark without regard to case, ">", and blanks between. */
  ghost predicate IsRoleTag(w: string, mark: string) {
    exists i :: 1 <= i && IsNamedAt(w, i, mark) && IsBlank(w[1..i])
      && w[|w| - 1] == '>' && IsBlank(w[i + |mark|..|w| - 1])
  }

  const HIERARCHY := "CORE AUTHORITY HIERARCHY"

  /** "===", the heading without regard to case, "===", and blanks between. */
  ghost predicate IsHeading(w: string) {
    exists i :: 3 <= i && IsHeadedAt(w, i)
  }

  ghost predicate IsHeadedAt(w: string, i: int) {
    && 3 <= i && i + |HIERARCHY| + 3 <= |w|
    && w[..3] == "===" && IsBlank(w[3..i]) && CaseEqual(w[i..i + |HIERARCHY|], HIERARCHY)
    && IsBlank(w[i + |HIERARCHY|..|w| - 3]) && w[|w| - 3..] == "==="
  }

  /** Blanks, an optional slash and blanks, then q. */
  lemma BlanksMatch(q: Pattern, v: string)
    ensures Matches([Spaces, OptSlash, Spaces] + q, v) <==> exists i :: 0 <= i <= |v| && IsHead(v[..i]) && Matches(q, v[i..])
  {
    var p2, p3 := [OptSlash, Spaces] + q, [Spaces] + q;
    assert [Spaces, OptSlash, Spaces] + q == [Spaces] + p2 && p2 == [OptSlash] + p3;
    hide Matches, IsBlank;
    if Matches([Spaces, OptSlash, Spaces] + q, v) {
      var i := BlanksFound(q, v);
    }
    if i :| 0 <= i <= |v| && IsHead(v[..i]) && Matches(q, v[i..]) {
      BlanksBuilt(q, v, i);
    }
  }

  lemma BlanksFound(q: Pattern, v: string) returns (i: nat)
    requires Matches([Spaces, OptSlash, Spaces] + q, v)
    ensures i <= |v| && IsHead(v[..i]) && Matches(q, v[i..])
  {
    hide Matches, IsBlank;
    var p2, p3 := [OptSlash, Spaces] + q, [Spaces] + q;
    assert [Spaces, OptSlash, Spaces] + q == [Spaces] + p2 && p2 == [OptSlash] + p3;
    var a := FirstPiece(Spaces, p2, v);
    var b := FirstPiece(OptSlash, p3, v[a..]);
    var c := FirstPiece(Spaces, q, v[a..][b..]);
    i := a + b + c;
    assert v[a..][b..] == v[a + b..] && v[a + b..][c..] == v[i..] && v[a + b..][..c] == v[..i][a + b..];
    assert v[..i][..a] == v[..a];
    if b == 1 {
      assert v[a..][..1][0] == v[..i][a];
    }
  }

  lemma BlanksBuilt(q: Pattern, v: string, i: nat)
    requires i <= |v| && IsHead(v[..i]) && Matches(q, v[i..])
    ensures Matches([Spaces, OptSlash, Spaces] + q, v)
  {
    hide Matches, IsBlank;
    var h := v[..i];
    var a, b :| 0 <= a <= b <= |h| && b <= a + 1 && IsBlank(h[..a]) && (a == b || h[a] == '/') && IsBlank(h[b..]);
    hide IsHead;
    assert h[a..b] == "" || h[a..b] == "/";
    HeadBuilt(q, h[..a], h[a..b], h[b..], v[i..]);
    assert v == h + v[i..] && h == h[..a] + (h[a..b] + h[b..]);
    Regrouped(h[..a], h[a..b], h[b..], v[i..]);
  }

  lemma Regrouped(a: string, b: string, c: string, d: string)
    ensures (a + (b + c)) + d == a + (b + (c + d))
  {
  }

  lemma PieceAndRest(item: Item, q: Pattern, s: string, u: string)
    requires Takes(item, s) && Matches(q, u)
    ensures Matches([item] + q, s + u)
  {
    hide Matches, Takes;
    assert (s + u)[..|s|] == s && (s + u)[|s|..] == u;
    PutPiece(item, q, s + u, |s|);
  }

  lemma HeadBuilt(q: Pattern, x: string, slash: string, y: string, u: string)
    requires IsBlank(x) && IsBlank(y) && (slash == "" || slash == "/") && Matches(q, u)
    ensures Matches([Spaces, OptSlash, Spaces] + q, x + (slash + (y + u)))
  {
    hide Matches, IsBlank;
    PieceAndRest(Spaces, q, y, u);
    PieceAndRest(OptSlash, [Spaces] + q, slash, y + u);
    PieceAndRest(Spaces, [OptSlash] + ([Spaces] + q), x, slash + (y + u));
    assert [Spaces, OptSlash, Spaces] + q == [Spaces] + ([OptSlash] + ([Spaces] + q));
  }

  /** A '<', then q. */
  lemma OpensWith(q: Pattern, w: string)
    ensures Matches([Lit('<')] + q, w) <==> w != "" && w[0] == '<' && Matches(q, w[1..])
  {
    CodesOfBrackets();
    hide Matches;
    if Matches([Lit('<')] + q, w) {
      var n := FirstPiece(Lit('<'), q, w);
      NotALetter(w[..n][0], '<');
    } else if w != "" && w[0] == '<' && Matches(q, w[1..]) {
      PutPiece(Lit('<'), q, w, 1);
    }
  }

  lemma HeadMatches(q: Pattern, w: string)
    ensures Matches(TagHead + q, w) <==>
      exists i :: 1 <= i <= |w| && w[0] == '<' && IsHead(w[1..i]) && Matches(q, w[i..])
  {
    hide Matches, IsHead;
    var p1 := [Spaces, OptSlash, Spaces] + q;
    assert TagHead + q == [Lit('<')] + p1;
    OpensWith(p1, w);
    if w != "" {
      var v := w[1..];
      BlanksMatch(q, v);
      forall i | 0 <= i <= |v| ensures v[..i] == w[1..i + 1] && v[i..] == w[i + 1..] {
      }
      if i :| 0 <= i <= |v| && IsHead(v[..i]) && Matches(q, v[i..]) && w[0] == '<' {
        assert IsHead(w[1..i + 1]) && Matches(q, w[i + 1..]);
      }
      if i :| 1 <= i <= |w| && w[0] == '<' && IsHead(w[1..i]) && Matches(q, w[i..]) {
        assert IsHead(v[..i - 1]) && Matches(q, v[i - 1..]);
      }
    }
  }

  /** The rules for the two context tags. */
  lemma TagRule(name: string, w: string)
    ensures Matches(TagHead + Word(name) + TagTail, w) <==> IsTag(w, name)
  {
    var q := Word(name) + TagTail;
    assert TagHead + Word(name) + TagTail == TagHead + q;
    HeadMatches(q, w);
    forall i | 1 <= i <= |w| && w[0] == '<' && IsHead(w[1..i])
      ensures Matches(q, w[i..]) <==>
        IsNamedAt(w, i, name) && w[|w| - 1] == '>' && IsBlank(w[i + |name|..|w| - 1])
    {
      NamedTail(name, w, i);
    }
  }

  lemma InnerSlice(w: string, i: nat, m: nat)
    requires i + m < |w|
    ensures var u := w[i..][m..];
      u != "" && u[|u| - 1] == w[|w| - 1] && u[..|u| - 1] == w[i + m..|w| - 1]
  {
    assert w[i..][m..] == w[i + m..];
  }

  lemma NamedTail(name: string, w: string, i: int)
    requires 1 <= i <= |w| && w[0] == '<'
    ensures Matches(Word(name) + TagTail, w[i..]) <==>
      IsNamedAt(w, i, name) && w[|w| - 1] == '>' && IsBlank(w[i + |name|..|w| - 1])
  {
    var v := w[i..];
    WordMatches(name, TagTail, v);
    if |name| <= |v| {
      var u := v[|name|..];
      TailMatches(u);
      assert v[..|name|] == w[i..i + |name|];
      if u != "" {
        InnerSlice(w, i, |name|);
      }
    }
  }

  /** The end of a tool tag: anything up to its first '>'. */
  lemma ToolTailMatches(w: string)
    ensures Matches(UpToGt, w) <==> w != "" && w[|w| - 1] == '>' && '>' !in w[..|w| - 1]
  {
    assert UpToGt == [NotGt] + [Lit('>')];
    if Matches(UpToGt, w) {
      var n := FirstPiece(NotGt, [Lit('>')], w);
      LastIsGt(w[n..]);
      assert w[..n] == w[..|w| - 1];
    } else if w != "" && w[|w| - 1] == '>' && '>' !in w[..|w| - 1] {
      LastIsGt(w[|w| - 1..]);
      PutPiece(NotGt, [Lit('>')], w, |w| - 1);
    }
  }

  /** The rule for tool results. */
  lemma ToolRule(w: string)
    ensures Matches(ToolResult, w) <==> IsToolTag(w)
  {
    var q := Word("tool_result") + UpToGt;
    assert ToolResult == TagHead + q;
    HeadMatches(q, w);
    forall i | 1 <= i <= |w| && w[0] == '<' && IsHead(w[1..i])
      ensures Matches(q, w[i..]) <==>
        IsNamedAt(w, i, "tool_result") && w[|w| - 1] == '>' && '>' !in w[i + |"tool_result"|..|w| - 1]
    {
      ToolNamedTail("tool_result", w, i);
    }
  }

  lemma ToolNamedTail(name: string, w: string, i: int)
    requires 1 <= i <= |w| && w[0] == '<'
    ensures Matches(Word(name) + UpToGt, w[i..]) <==>
      IsNamedAt(w, i, name) && w[|w| - 1] == '>' && '>' !in w[i + |name|..|w| - 1]
  {
    var v := w[i..];
    WordMatches(name, UpToGt, v);
    if |name| <= |v| {
      var u := v[|name|..];
      ToolTailMatches(u);
      assert v[..|name|] == w[i..i + |name|];
      if u != "" {
        InnerSlice(w, i, |name|);
      }
    }
  }

  lemma SpacesMatch(q: Pattern, v: string)
    ensures Matches([Spaces] + q, v) <==> exists i :: 0 <= i <= |v| && IsBlank(v[..i]) && Matches(q, v[i..])
  {
    hide Matches, IsBlank;
    if Matches([Spaces] + q, v) {
      var n := FirstPiece(Spaces, q, v);
    }
    if i :| 0 <= i <= |v| && IsBlank(v[..i]) && Matches(q, v[i..]) {
      PutPiece(Spaces, q, v, i);
    }
  }

  /** The rules for the role marks. */
  lemma RoleRule(mark: string, w: string)
    ensures Matches([Lit('<'), Spaces] + Word(mark) + TagTail, w) <==> IsRoleTag(w, mark)
  {
    hide Matches, IsBlank;
    var q := Word(mark) + TagTail;
    assert [Lit('<'), Spaces] + Word(mark) + TagTail == [Lit('<')] + ([Spaces] + q);
    OpensWith([Spaces] + q, w);
    if w != "" && w[0] == '<' {
      var v := w[1..];
      SpacesMatch(q, v);
      forall i | 0 <= i <= |v| ensures v[..i] == w[1..i + 1] && v[i..] == w[i + 1..] {
      }
      forall i | 1 <= i <= |w|
        ensures Matches(q, w[i..]) <==>
          IsNamedAt(w, i, mark) && w[|w| - 1] == '>' && IsBlank(w[i + |mark|..|w| - 1])
      {
        NamedTail(mark, w, i);
      }
      if i :| 0 <= i <= |v| && IsBlank(v[..i]) && Matches(q, v[i..]) {
        assert Matches(q, w[i + 1..]) && IsNamedAt(w, i + 1, mark) && IsBlank(w[1..i + 1]);
      }
      if i :| 1 <= i && IsNamedAt(w, i, mark) && IsBlank(w[1..i]) && w[|w| - 1] == '>' && IsBlank(w[i + |mark|..|w| - 1]) {
        assert Matches(q, w[i..]) && IsBlank(v[..i - 1]) && Matches(q, v[i - 1..]);
      }
    }
  }

  /** The rule for the bracketed mark. */
  lemma MarkRule(w: string)
    ensures Matches(SystemMark, w) <==> CaseEqual(w, "[SYSTEM]")
  {
    assert SystemMark == Word("[SYSTEM]") + [];
    WordMatches("[SYSTEM]", [], w);
    if |w| >= 8 {
      assert Matches([], w[8..]) <==> |w| == 8;
      assert |w| == 8 ==> w[..8] == w;
    }
  }

  lemma RulersAreExact(s: string)
    ensures CaseEqual(s, "===") <==> s == "==="
  {
    assert '=' as int == 61;
  }

  lemma ClosingRuler(v: string)
    ensures Matches([Spaces] + Word("==="), v) <==> |v| >= 3 && IsBlank(v[..|v| - 3]) && v[|v| - 3..] == "==="
  {
    hide Matches, IsBlank;
    SpacesMatch(Word("==="), v);
    forall i | 0 <= i <= |v| ensures Matches(Word("==="), v[i..]) <==> i == |v| - 3 && v[i..] == "===" {
      assert Word("===") + [] == Word("===");
      WordMatches("===", [], v[i..]);
      NothingLeft(v[i..]);
      if |v[i..]| >= 3 {
        RulersAreExact(v[i..][..3]);
        assert |v[i..]| == 3 ==> v[i..][..3] == v[i..];
      }
    }
    if |v| >= 3 {
      assert v[|v| - 3..] == "===" ==> Matches(Word("==="), v[|v| - 3..]);
    }
  }

  lemma NothingLeft(u: string)
    ensures |u| >= 3 ==> (Matches([], u[3..]) <==> |u| == 3)
  {
  }

  /** The rule for the authority heading. */
  lemma HeadingRule(w: string)
    ensures Matches(Authority, w) <==> IsHeading(w)
  {
    hide Matches, IsBlank, CaseEqual;
    var q := Word(HIERARCHY) + ([Spaces] + Word("==="));
    assert Authority == Word("===") + ([Spaces] + q);
    WordMatches("===", [Spaces] + q, w);
    if |w| >= 3 {
      RulersAreExact(w[..3]);
      var v := w[3..];
      SpacesMatch(q, v);
      forall i | 0 <= i <= |v| ensures IsBlank(v[..i]) && Matches(q, v[i..]) && w[..3] == "===" <==> IsHeadedAt(w, i + 3) {
        assert v[..i] == w[3..i + 3];
        HeadingTail(w, i + 3);
        assert v[i..] == w[i + 3..];
      }
      if i :| 3 <= i && IsHeadedAt(w, i) {
        assert IsHeadedAt(w, i - 3 + 3) && IsBlank(v[..i - 3]) && Matches(q, v[i - 3..]);
      }
    }
  }

  lemma HeadingTail(w: string, i: int)
    requires 3 <= i <= |w|
    ensures Matches(Word(HIERARCHY) + ([Spaces] + Word("===")), w[i..]) <==>
      (&& i + |HIERARCHY| + 3 <= |w| && CaseEqual(w[i..i + |HIERARCHY|], HIERARCHY)
       && IsBlank(w[i + |HIERARCHY|..|w| - 3]) && w[|w| - 3..] == "===")
  {
    hide Matches, IsBlank, CaseEqual;
    var v := w[i..];
    WordMatches(HIERARCHY, [Spaces] + Word("==="), v);
    if |HIERARCHY| <= |v| {
      var u := v[|HIERARCHY|..];
      ClosingRuler(u);
      assert v[..|HIERARCHY|] == w[i..i + |HIERARCHY|];
      if |u| >= 3 {
        assert u[..|u| - 3] == w[i + |HIERARCHY|..|w| - 3] && u[|u| - 3..] == w[|w| - 3..];
      }
    }
  }

  // -------------------------------------------------------------- all of them

  /** What rule k takes for an instance. */
  ghost predicate IsInstance(k: nat, w: string) {
    match k
    case 0 => IsTag(w, "untrusted_context")
    case 1 => IsTag(w, "untrusted_task_context")
    case 2 => IsToolTag(w)
    case 3 => IsHeading(w)
    case 4 => IsRoleTag(w, "|im_start|")
    case 5 => IsRoleTag(w, "|im_end|")
    case 6 => IsRoleTag(w, "|system|")
    case 7 => CaseEqual(w, "[SYSTEM]")
    case _ => false
  }

  /** The eight rules take exactly these texts, whatever the case of their letters. */
  lemma RulesTakeInstances(k: nat, w: string)
    requires k < |Rules|
    ensures |Rules| == 8
    ensures Matches(Rules[k].pattern, w) <==> IsInstance(k, w)
  {
    TagRule("untrusted_context", w);
    TagRule("untrusted_task_context", w);
    ToolRule(w);
    HeadingRule(w);
    RoleRule("|im_start|", w);
    RoleRule("|im_end|", w);
    RoleRule("|system|", w);
    MarkRule(w);
    RulesSpelled();
    hide Matches, IsTag, IsToolTag, IsHeading, IsRoleTag, CaseEqual;
  }

  lemma RulesSpelled()
    ensures Context == TagHead + Word("untrusted_context") + TagTail
    ensures TaskContext == TagHead + Word("untrusted_task_context") + TagTail
    ensures ImStart == [Lit('<'), Spaces] + Word("|im_start|") + TagTail
    ensures ImEnd == [Lit('<'), Spaces] + Word("|im_end|") + TagTail
    ensures SystemRole == [Lit('<'), Spaces] + Word("|system|") + TagTail
  {
  }

  // ---------------------------------------------------------- case does not matter

  lemma CaseTail(w: string, v: string, n: nat)
    requires CaseEqual(w, v) && n <= |w|
    ensures CaseEqual(w[n..], v[n..]) && CaseEqual(w[..n], v[..n])
  {
  }

  lemma MarksHaveNoCase(a: char, b: char)
    requires DifferInCase(a, b)
    ensures (a == '/' <==> b == '/') && (a == '>' <==> b == '>') && (IsSpace(a) <==> IsSpace(b))
  {
    SpaceIff(a);
    SpaceIff(b);
    CodesOfBrackets();
    assert '/' as int == 47;
  }

  lemma SameCaseSame(a: char, b: char, c: char)
    requires DifferInCase(a, b)
    ensures Same(a, c) <==> Same(b, c)
  {
    SameIff(a, b);
  }

  lemma {:induction false} CaseKeepsMatch(p: Pattern, w: string, v: string)
    requires CaseEqual(w, v) && Matches(p, w)
    ensures Matches(p, v)
    decreases |p|
  {
    hide IsSpace, Same, DifferInCase;
    if p != [] {
      var rest := p[1..];
      assert p == [p[0]] + rest;
      match p[0]
      case Lit(c) =>
        SameCaseSame(w[0], v[0], c);
        CaseTail(w, v, 1);
        CaseKeepsMatch(rest, w[1..], v[1..]);
      case Spaces =>
        var n :| 0 <= n <= |w| && (forall i | 0 <= i < n :: IsSpace(w[i])) && Matches(rest, w[n..]);
        forall i | 0 <= i < n ensures IsSpace(v[i]) {
          MarksHaveNoCase(w[i], v[i]);
        }
        CaseTail(w, v, n);
        CaseKeepsMatch(rest, w[n..], v[n..]);
      case OptSlash =>
        if Matches(rest, w) {
          CaseKeepsMatch(rest, w, v);
        } else {
          MarksHaveNoCase(w[0], v[0]);
          CaseTail(w, v, 1);
          CaseKeepsMatch(rest, w[1..], v[1..]);
        }
      case NotGt =>
        var n :| 0 <= n <= |w| && (forall i | 0 <= i < n :: w[i] != '>') && Matches(rest, w[n..]);
        forall i | 0 <= i < n ensures v[i] != '>' {
          MarksHaveNoCase(w[i], v[i]);
        }
        CaseTail(w, v, n);
        CaseKeepsMatch(rest, w[n..], v[n..]);
    }
  }

  lemma CaseIsSymmetric(w: string, v: string)
    ensures CaseEqual(w, v) <==> CaseEqual(v, w)
  {
  }

  /** Two texts that differ only in letter case contain an instance of the same rules. */
  lemma CaseDoesNotMatter(k: nat, s: string, t: string)
    requires k < |Rules| && CaseEqual(s, t)
    ensures NoMatchIn(Rules[k].pattern, s) <==> NoMatchIn(Rules[k].pattern, t)
  {
    hide Rules;
    var p := Rules[k].pattern;
    forall i, j | 0 <= i <= j <= |s| ensures Matches(p, s[i..j]) <==> Matches(p, t[i..j]) {
      assert CaseEqual(s[i..j], t[i..j]);
      CaseIsSymmetric(s[i..j], t[i..j]);
      if Matches(p, s[i..j]) {
        CaseKeepsMatch(p, s[i..j], t[i..j]);
      }
      if Matches(p, t[i..j]) {
        CaseKeepsMatch(p, t[i..j], s[i..j]);
      }
    }
    hide Matches;
  }

  // ------------------------------------------------------ what a substitution does

  /** No instance of p is a proper beginning of another: where a match begins says where it ends. */
  ghost predicate IsUnambiguous(p: Pattern) {
    forall w, v | Matches(p, w) && Matches(p, v) && w <= v :: w == v
  }

  /** A substitution puts the replacement in the place of the leftmost instance and goes on behind
      it; with SubKeepsClean for the rest this says what it does to every text. */
  lemma {:induction false} SubReplacesTheLeftmost(p: Pattern, r: string, a: string, w: string, b: string)
    requires IsUnambiguous(p) && w != "" && Matches(p, w)
    requires NoneBeginsIn(p, a, w + b)
    ensures Sub(p, r, a + (w + b)) == a + (r + Sub(p, r, b))
    decreases |a|
  {
    hide Matches, IsUnambiguous, NoneBeginsIn, Sub;
    if a == "" {
      SubAtAMatch(p, r, w, b);
      assert a + (w + b) == w + b && a + (r + Sub(p, r, b)) == r + Sub(p, r, b);
    } else {
      NoneBeginsBehind(p, a, w + b);
      SubReplacesTheLeftmost(p, r, a[1..], w, b);
      SubBeforeAMatch(p, r, a, w + b);
      assert a + (r + Sub(p, r, b)) == [a[0]] + (a[1..] + (r + Sub(p, r, b)));
    }
  }

  /** No instance of p begins in a when u follows. */
  ghost predicate NoneBeginsIn(p: Pattern, a: string, u: string) {
    forall i, j | 0 <= i < |a| && i <= j <= |a + u| :: !Matches(p, (a + u)[i..j])
  }

  lemma NoneBeginsBehind(p: Pattern, a: string, u: string)
    requires a != "" && NoneBeginsIn(p, a, u)
    ensures NoneBeginsIn(p, a[1..], u)
  {
    hide Matches;
    var a' := a[1..];
    forall i, j | 0 <= i < |a'| && i <= j <= |a' + u| ensures !Matches(p, (a' + u)[i..j]) {
      assert (a' + u)[i..j] == (a + u)[i + 1..j + 1];
    }
  }

  lemma SubAtAMatch(p: Pattern, r: string, w: string, b: string)
    requires IsUnambiguous(p) && w != "" && Matches(p, w)
    ensures Sub(p, r, w + b) == r + Sub(p, r, b)
  {
    hide Matches;
    var t := w + b;
    MatchIsFound(p, w, b);
    TryIsMatch(p, t);
    var n := Try(p, t).value;
    if n <= |w| {
      assert t[..n] == w[..n];
    }
    assert t[n..] == b;
  }

  lemma SubBeforeAMatch(p: Pattern, r: string, a: string, u: string)
    requires a != "" && NoneBeginsIn(p, a, u)
    ensures Sub(p, r, a + u) == [a[0]] + Sub(p, r, a[1..] + u)
  {
    hide Matches;
    var t := a + u;
    assert t[0..] == t && t[1..] == a[1..] + u;
    if Starts(p, t) {
      StartGivesMatch(p, t, 0);
    }
    hide Starts;
  }

  predicate NeverTakesGt(item: Item) {
    item.NotGt? || Avoids(item, '>')
  }

  lemma PieceAvoidsGt(item: Item, s: string)
    requires Takes(item, s) && NeverTakesGt(item)
    ensures '>' !in s
  {
    CodesOfBrackets();
    if item.Lit? {
      SameIff('>', item.c);
      NotALetter(item.c, '>');
      assert s == [s[0]];
      assert DifferInCase(s[0], item.c);
    }
  }

  /** Of the rules for tags an instance holds one '>', at its end. */
  lemma {:induction false} GtOnlyAtTheEnd(p: Pattern, w: string)
    requires p != [] && p[|p| - 1] == Lit('>') && forall i | 0 <= i < |p| - 1 :: NeverTakesGt(p[i])
    requires Matches(p, w)
    ensures w != "" && w[|w| - 1] == '>' && '>' !in w[..|w| - 1]
    decreases |p|
  {
    assert p == [p[0]] + p[1..];
    if |p| == 1 {
      LastIsGt(w);
    } else {
      var n := FirstPiece(p[0], p[1..], w);
      hide Matches, Takes;
      GtOnlyAtTheEnd(p[1..], w[n..]);
      PieceAvoidsGt(p[0], w[..n]);
      assert w[..|w| - 1] == w[..n] + w[n..][..|w[n..]| - 1];
    }
  }

  predicate EndsInGt(p: Pattern) {
    p != [] && p[|p| - 1] == Lit('>') && forall i | 0 <= i < |p| - 1 :: NeverTakesGt(p[i])
  }

  lemma TagsAreUnambiguous(p: Pattern)
    requires EndsInGt(p)
    ensures IsUnambiguous(p)
  {
    forall w, v | Matches(p, w) && Matches(p, v) && w <= v ensures w == v {
      GtOnlyAtTheEnd(p, w);
      GtOnlyAtTheEnd(p, v);
      hide Matches;
    }
  }

  lemma HeadingStarts(w: string, i: int)
    requires IsHeadedAt(w, i)
    ensures w[i] as int in {67, 99} && w[|w| - 3] as int == 61
    ensures forall j | 3 <= j < i :: w[j] as int in {9, 10, 11, 12, 13, 28, 29, 30, 31, 32}
    ensures forall j | i + |HIERARCHY| <= j < |w| - 3 :: w[j] as int in {9, 10, 11, 12, 13, 28, 29, 30, 31, 32}
  {
    assert 'C' as int == 67 && '=' as int == 61;
    assert w[i..i + |HIERARCHY|][0] == w[i];
    assert DifferInCase(w[i], 'C');
    assert w[|w| - 3] == w[|w| - 3..][0];
    forall j | 3 <= j < i ensures w[j] as int in {9, 10, 11, 12, 13, 28, 29, 30, 31, 32} {
      assert w[3..i][j - 3] == w[j];
    }
    var e := i + |HIERARCHY|;
    forall j | e <= j < |w| - 3 ensures w[j] as int in {9, 10, 11, 12, 13, 28, 29, 30, 31, 32} {
      assert w[e..|w| - 3][j - e] == w[j];
    }
  }

  lemma HeadingIsUnambiguous()
    ensures IsUnambiguous(Authority)
  {
    hide Matches, Authority;
    forall w, v | Matches(Authority, w) && Matches(Authority, v) && w <= v ensures w == v {
      HeadingRule(w);
      HeadingRule(v);
      var i :| 3 <= i && IsHeadedAt(w, i);
      var j :| 3 <= j && IsHeadedAt(v, j);
      HeadingStarts(w, i);
      HeadingStarts(v, j);
      hide IsHeadedAt, IsBlank, CaseEqual;
      assert i + |HIERARCHY| + 3 <= |w| && j + |HIERARCHY| + 3 <= |v| by {
        HeadedFits(w, i);
        HeadedFits(v, j);
      }
    }
  }

  lemma HeadedFits(w: string, i: int)
    requires IsHeadedAt(w, i)
    ensures i + |HIERARCHY| + 3 <= |w|
  {
  }

  lemma MarkIsUnambiguous()
    ensures IsUnambiguous(SystemMark)
  {
    forall w, v | Matches(SystemMark, w) && Matches(SystemMark, v) && w <= v ensures w == v {
      MarkRule(w);
      MarkRule(v);
    }
  }

  lemma ItemsOfTags()
    ensures EndsInGt(Context) && EndsInGt(TaskContext) && EndsInGt(ToolResult)
  {
    WordsTakeNoGt("untrusted_context");
    WordsTakeNoGt("untrusted_task_context");
    WordsTakeNoGt("tool_result");
    HeadTakesNoGt();
  }

  lemma ItemsOfRoles()
    ensures EndsInGt(ImStart) && EndsInGt(ImEnd) && EndsInGt(SystemRole)
  {
    WordsTakeNoGt("|im_start|");
    WordsTakeNoGt("|im_end|");
    WordsTakeNoGt("|system|");
    HeadTakesNoGt();
  }

  lemma HeadTakesNoGt()
    ensures NeverTakesGt(Lit('<')) && NeverTakesGt(Spaces) && NeverTakesGt(OptSlash) && NeverTakesGt(NotGt)
  {
  }

  lemma WordsTakeNoGt(name: string)
    requires '>' !in name
    ensures forall i | 0 <= i < |Word(name)| :: NeverTakesGt(Word(name)[i])
  {
    CodesOfBrackets();
    forall i | 0 <= i < |name| ensures NeverTakesGt(Lit(name[i])) {
      SameIff('>', name[i]);
      NotALetter(name[i], '>');
      assert name[i] in name;
    }
  }

  /** Every rule's instances say where they end. */
  lemma RulesAreUnambiguous(k: nat)
    requires k < |Rules|
    ensures IsUnambiguous(Rules[k].pattern)
  {
    ItemsOfTags();
    ItemsOfRoles();
    hide IsUnambiguous, EndsInGt, Context, TaskContext, ToolResult, Authority, ImStart, ImEnd, SystemRole, SystemMark;
    match k
    case 3 => HeadingIsUnambiguous();
    case 7 => MarkIsUnambiguous();
    case _ => TagsAreUnambiguous(Rules[k].pattern);
  }

  // ------------------------------------------------------- what stands there instead

  /** What the eight rules write. */
  function Written(k: nat): string {
    match k
    case 0 => "[neutralized_tag:untrusted_context]"
    case 1 => "[neutralized_tag:untrusted_task]"
    case 2 => "[neutralized_tag:tool_result]"
    case 3 => "--- (neutralized authority delimiter) ---"
    case 4 => "&lt;|im_start|&gt;"
    case 5 => "&lt;|im_end|&gt;"
    case 6 => "&lt;|system|&gt;"
    case _ => "[USER_DATA]"
  }

  lemma RulesWrite(k: nat)
    requires k < |Rules|
    ensures Rules[k].replacement == Written(k)
  {
  }

  /** A pass leaves a text alone that holds no instance of its rule. */
  lemma CleanPass(w: string, r: string, n: nat)
    requires n < |Rules| && Passes(w, n) == r && NoMatchIn(Rules[n].pattern, r)
    ensures Passes(w, n + 1) == r
  {
    hide Rules, NoMatchIn;
    NoMatchIsNoStart(Rules[n].pattern, r);
    SubKeepsClean(Rules[n].pattern, Rules[n].replacement, r);
  }

  lemma {:induction false} PassesAfter(w: string, r: string, m: nat, n: nat)
    requires m <= n <= |Rules| && Passes(w, m) == r && forall k | m <= k < n :: NoMatchIn(Rules[k].pattern, r)
    ensures Passes(w, n) == r
    decreases n
  {
    hide *;
    if m < n {
      PassesAfter(w, r, m, n - 1);
      CleanPass(w, r, n - 1);
    }
  }

  lemma WritingIsClean(m: nat, k: nat)
    requires m <= k < |Rules|
    ensures NoMatchIn(Rules[k].pattern, Rules[m].replacement)
  {
    hide Inert, Guarded;
    var q, r := Rules[k].pattern, Rules[m].replacement;
    FirstCharacterMissing(k, m);
    hide Rules;
    NoMatchIsNoStart(q, r);
  }

  /** Where a rule's instance could begin, a replacement has another character. */
  lemma FirstCharacterMissing(k: nat, m: nat)
    requires m <= k < |Rules|
    ensures NoStart(Rules[k].pattern, Rules[m].replacement)
  {
    var q, r := Rules[k].pattern, Rules[m].replacement;
    hide Robust, Inert, Guarded, Context, TaskContext, ToolResult, Authority, ImStart, ImEnd, SystemRole, SystemMark;
    ReplacementsAreHarmless(m);
    if k < 7 {
      PatternsAreRobust(k);
      RobustIsInert(q, r);
      InertHasNoStart(q, r);
    } else {
      MarkIsNotWritten(m);
    }
  }

  lemma InertHasNoStart(q: Pattern, r: string)
    requires q != [] && q[0].Lit? && Inert(q, r)
    ensures NoStart(q, r)
  {
    forall i | 0 <= i <= |r| ensures !Starts(q, r[i..]) {
      if i < |r| {
        assert r[i..] == r[i..] + "";
      }
    }
  }

  lemma MarkIsNotWritten(m: nat)
    requires m < |Rules|
    ensures NoStart(SystemMark, Rules[m].replacement)
  {
    RulesWrite(m);
    hide Rules, Matches, Written;
    var r := Written(m);
    forall i, j | 0 <= i <= j <= |r| ensures !Matches(SystemMark, r[i..j]) {
      MarkNotAt(m, i, j);
    }
    NoMatchIsNoStart(SystemMark, r);
  }

  lemma MarkNotAt(m: nat, i: nat, j: nat)
    requires i <= j <= |Written(m)|
    ensures !Matches(SystemMark, Written(m)[i..j])
  {
    hide Written, Matches;
    var u := Written(m)[i..j];
    MarkRule(u);
    if CaseEqual(u, "[SYSTEM]") {
      assert '[' as int == 91 && 'S' as int == 83;
      assert DifferInCase(u[0], '[') && DifferInCase(u[1], 'S');
      OnlyOneBracket(m, i);
    }
  }

  predicate OpensOnce(r: string) {
    && (forall i | 1 <= i < |r| :: r[i] != '[')
    && (|r| > 1 ==> r[1] as int !in {83, 115})
  }

  lemma TagMarksOpenOnce()
    ensures OpensOnce("[neutralized_tag:untrusted_context]")
    ensures OpensOnce("[neutralized_tag:untrusted_task]")
    ensures OpensOnce("[neutralized_tag:tool_result]")
  {
    assert 'n' as int == 110;
  }

  lemma AuthorityMarkOpensOnce()
    ensures OpensOnce("--- (neutralized authority delimiter) ---")
  {
    assert '-' as int == 45;
  }

  lemma RoleMarksOpenOnce()
    ensures OpensOnce("&lt;|im_start|&gt;") && OpensOnce("&lt;|im_end|&gt;") && OpensOnce("&lt;|system|&gt;")
    ensures OpensOnce("[USER_DATA]")
  {
    assert 'l' as int == 108 && 'U' as int == 85;
  }

  lemma OnlyOneBracket(m: nat, i: nat)
    requires i + 1 < |Written(m)| && Written(m)[i] as int == 91
    ensures Written(m)[i + 1] as int !in {83, 115}
  {
    TagMarksOpenOnce();
    AuthorityMarkOpensOnce();
    RoleMarksOpenOnce();
    assert '[' as int == 91;
    assert OpensOnce(Written(m)) by {
      hide OpensOnce;
    }
    hide Written;
  }

  /** What becomes of an instance that stands alone: exactly the replacement of its rule. */
  lemma InstanceIsReplaced(k: nat, w: string, maxChars: nat)
    requires k < |Rules| && IsInstance(k, w) && |w| <= maxChars
    requires forall j | 0 <= j < k :: NoMatchIn(Rules[j].pattern, w)
    ensures Sanitized(Some(w), maxChars) == Written(k)
  {
    RulesWrite(k);
    hide Rules, IsInstance, NoMatchIn, Matches, Sub;
    PassesAfter(w, w, 0, k);
    OwnPass(k, w);
    forall j | k + 1 <= j < |Rules| ensures NoMatchIn(Rules[j].pattern, Rules[k].replacement) {
      WritingIsClean(k, j);
    }
    PassesAfter(w, Rules[k].replacement, k + 1, |Rules|);
  }

  lemma OwnPass(k: nat, w: string)
    requires k < |Rules| && IsInstance(k, w) && Passes(w, k) == w
    ensures Passes(w, k + 1) == Rules[k].replacement
  {
    RulesTakeInstances(k, w);
    RulesAreUnambiguous(k);
    InstanceIsNotEmpty(k, w);
    hide Rules, IsInstance, Matches, IsUnambiguous;
    var p, r := Rules[k].pattern, Rules[k].replacement;
    assert w + "" == w && r + "" == r;
    SubAtAMatch(p, r, w, "");
    assert Sub(p, r, "") == "";
  }

  lemma InstanceIsNotEmpty(k: nat, w: string)
    requires IsInstance(k, w)
    ensures w != ""
  {
  }

  /** Missing text becomes empty, and a text over the bound is cut there and says so. */
  lemma LongTextIsCut(text: string, maxChars: nat)
    requires |text| > maxChars
    ensures Sanitized(None, maxChars) == ""
    ensures var cut := text[..maxChars] + " ... [TRUNCATED DUE TO LENGTH]";
      Sanitized(Some(text), maxChars) == Sanitized(Some(cut), |cut|)
  {
  }
}
