/** Wrapping sanitized text between tags that it cannot imitate. */
module PromptWrapping {
  import opened Letters
  import opened Options
  import opened Patterns
  import opened Sanitizer

  const MAX_CHARS := 32000

  const OpenName := "<untrusted_context"
  const OpenSource := " source=\"task_specification\">\n"
  const TaskOpen := OpenName + OpenSource
  const TitleOpen := "  <task_title>"
  const TitleClose := "</task_title>\n"
  const DescriptionOpen := "  <task_description>"
  const DescriptionClose := "</task_description>\n"
  const TaskClose := "</untrusted_context>"

  function TitleBlock(title: Option<string>): string {
    if title.None? || title.value == "" then ""
    else TitleOpen + (Sanitized(title, MAX_CHARS) + TitleClose)
  }

  function WrapUntrustedTask(description: Option<string>, title: Option<string>): string {
    TaskOpen + (TitleBlock(title) + (DescriptionOpen + (Sanitized(description, MAX_CHARS) + (DescriptionClose + TaskClose))))
  }

  const ToolOpen := "<tool_result tool_name=\""
  const ToolMiddle := "\" untrusted=\"true\">\n"
  const ToolClose := "\n</tool_result>"

  function WrapToolResult(toolName: string, result: string): string {
    ToolOpen + (Sanitized(Some(toolName), MAX_CHARS) + (ToolMiddle + (Sanitized(Some(result), MAX_CHARS) + ToolClose)))
  }

  // --------------------------------------------------- matching fixed strings

  lemma {:induction false} WordStarts(w: string, q: Pattern, t: string)
    ensures Starts(Word(w) + q, t) <==> |w| <= |t| && (forall i | 0 <= i < |w| :: Same(t[i], w[i])) && Starts(q, t[|w|..])
    decreases |w|
  {
    if w == "" {
      assert Word(w) + q == q && t[0..] == t;
    } else {
      assert (Word(w) + q)[1..] == Word(w[1..]) + q;
      if t != "" {
        WordStarts(w[1..], q, t[1..]);
        if |w| <= |t| {
          assert t[1..][|w| - 1..] == t[|w|..];
          assert (forall i | 0 <= i < |w[1..]| :: Same(t[1..][i], w[1..][i])) <==> (forall i | 1 <= i < |w| :: Same(t[i], w[i])) by {
            if forall i | 0 <= i < |w[1..]| :: Same(t[1..][i], w[1..][i]) {
              forall i | 1 <= i < |w| ensures Same(t[i], w[i]) {
                assert t[1..][i - 1] == t[i] && w[1..][i - 1] == w[i];
              }
            }
          }
        }
      }
    }
  }

  /** The beginning of a tag: what follows '<' and an optional slash. */
  lemma TagHeadStarts(q: Pattern, t: string)
    requires |t| >= 3 && t[0] == '<' && !IsSpace(t[1]) && (t[1] == '/' ==> !IsSpace(t[2]))
    ensures Starts(TagHead + q, t) <==> Starts(q, t[1..]) || (t[1] == '/' && Starts(q, t[2..]))
  {
    var a := TagHead + q;
    assert a[1..][0] == Spaces && a[1..][1..][0] == OptSlash && a[1..][1..][1..][0] == Spaces;
    assert a[1..][1..][1..][1..] == q;
    assert t[1..][0] == t[1] && t[1..][1..] == t[2..] && t[2..][0] == t[2];
    SpacesSkip(a[1..][1..][1..], t[1..]);
    if t[1] == '/' {
      SpacesSkip(a[1..][1..][1..], t[2..]);
    }
    SpacesSkip(a[1..], t[1..]);
  }

  lemma SpacesSkip(q: Pattern, t: string)
    requires q != [] && q[0] == Spaces && t != "" && !IsSpace(t[0])
    ensures Try(q, t) == Try(q[1..], t)
  {
  }

  lemma LtOnly(q: Pattern, t: string)
    requires q != [] && q[0] == Lit('<') && t != "" && t[0] != '<'
    ensures !Starts(q, t)
  {
  }

  // -------------------------------------------------- cutting at a character

  /** A pattern that cannot take the character c finds its match before it. */
  lemma {:induction false} CutBefore(q: Pattern, x: string, y: string)
    requires y != "" && (forall i | 0 <= i < |q| :: Avoids(q[i], y[0])) && (q != [] ==> q[|q| - 1].Lit?)
    requires Starts(q, x + y)
    ensures Starts(q, x)
    decreases |q|, |x|
  {
    if q != [] {
      if x == "" {
        AvoidingIsGuarded(q, [], y[0]);
        assert q + [] == q && x + y == [y[0]] + y[1..];
        BlockedNeverStarts(q, y[0], y[1..]);
      } else {
        assert (x + y)[1..] == x[1..] + y && (x + y)[0] == x[0];
        CutStep(q, x, y);
      }
    }
  }

  lemma {:induction false} CutStep(q: Pattern, x: string, y: string)
    requires q != [] && x != "" && y != "" && (forall i | 0 <= i < |q| :: Avoids(q[i], y[0])) && q[|q| - 1].Lit?
    requires Starts(q, x + y) && (x + y)[1..] == x[1..] + y && (x + y)[0] == x[0]
    ensures Starts(q, x)
    decreases |q|, |x|, 0
  {
    match q[0]
    case Lit(_) => CutBefore(q[1..], x[1..], y);
    case Spaces =>
      if IsSpace(x[0]) && Starts(q, x[1..] + y) {
        CutBefore(q, x[1..], y);
      } else {
        CutBefore(q[1..], x, y);
      }
    case OptSlash =>
      if x[0] == '/' && Starts(q[1..], x[1..] + y) {
        CutBefore(q[1..], x[1..], y);
      } else {
        CutBefore(q[1..], x, y);
      }
    case NotGt =>
  }

  // ------------------------------------------------------- untrusted tasks

  /** An untrusted_context tag stands at the very end of w and nowhere else. */
  ghost predicate OnlyAtEnd(w: string) {
    |TaskClose| <= |w| && forall i | 0 <= i <= |w| :: Starts(Context, w[i..]) <==> i == |w| - |TaskClose|
  }

  /** Every tag in the piece is a task_ tag. */
  predicate TaskTagsOnly(piece: string) {
    forall i | 0 <= i < |piece| && piece[i] == '<' :: IsTaskTag(piece, i)
  }

  predicate IsTaskTag(piece: string, i: nat) {
    i + 2 < |piece| && (piece[i + 1] == 't' || (piece[i + 1] == '/' && piece[i + 2] == 't'))
  }

  lemma TaskTagIsNotContext(t: string)
    requires |t| >= 3 && t[0] == '<' && (t[1] == 't' || (t[1] == '/' && t[2] == 't'))
    ensures !Starts(Context, t)
  {
    var q := Word("untrusted_context") + TagTail;
    assert Context == TagHead + q;
    TagHeadStarts(q, t);
    WordStarts("untrusted_context", TagTail, t[1..]);
    WordStarts("untrusted_context", TagTail, t[2..]);
  }

  lemma PieceKeepsOnlyAtEnd(piece: string, w: string)
    requires OnlyAtEnd(w) && TaskTagsOnly(piece)
    ensures OnlyAtEnd(piece + w)
  {
    var v := piece + w;
    forall i | 0 <= i <= |v| ensures Starts(Context, v[i..]) <==> i == |v| - |TaskClose| {
      if i < |piece| {
        assert v[i..][0] == piece[i];
        if piece[i] == '<' {
          assert IsTaskTag(piece, i);
          assert v[i..][1] == piece[i + 1] && v[i..][2] == piece[i + 2];
          TaskTagIsNotContext(v[i..]);
        } else {
          LtOnly(Context, v[i..]);
        }
      } else {
        assert v[i..] == w[i - |piece|..];
      }
    }
  }

  lemma ContextAvoidsLt()
    ensures forall i | 0 <= i < |Context[1..]| :: Avoids(Context[1..][i], '<')
    ensures Context[1..] != [] && Context[1..][|Context[1..]| - 1].Lit?
  {
    forall i | 0 <= i < |Context[1..]| ensures Avoids(Context[1..][i], '<') {
      if 3 <= i < 20 {
        assert Context[1..][i] == Lit("untrusted_context"[i - 3]);
      }
    }
  }

  lemma StartsInText(text: string, w: string, i: nat)
    requires i < |text| && w != "" && w[0] == '<' && Starts(Context, (text + w)[i..])
    ensures Starts(Context, text[i..])
  {
    ContextAvoidsLt();
    var v := text + w;
    assert v[i..][1..] == text[i + 1..] + w && v[i..][0] == text[i];
    CutBefore(Context[1..], text[i + 1..], w);
    assert text[i..][1..] == text[i + 1..];
  }

  /** Text without an untrusted_context tag cannot complete one with the tag that follows it. */
  lemma TextKeepsOnlyAtEnd(text: string, w: string)
    requires NoStart(Context, text) && OnlyAtEnd(w) && w[0] == '<'
    ensures OnlyAtEnd(text + w)
  {
    var v := text + w;
    forall i | 0 <= i <= |v| ensures Starts(Context, v[i..]) <==> i == |v| - |TaskClose| {
      if i < |text| {
        if Starts(Context, v[i..]) {
          StartsInText(text, w, i);
        }
      } else {
        assert v[i..] == w[i - |text|..];
      }
    }
  }

  lemma CloseIsContext()
    ensures Starts(Context, TaskClose)
  {
    var q := Word("untrusted_context") + TagTail;
    assert Context == TagHead + q;
    TagHeadStarts(q, TaskClose);
    WordStarts("untrusted_context", TagTail, TaskClose[2..]);
    assert TaskClose[2..][17..] == ">";
    SpacesSkip(TagTail, ">");
    assert TagTail[1..] == [Lit('>')];
    GtStarts(">");
  }

  lemma CloseIsOnlyAtEnd()
    ensures OnlyAtEnd(TaskClose)
  {
    CloseIsContext();
    assert TaskClose[0..] == TaskClose;
    forall i | 1 <= i <= |TaskClose| ensures !Starts(Context, TaskClose[i..]) {
      if i < |TaskClose| {
        assert TaskClose[i..][0] == TaskClose[i];
        LtOnly(Context, TaskClose[i..]);
      }
    }
  }

  lemma OpenKeepsOnlyAtEnd(w: string)
    requires OnlyAtEnd(w)
    ensures OnlyAtEnd(TaskOpen + w)
  {
    var u := OpenSource + w;
    assert TaskTagsOnly(OpenSource);
    PieceKeepsOnlyAtEnd(OpenSource, w);
    var v := OpenName + u;
    forall i | 0 <= i <= |v| ensures Starts(Context, v[i..]) <==> i == |v| - |TaskClose| {
      if i == 0 {
        assert v[0..] == v;
        OpenIsNotContext(w);
      } else if i < |OpenName| {
        assert v[i..][0] == OpenName[i] != '<';
        LtOnly(Context, v[i..]);
      } else {
        assert v[i..] == u[i - |OpenName|..];
      }
    }
    assert TaskOpen + w == v;
  }

  /** The opening tag carries an attribute, so it is no instance of the bare tag. */
  lemma OpenIsNotContext(w: string)
    ensures !Starts(Context, OpenName + (OpenSource + w))
  {
    var v := OpenName + (OpenSource + w);
    var q := Word("untrusted_context") + TagTail;
    assert Context == TagHead + q;
    assert v[0] == OpenName[0] && v[1] == OpenName[1] && v[2] == OpenName[2];
    TagHeadStarts(q, v);
    WordStarts("untrusted_context", TagTail, v[1..]);
    var t := v[1..][17..];
    assert t[0] == OpenSource[0] && t[1..][0] == OpenSource[1];
    assert TagTail[1..] == [Lit('>')];
    GtStarts(t);
    GtStarts(t[1..]);
    SpacesSkip(TagTail, t[1..]);
  }

  lemma TitleHasTaskTags()
    ensures TaskTagsOnly(TitleOpen) && TaskTagsOnly(TitleClose)
  {
    forall i | 0 <= i < |TitleOpen| && TitleOpen[i] == '<' ensures i == 2 {
    }
    forall i | 0 <= i < |TitleClose| && TitleClose[i] == '<' ensures i == 0 {
    }
  }

  lemma DescriptionOpensWithTaskTag()
    ensures TaskTagsOnly(DescriptionOpen)
  {
    forall i | 0 <= i < |DescriptionOpen| && DescriptionOpen[i] == '<' ensures i == 2 {
    }
  }

  lemma DescriptionClosesWithTaskTag()
    ensures TaskTagsOnly(DescriptionClose)
  {
    forall i | 0 <= i < |DescriptionClose| && DescriptionClose[i] == '<' ensures i == 0 {
    }
  }

  lemma DescriptionKeepsOnlyAtEnd(description: Option<string>)
    ensures OnlyAtEnd(DescriptionOpen + (Sanitized(description, MAX_CHARS) + (DescriptionClose + TaskClose)))
  {
    hide OnlyAtEnd, Sanitized, TaskTagsOnly, NoStart;
    var d := Sanitized(description, MAX_CHARS);
    SanitizedHasNoContext(description);
    CloseIsOnlyAtEnd();
    DescriptionOpensWithTaskTag();
    DescriptionClosesWithTaskTag();
    PieceKeepsOnlyAtEnd(DescriptionClose, TaskClose);
    var w := DescriptionClose + TaskClose;
    assert w[0] == '<';
    TextKeepsOnlyAtEnd(d, w);
    PieceKeepsOnlyAtEnd(DescriptionOpen, d + w);
  }

  /** Whatever the title and the description are, the wrapped task holds exactly one
      untrusted_context tag in the sanitizer's sense, and it is the closing one at the end. */
  lemma WrappedTaskClosesOnce(description: Option<string>, title: Option<string>)
    ensures OnlyAtEnd(WrapUntrustedTask(description, title))
  {
    hide OnlyAtEnd, Sanitized;
    var body := DescriptionOpen + (Sanitized(description, MAX_CHARS) + (DescriptionClose + TaskClose));
    DescriptionKeepsOnlyAtEnd(description);
    TitleKeepsOnlyAtEnd(title, body);
    OpenKeepsOnlyAtEnd(TitleBlock(title) + body);
  }

  predicate EndsWith(w: string, last: string) {
    |last| <= |w| && w[|w| - |last|..] == last
  }

  lemma EndsWithTheLast(a: string, b: string, c: string, d: string, e: string, last: string)
    ensures EndsWith(a + (b + (c + (d + (e + last)))), last)
  {
    assert a + (b + (c + (d + (e + last)))) == (a + (b + (c + (d + e)))) + last;
  }

  lemma WrappedTaskEndsWithClose(description: Option<string>, title: Option<string>)
    ensures EndsWith(WrapUntrustedTask(description, title), TaskClose)
  {
    hide Sanitized, TitleBlock, EndsWith;
    EndsWithTheLast(TaskOpen, TitleBlock(title), DescriptionOpen, Sanitized(description, MAX_CHARS), DescriptionClose, TaskClose);
  }

  lemma TitleKeepsOnlyAtEnd(title: Option<string>, body: string)
    requires OnlyAtEnd(body)
    ensures OnlyAtEnd(TitleBlock(title) + body)
  {
    hide OnlyAtEnd, Sanitized, TaskTagsOnly, NoStart;
    TitleHasTaskTags();
    if title.None? || title.value == "" {
      assert TitleBlock(title) + body == body;
    } else {
      var t := Sanitized(title, MAX_CHARS);
      SanitizedHasNoContext(title);
      PieceKeepsOnlyAtEnd(TitleClose, body);
      TextKeepsOnlyAtEnd(t, TitleClose + body);
      PieceKeepsOnlyAtEnd(TitleOpen, t + (TitleClose + body));
      Regrouped(TitleOpen, t, TitleClose, body);
    }
  }

  lemma Regrouped(a: string, b: string, c: string, d: string)
    ensures (a + (b + c)) + d == a + (b + (c + d))
  {
  }

  lemma SanitizedHasNoContext(text: Option<string>)
    ensures NoStart(Context, Sanitized(text, MAX_CHARS))
  {
    SanitizedTextIsClean(text, MAX_CHARS);
    assert Rules[0].pattern == Context;
    hide Rules;
    NoMatchIsNoStart(Context, Sanitized(text, MAX_CHARS));
  }

  // ---------------------------------------------------------- tool results

  /** A tool_result tag that lacks its '>' begins somewhere in the text. */
  ghost predicate Dangling(text: string) {
    !NoStart(ToolOpener, text)
  }

  lemma ToolOpenerItems()
    ensures |ToolOpener| == 15 && ToolOpener[0] == Lit('<') && ToolOpener[14] == Lit('t')
    ensures forall i | 1 <= i < 15 :: Avoids(ToolOpener[i], '<') && Avoids(ToolOpener[i], '"')
    ensures Avoids(ToolOpener[0], '"')
  {
    assert ToolOpener == TagHead + Word("tool_result");
    forall i | 4 <= i < 15 ensures ToolOpener[i] == Lit("tool_result"[i - 4]) {
    }
  }

  /** The opening part of a pattern is found wherever the whole pattern is. */
  lemma {:induction false} FrontStarts(q: Pattern, b: Pattern, t: string)
    requires Starts(q + b, t)
    ensures Starts(q, t)
    decreases |q|, |t|
  {
    if q != [] {
      assert (q + b)[1..] == q[1..] + b;
      match q[0]
      case Lit(_) => FrontStarts(q[1..], b, t[1..]);
      case Spaces =>
        if t != "" && IsSpace(t[0]) && Starts(q + b, t[1..]) {
          FrontStarts(q, b, t[1..]);
        } else {
          FrontStarts(q[1..], b, t);
        }
      case OptSlash =>
        if t != "" && t[0] == '/' && Starts(q[1..] + b, t[1..]) {
          FrontStarts(q[1..], b, t[1..]);
        } else {
          FrontStarts(q[1..], b, t);
        }
      case NotGt =>
        if t != "" && t[0] != '>' && Starts(q + b, t[1..]) {
          FrontStarts(q, b, t[1..]);
        } else {
          FrontStarts(q[1..], b, t);
        }
    }
  }

  /** A dangling opener is completed by any '>' that follows. */
  lemma {:induction false} GtCompletes(q: Pattern, u: string, v: string)
    requires Starts(q, u) && '>' in v
    ensures Starts(q + UpToGt, u + v)
    decreases |q|, |u|
  {
    if q == [] {
      assert q + UpToGt == UpToGt;
      UpToGtStarts(u + v);
    } else {
      assert (q + UpToGt)[1..] == q[1..] + UpToGt;
      if u != "" {
        assert (u + v)[1..] == u[1..] + v;
      }
      match q[0]
      case Lit(_) => GtCompletes(q[1..], u[1..], v);
      case Spaces =>
        if u != "" && IsSpace(u[0]) && Starts(q, u[1..]) {
          GtCompletes(q, u[1..], v);
        } else {
          GtCompletes(q[1..], u, v);
        }
      case OptSlash =>
        if u != "" && u[0] == '/' && Starts(q[1..], u[1..]) {
          GtCompletes(q[1..], u[1..], v);
        } else {
          GtCompletes(q[1..], u, v);
        }
      case NotGt =>
        if u != "" && u[0] != '>' && Starts(q, u[1..]) {
          GtCompletes(q, u[1..], v);
        } else {
          GtCompletes(q[1..], u, v);
        }
    }
  }

  /** Trailing whitespace completes no pattern that ends in a word. */
  lemma {:induction false} SpaceAddsNothing(q: Pattern, u: string, c: char)
    requires (forall i | 0 <= i < |q| :: q[i].Lit? ==> !Same(c, q[i].c)) && (forall i | 0 <= i < |q| :: !q[i].NotGt?)
    requires q != [] ==> q[|q| - 1].Lit?
    requires c != '/' && Starts(q, u + [c])
    ensures Starts(q, u)
    decreases |q|, |u|
  {
    if q != [] {
      if u != "" {
        assert (u + [c])[1..] == u[1..] + [c];
      } else {
        assert (u + [c])[1..] == "" && u + [c] == [c];
        LitNeedsText(q);
      }
      match q[0]
      case Lit(_) => SpaceAddsNothing(q[1..], u[1..], c);
      case Spaces =>
        if u != "" && IsSpace(u[0]) && Starts(q, u[1..] + [c]) {
          SpaceAddsNothing(q, u[1..], c);
        } else {
          SpaceAddsNothing(q[1..], u, c);
        }
      case OptSlash =>
        if u != "" && u[0] == '/' && Starts(q[1..], u[1..] + [c]) {
          SpaceAddsNothing(q[1..], u[1..], c);
        } else {
          SpaceAddsNothing(q[1..], u, c);
        }
    }
  }

  lemma {:induction false} LitNeedsText(q: Pattern)
    requires q != [] && q[|q| - 1].Lit?
    ensures !Starts(q, "")
  {
    if |q| > 1 {
      LitNeedsText(q[1..]);
    }
  }

  /** In the text before a character the opener cannot take, tool_result tags begin exactly
      where an opener dangles. */
  lemma TagsInText(text: string, w: string, i: nat)
    requires i < |text| && w != "" && '>' in w
    requires w[0] == '"' || (|w| > 1 && w[0] == '\n' && w[1] == '<')
    ensures Starts(ToolResult, (text + w)[i..]) <==> Starts(ToolOpener, text[i..])
  {
    assert (text + w)[i..] == text[i..] + w;
    if Starts(ToolOpener, text[i..]) {
      GtCompletes(ToolOpener, text[i..], w);
    }
    if Starts(ToolResult, text[i..] + w) {
      FrontStarts(ToolOpener, UpToGt, text[i..] + w);
      OpenerInText(text[i..], w);
    }
  }

  lemma OpenerInText(u: string, w: string)
    requires u != "" && w != ""
    requires w[0] == '"' || (|w| > 1 && w[0] == '\n' && w[1] == '<')
    requires Starts(ToolOpener, u + w)
    ensures Starts(ToolOpener, u)
  {
    ToolOpenerItems();
    if w[0] == '"' {
      CutBefore(ToolOpener, u, w);
    } else {
      var q := ToolOpener[1..];
      assert (u + w)[1..] == (u[1..] + ['\n']) + w[1..];
      CutBefore(q, u[1..] + ['\n'], w[1..]);
      SpaceAddsNothing(q, u[1..], '\n');
    }
  }

  ghost predicate TagsAt(w: string, i: int) {
    0 <= i <= |w| && Starts(ToolResult, w[i..])
  }

  lemma TagsAfterText(text: string, w: string, i: int)
    requires w != "" && '>' in w
    requires w[0] == '"' || (|w| > 1 && w[0] == '\n' && w[1] == '<')
    ensures TagsAt(text + w, i) <==> (0 <= i < |text| && Starts(ToolOpener, text[i..])) || TagsAt(w, i - |text|)
  {
    if 0 <= i < |text| {
      TagsInText(text, w, i);
    } else if |text| <= i <= |text + w| {
      assert (text + w)[i..] == w[i - |text|..];
    }
  }

  lemma TagsAfterPiece(piece: string, w: string, i: int)
    requires forall k | 0 <= k < |piece| :: piece[k] != '<'
    ensures TagsAt(piece + w, i) <==> TagsAt(w, i - |piece|)
  {
    if 0 <= i < |piece| {
      assert (piece + w)[i..][0] == piece[i];
      LtOnly(ToolResult, (piece + w)[i..]);
    } else if |piece| <= i <= |piece + w| {
      assert (piece + w)[i..] == w[i - |piece|..];
    }
  }

  /** A tag whose name is spelled out, with or without a slash, is a tool_result tag once a
      '>' follows. */
  lemma SpelledTag(slash: string, w: string)
    requires (slash == "" || slash == "/") && '>' in w
    ensures Starts(ToolResult, "<" + slash + "tool_result" + w)
  {
    var t := "<" + slash + "tool_result" + w;
    var q := Word("tool_result") + UpToGt;
    assert ToolResult == TagHead + q;
    assert |t| >= 3 && t[0] == '<';
    TagHeadStarts(q, t);
    var name := t[1 + |slash|..];
    assert name[..11] == "tool_result" && name[11..] == w;
    assert forall k | 0 <= k < 11 :: name[k] == name[..11][k];
    WordStarts("tool_result", UpToGt, name);
    UpToGtStarts(w);
  }

  lemma ClosingTag(i: int)
    ensures TagsAt(ToolClose, i) <==> i == 1
  {
    var t := "</tool_result>";
    assert ToolClose == "\n" + t;
    if i == 1 {
      SpelledTag("/", ">");
      assert ToolClose[1..] == "<" + "/" + "tool_result" + ">";
    } else if 0 <= i < |ToolClose| {
      assert ToolClose[i..][0] == ToolClose[i] != '<';
      LtOnly(ToolResult, ToolClose[i..]);
    }
  }

  lemma OpeningTag(w: string, i: int)
    requires '>' in w
    ensures TagsAt(ToolOpen + w, i) <==> i == 0 || TagsAt(w, i - |ToolOpen|)
  {
    var v := ToolOpen + w;
    var attribute := " tool_name=\"";
    assert ToolOpen == "<" + "" + "tool_result" + attribute;
    if i == 0 {
      SpelledTag("", attribute + w);
      assert v[0..] == v == "<" + "" + "tool_result" + (attribute + w);
    } else if 0 < i < |ToolOpen| {
      assert v[i..][0] == ToolOpen[i] != '<';
      LtOnly(ToolResult, v[i..]);
    } else if |ToolOpen| <= i <= |v| {
      assert v[i..] == w[i - |ToolOpen|..];
    }
  }

  lemma MiddleIsPlain()
    ensures ToolMiddle[0] == '"' && forall k | 0 <= k < |ToolMiddle| :: ToolMiddle[k] != '<'
  {
  }

  /** Where tool_result tags begin in a wrapped tool result: at its opening tag, at its closing
      tag, and at every opener that dangles in the sanitized tool name or result. */
  lemma ToolTagPositions(toolName: string, result: string, i: int)
    ensures var n, x := Sanitized(Some(toolName), MAX_CHARS), Sanitized(Some(result), MAX_CHARS);
      var w := WrapToolResult(toolName, result);
      var a := |ToolOpen|;
      var b := a + |n| + |ToolMiddle|;
      TagsAt(w, i) <==>
        || i == 0
        || i == b + |x| + 1
        || (a <= i < a + |n| && Starts(ToolOpener, n[i - a..]))
        || (b <= i < b + |x| && Starts(ToolOpener, x[i - b..]))
  {
    hide Sanitized, Starts, TagsAt;
    var n, x := Sanitized(Some(toolName), MAX_CHARS), Sanitized(Some(result), MAX_CHARS);
    var a := |ToolOpen|;
    var b := a + |n| + |ToolMiddle|;
    MiddleIsPlain();
    assert ToolClose[|ToolClose| - 1] == '>';
    ClosingTag(i - b - |x|);
    TagsAfterText(x, ToolClose, i - b);
    var w2 := x + ToolClose;
    assert w2[|w2| - 1] == '>';
    TagsAfterPiece(ToolMiddle, w2, i - a - |n|);
    var w3 := ToolMiddle + w2;
    assert w3[|w3| - 1] == '>';
    TagsAfterText(n, w3, i - a);
    var w4 := n + w3;
    assert w4[|w4| - 1] == '>';
    OpeningTag(w4, i);
  }

  /** A wrapped tool result holds no tool_result tag besides its own two exactly when no
      opener dangles in the sanitized tool name and none in the sanitized result. */
  lemma WrappedResultHasOwnTagsOnly(toolName: string, result: string)
    ensures var w := WrapToolResult(toolName, result);
      (forall i :: TagsAt(w, i) <==> i == 0 || i == |w| - |ToolClose| + 1)
      <==> !Dangling(Sanitized(Some(toolName), MAX_CHARS)) && !Dangling(Sanitized(Some(result), MAX_CHARS))
  {
    hide Sanitized, Starts, TagsAt;
    var n, x := Sanitized(Some(toolName), MAX_CHARS), Sanitized(Some(result), MAX_CHARS);
    var w := WrapToolResult(toolName, result);
    var a := |ToolOpen|;
    var b := a + |n| + |ToolMiddle|;
    forall i ensures TagsAt(w, i) <==>
      i == 0 || i == b + |x| + 1 || (a <= i < a + |n| && Starts(ToolOpener, n[i - a..])) || (b <= i < b + |x| && Starts(ToolOpener, x[i - b..]))
    {
      ToolTagPositions(toolName, result, i);
    }
    EmptyHasNoOpener();
    if Dangling(n) {
      var k :| 0 <= k <= |n| && Starts(ToolOpener, n[k..]);
      assert k < |n| by {
        assert n[|n|..] == "";
      }
      assert TagsAt(w, a + k);
    }
    if Dangling(x) {
      var k :| 0 <= k <= |x| && Starts(ToolOpener, x[k..]);
      assert k < |x| by {
        assert x[|x|..] == "";
      }
      assert TagsAt(w, b + k);
    }
  }

  lemma EmptyHasNoOpener()
    ensures !Starts(ToolOpener, "")
  {
  }

  lemma {:induction false} LastLiteralNeeded(q: Pattern, t: string)
    requires q != [] && q[|q| - 1].Lit? && forall k | 0 <= k < |t| :: !Same(t[k], q[|q| - 1].c)
    ensures !Starts(q, t)
    decreases |q|, |t|
  {
    if |q| > 1 {
      LastLiteralNeeded(q[1..], t);
    }
    if t != "" {
      if |q| > 1 {
        LastLiteralNeeded(q[1..], t[1..]);
      }
      if !q[0].Lit? {
        LastLiteralNeeded(q, t[1..]);
      }
    }
  }

  lemma LastLiterals(k: int)
    requires 0 <= k < |Rules|
    ensures var q := Rules[k].pattern;
      q != [] && q[|q| - 1].Lit? && (q[|q| - 1].c == '>' || q[|q| - 1].c == '=' || q[|q| - 1].c == ']')
  {
    assert "==="[2] == '=' && "[SYSTEM]"[7] == ']';
  }

  lemma NoEndNoMatch(k: int, t: string)
    requires 0 <= k < |Rules| && '>' !in t && '=' !in t && ']' !in t
    ensures NoMatchIn(Rules[k].pattern, t)
  {
    LastLiterals(k);
    hide Rules;
    var q := Rules[k].pattern;
    NoMatchIsNoStart(q, t);
    forall i | 0 <= i <= |t| ensures !Starts(q, t[i..]) {
      forall j | 0 <= j < |t[i..]| ensures !Same(t[i..][j], q[|q| - 1].c) {
        assert t[i..][j] == t[i + j] && t[i + j] in t;
      }
      LastLiteralNeeded(q, t[i..]);
    }
  }

  /** The condition can fail: this result passes the sanitizer unchanged, and together with
      the closing tag it reads as one more tool_result tag. */
  lemma DanglingOpenerSurvives(toolName: string)
    ensures Sanitized(Some("<tool_result"), MAX_CHARS) == "<tool_result"
    ensures var w := WrapToolResult(toolName, "<tool_result");
      !forall i :: TagsAt(w, i) <==> i == 0 || i == |w| - |ToolClose| + 1
  {
    var t := "<tool_result";
    hide TagsAt, WrapToolResult;
    forall k | 0 <= k < |Rules| ensures NoMatchIn(Rules[k].pattern, t) {
      NoEndNoMatch(k, t);
    }
    OnlyDangerousTextChanges(t, MAX_CHARS);
    OpenerDangles();
    WrappedResultHasOwnTagsOnly(toolName, t);
  }

  lemma OpenerDangles()
    ensures Dangling("<tool_result")
  {
    var t := "<tool_result";
    SpelledTag("", ">");
    assert "<" + "" + "tool_result" + ">" == t + [">"[0]];
    FrontStarts(ToolOpener, UpToGt, t + ['>']);
    ToolOpenerItems();
    OpenerWithoutGt(t);
    assert t[0..] == t;
  }

  lemma OpenerWithoutGt(t: string)
    requires t != "" && Starts(ToolOpener, t + ['>'])
    ensures Starts(ToolOpener, t)
  {
    assert ToolOpener == TagHead + Word("tool_result");
    forall i | 0 <= i < |ToolOpener| ensures ToolOpener[i].Lit? ==> !Same('>', ToolOpener[i].c) {
      if i >= 4 {
        assert ToolOpener[i] == Lit("tool_result"[i - 4]);
      }
    }
    SpaceAddsNothing(ToolOpener, t, '>');
  }

  // ------------------------------------------------------------------ what is sent

  /** The wrapped task, read from the top: the title, if there is one, and the description stand
      sanitized between their own tags. */
  lemma WrappedTaskReads(description: Option<string>, title: Option<string>)
    ensures title.None? || title.value == "" ==>
      WrapUntrustedTask(description, title)
      == "<untrusted_context" + " source=\"task_specification\">\n" + "  <task_description>" + Sanitized(description, 32000)
         + "</task_description>\n" + "</untrusted_context>"
    ensures title.Some? && title.value != "" ==>
      WrapUntrustedTask(description, title)
      == "<untrusted_context" + " source=\"task_specification\">\n" + "  <task_title>" + Sanitized(title, 32000) + "</task_title>\n"
         + "  <task_description>" + Sanitized(description, 32000) + "</task_description>\n" + "</untrusted_context>"
  {
    hide Sanitized;
    var d, t := Sanitized(description, 32000), Sanitized(title, 32000);
    FlatSix(OpenName, OpenSource, DescriptionOpen, d, DescriptionClose, TaskClose);
    FlatNine(OpenName, OpenSource, TitleOpen, t, TitleClose, DescriptionOpen, d, DescriptionClose, TaskClose);
    assert TaskOpen + ("" + (DescriptionOpen + (d + (DescriptionClose + TaskClose))))
      == (OpenName + OpenSource) + (DescriptionOpen + (d + (DescriptionClose + TaskClose)));
  }

  lemma FlatSix(a: string, b: string, c: string, d: string, e: string, f: string)
    ensures (a + b) + (c + (d + (e + f))) == a + b + c + d + e + f
  {
  }

  lemma FlatNine(a: string, b: string, c: string, d: string, e: string, f: string, g: string, h: string, i: string)
    ensures (a + b) + ((c + (d + e)) + (f + (g + (h + i)))) == a + b + c + d + e + f + g + h + i
  {
    assert (c + (d + e)) + (f + (g + (h + i))) == c + d + e + f + g + h + i;
    var rest := c + d + e + f + g + h + i;
    assert (a + b) + rest == a + b + c + d + e + f + g + h + i;
  }

  /** The wrapped tool result: the name in an attribute, the result on a line of its own. */
  lemma WrappedResultReads(toolName: string, result: string)
    ensures WrapToolResult(toolName, result)
      == "<tool_result tool_name=\"" + Sanitized(Some(toolName), 32000) + "\" untrusted=\"true\">\n"
         + Sanitized(Some(result), 32000) + "\n</tool_result>"
  {
    hide Sanitized;
    FlatFive(ToolOpen, Sanitized(Some(toolName), 32000), ToolMiddle, Sanitized(Some(result), 32000), ToolClose);
  }

  lemma FlatFive(a: string, b: string, c: string, d: string, e: string)
    ensures a + (b + (c + (d + e))) == a + b + c + d + e
  {
  }
}
