/** Neutralizing control delimiters in untrusted text: eight substitutions in a row. */
module Sanitizer {
  import opened Letters
  import opened Options
  import opened Patterns

  datatype Rule = Rule(pattern: Pattern, replacement: string)

  // The eight dangerous patterns, in the order in which they are replaced.
  const Context: Pattern := [Lit('<'), Spaces, OptSlash, Spaces] + Word("untrusted_context") + [Spaces, Lit('>')]
  const TaskContext: Pattern := [Lit('<'), Spaces, OptSlash, Spaces] + Word("untrusted_task_context") + [Spaces, Lit('>')]
  const ToolOpener: Pattern := [Lit('<'), Spaces, OptSlash, Spaces] + Word("tool_result")
  const ToolResult: Pattern := ToolOpener + [NotGt, Lit('>')]
  const Authority: Pattern := Word("===") + [Spaces] + Word("CORE AUTHORITY HIERARCHY") + [Spaces] + Word("===")
  const ImStart: Pattern := [Lit('<'), Spaces] + Word("|im_start|") + [Spaces, Lit('>')]
  const ImEnd: Pattern := [Lit('<'), Spaces] + Word("|im_end|") + [Spaces, Lit('>')]
  const SystemRole: Pattern := [Lit('<'), Spaces] + Word("|system|") + [Spaces, Lit('>')]
  const SystemMark: Pattern := Word("[SYSTEM]")

  const Rules: seq<Rule> := [
    Rule(Context, "[neutralized_tag:untrusted_context]"),
    Rule(TaskContext, "[neutralized_tag:untrusted_task]"),
    Rule(ToolResult, "[neutralized_tag:tool_result]"),
    Rule(Authority, "--- (neutralized authority delimiter) ---"),
    Rule(ImStart, "&lt;|im_start|&gt;"),
    Rule(ImEnd, "&lt;|im_end|&gt;"),
    Rule(SystemRole, "&lt;|system|&gt;"),
    Rule(SystemMark, "[USER_DATA]")
  ]

  const TruncationNote := " ... [TRUNCATED DUE TO LENGTH]"

  function Bounded(text: string, maxChars: nat): string {
    if |text| > maxChars then text[..maxChars] + TruncationNote else text
  }

  /** The text after the first n substitutions. */
  function Passes(text: string, n: nat): string
    requires n <= |Rules|
  {
    if n == 0 then text else Sub(Rules[n - 1].pattern, Rules[n - 1].replacement, Passes(text, n - 1))
  }

  function Sanitized(text: Option<string>, maxChars: nat): string {
    match text
    case None => ""
    case Some(t) => Passes(Bounded(t, maxChars), |Rules|)
  }

  method SanitizeUntrustedInput(text: Option<string>, maxChars: nat := 32000) returns (sanitized: string)
    ensures sanitized == Sanitized(text, maxChars)
    ensures forall k | 0 <= k < |Rules| :: NoMatchIn(Rules[k].pattern, sanitized)
  {
    if text.None? {
      NothingMatchesNothing();
      return "";
    }
    sanitized := text.value;
    if |sanitized| > maxChars {
      sanitized := sanitized[..maxChars] + TruncationNote;
    }
    for n := 0 to |Rules|
      invariant sanitized == Passes(Bounded(text.value, maxChars), n)
    {
      sanitized := Sub(Rules[n].pattern, Rules[n].replacement, sanitized);
    }
    SanitizedTextIsClean(text, maxChars);
  }

  lemma NothingMatchesNothing()
    ensures forall k | 0 <= k < |Rules| :: NoMatchIn(Rules[k].pattern, "")
  {
    forall k | 0 <= k < |Rules| ensures NoMatchIn(Rules[k].pattern, "") {
      RulesBegin(k);
      NoMatchIsNoStart(Rules[k].pattern, "");
    }
  }

  // ------------------------------------------- why a pass does not undo another

  /** No match of p, wherever it began before, can take c as its next character: the literals
      up to and including the next one differ from c, and no run in between can absorb it. */
  predicate Blocked(p: Pattern, c: char) {
    p != [] && match p[0]
      case Lit(d) => !Same(c, d)
      case Spaces => !IsSpace(c) && Blocked(p[1..], c)
      case OptSlash => c != '/' && Blocked(p[1..], c)
      case NotGt => false
  }

  lemma {:induction false} BlockedNeverStarts(p: Pattern, c: char, rest: string)
    requires Blocked(p, c)
    ensures !Starts(p, [c] + rest)
  {
    if !p[0].Lit? {
      BlockedNeverStarts(p[1..], c, rest);
    }
  }

  /** The tail of the tool_result pattern: anything up to a '>'. */
  const UpToGt: Pattern := [NotGt, Lit('>')]

  /** Every proper rest of p is blocked by c or only waits for a '>'. */
  predicate Guarded(p: Pattern, c: char) {
    p == [] || p == UpToGt || (Blocked(p, c) && Guarded(p[1..], c))
  }

  lemma GtStarts(t: string)
    ensures Starts([Lit('>')], t) <==> t != "" && t[0] == '>'
  {
    var p := [Lit('>')];
    assert p[1..] == [];
    if t != "" {
      assert Try(p[1..], t[1..]) == Some(0);
      assert Same(t[0], '>') <==> t[0] == '>';
    }
  }

  lemma {:induction false} UpToGtStarts(t: string)
    ensures Starts(UpToGt, t) <==> '>' in t
  {
    assert UpToGt[1..] == [Lit('>')];
    GtStarts(t);
    if t != "" {
      UpToGtStarts(t[1..]);
      assert t == [t[0]] + t[1..];
    }
  }

  /** Substitution brings in no '>' that was not there. */
  lemma {:induction false} SubAddsNoGt(p: Pattern, r: string, t: string)
    requires '>' !in r
    ensures '>' in Sub(p, r, t) ==> '>' in t
    decreases |t|
  {
    if t != "" {
      assert t == [t[0]] + t[1..];
      match Try(p, t)
      case Some(n) =>
        if n == 0 {
          SubAddsNoGt(p, r, t[1..]);
        } else {
          SubAddsNoGt(p, r, t[n..]);
          assert t == t[..n] + t[n..];
        }
      case None => SubAddsNoGt(p, r, t[1..]);
    }
  }

  /** A match (or the rest of one) in the text after a substitution was there before: it ends
      before the first replacement, or only needs a '>' that was there too. */
  lemma {:induction false} MatchWasThere(q: Pattern, p: Pattern, r: string, t: string)
    requires r != "" && '>' !in r && Guarded(q, r[0])
    requires Starts(q, Sub(p, r, t))
    ensures Starts(q, t)
    decreases |q|, |t|
  {
    var out := Sub(p, r, t);
    if q == [] {
    } else if q == UpToGt {
      UpToGtStarts(out);
      SubAddsNoGt(p, r, t);
      UpToGtStarts(t);
    } else if t == "" {
    } else if Try(p, t).Some? && Try(p, t).value > 0 {
      var rest := Sub(p, r, t[Try(p, t).value..]);
      assert out == [r[0]] + (r[1..] + rest);
      BlockedNeverStarts(q, r[0], r[1..] + rest);
    } else {
      assert out[1..] == Sub(p, r, t[1..]);
      MatchStepWasThere(q, p, r, t);
    }
  }

  lemma {:induction false} MatchStepWasThere(q: Pattern, p: Pattern, r: string, t: string)
    requires r != "" && '>' !in r && Blocked(q, r[0]) && Guarded(q[1..], r[0])
    requires t != "" && Sub(p, r, t) == [t[0]] + Sub(p, r, t[1..])
    requires Starts(q, Sub(p, r, t))
    ensures Starts(q, t)
    decreases |q|, |t|, 0
  {
    var out := Sub(p, r, t);
    assert out[0] == t[0] && out[1..] == Sub(p, r, t[1..]);
    match q[0]
    case Lit(c) => MatchWasThere(q[1..], p, r, t[1..]);
    case Spaces =>
      if IsSpace(out[0]) && Starts(q, out[1..]) {
        MatchWasThere(q, p, r, t[1..]);
      } else {
        MatchWasThere(q[1..], p, r, t);
      }
    case OptSlash =>
      if out[0] == '/' && Starts(q[1..], out[1..]) {
        MatchWasThere(q[1..], p, r, t[1..]);
      } else {
        MatchWasThere(q[1..], p, r, t);
      }
    case NotGt =>
  }

  /** Nothing beginning inside the replacement matches, whatever follows it. */
  ghost predicate Inert(q: Pattern, r: string) {
    forall i, rest | 0 <= i < |r| :: !Starts(q, r[i..] + rest)
  }

  /** A substitution leaves no match of q when there was none before, and no match of its own
      pattern in any case. */
  lemma {:induction false} PassLeavesClean(q: Pattern, p: Pattern, r: string, t: string)
    requires q != [] && q[0].Lit? && r != "" && '>' !in r && Guarded(q[1..], r[0]) && Inert(q, r)
    requires q == p || NoStart(q, t)
    ensures NoStart(q, Sub(p, r, t))
    decreases |t|
  {
    var out := Sub(p, r, t);
    if t == "" {
    } else if Try(p, t).Some? && Try(p, t).value > 0 {
      var n := Try(p, t).value;
      if q != p {
        NoStartDrop(q, t, n);
      }
      PassLeavesClean(q, p, r, t[n..]);
      InertPrefix(q, r, Sub(p, r, t[n..]));
    } else {
      if q != p {
        NoStartTail(q, t);
        assert t[0..] == t;
      }
      PassLeavesClean(q, p, r, t[1..]);
      assert out[1..] == Sub(p, r, t[1..]);
      if Starts(q, out) {
        MatchWasThere(q[1..], p, r, t[1..]);
        assert Starts(q, t);
        StartIsNotEmpty(q, t);
        assert false;
      }
      NoStartCons(q, out);
    }
  }

  lemma StartIsNotEmpty(q: Pattern, t: string)
    requires q != [] && q[0].Lit? && Starts(q, t)
    ensures Try(q, t).value > 0
  {
  }

  lemma NoStartDrop(q: Pattern, t: string, n: nat)
    requires NoStart(q, t) && n <= |t|
    ensures NoStart(q, t[n..])
  {
    forall i | 0 <= i <= |t| - n ensures !Starts(q, t[n..][i..]) {
      assert t[n..][i..] == t[n + i..];
    }
  }

  lemma InertPrefix(q: Pattern, r: string, t: string)
    requires Inert(q, r) && NoStart(q, t)
    ensures NoStart(q, r + t)
  {
    forall i | 0 <= i <= |r + t| ensures !Starts(q, (r + t)[i..]) {
      if i < |r| {
        assert (r + t)[i..] == r[i..] + t;
      } else {
        assert (r + t)[i..] == t[i - |r|..];
      }
    }
  }

  // --------------------------------------------------------- the eight rules

  lemma RulesBegin(k: int)
    requires 0 <= k < |Rules|
    ensures Rules[k].pattern != [] && Rules[k].pattern[0].Lit? && Rules[k].replacement != ""
  {
  }

  /** After all passes no substring of the text is an instance of any of the eight patterns. */
  lemma SanitizedTextIsClean(text: Option<string>, maxChars: nat)
    ensures forall k | 0 <= k < |Rules| :: NoMatchIn(Rules[k].pattern, Sanitized(text, maxChars))
  {
    match text
    case None => NothingMatchesNothing();
    case Some(t) =>
      forall k | 0 <= k < |Rules| ensures NoMatchIn(Rules[k].pattern, Sanitized(text, maxChars)) {
        PassesLeaveClean(Bounded(t, maxChars), k, |Rules|);
        NoMatchIsNoStart(Rules[k].pattern, Sanitized(text, maxChars));
      }
  }

  /** From its own pass on, a pattern never matches again. */
  lemma {:induction false} PassesLeaveClean(text: string, k: int, n: int)
    requires 0 <= k < n <= |Rules|
    ensures NoStart(Rules[k].pattern, Passes(text, n))
    decreases n
  {
    hide Rules;
    if k < n - 1 {
      PassesLeaveClean(text, k, n - 1);
    }
    RulesAreIndependent(k, n - 1);
    PassLeavesClean(Rules[k].pattern, Rules[n - 1].pattern, Rules[n - 1].replacement, Passes(text, n - 1));
  }

  // ------------------------------------------------ the rules against each other

  /** The item cannot take the character c. */
  predicate Avoids(item: Item, c: char) {
    match item
    case Lit(d) => !Same(c, d)
    case Spaces => !IsSpace(c)
    case OptSlash => c != '/'
    case NotGt => false
  }

  lemma {:induction false} AvoidingIsGuarded(a: Pattern, b: Pattern, c: char)
    requires (forall i | 0 <= i < |a| :: Avoids(a[i], c)) && (a != [] ==> a[|a| - 1].Lit?)
    requires Guarded(b, c)
    ensures Guarded(a + b, c)
    ensures a != [] ==> Blocked(a + b, c)
  {
    if a == [] {
      assert a + b == b;
    } else {
      AvoidingIsGuarded(a[1..], b, c);
      assert (a + b)[1..] == a[1..] + b;
    }
  }

  /** The characters that the eight replacements begin with. */
  predicate Opening(c: char) { c == '[' || c == '-' || c == '&' }

  lemma OpeningIsPlain(c: char, d: char)
    requires Opening(c) && d != c
    ensures !Same(c, d) && !IsSpace(c) && c != '/'
  {
  }

  /** The pattern of every rule but the last: its first literal, and a rest no character that
      begins a replacement can enter. */
  ghost predicate Robust(q: Pattern) {
    && q != [] && q[0].Lit? && (q[0].c == '<' || q[0].c == '=')
    && forall c | Opening(c) :: Guarded(q[1..], c)
  }

  lemma WordsAreRobust(head: Pattern, w: string, tail: Pattern, b: Pattern)
    requires head != [] && head[0].Lit? && (head[0].c == '<' || head[0].c == '=')
    requires forall i | 0 <= i < |head| :: head[i].Spaces? || head[i].OptSlash? || (head[i].Lit? && !Opening(head[i].c))
    requires forall i | 0 <= i < |tail| :: tail[i].Spaces? || (tail[i].Lit? && !Opening(tail[i].c))
    requires w != "" && (forall i | 0 <= i < |w| :: !Opening(w[i])) && (tail != [] ==> tail[|tail| - 1].Lit?)
    requires b == [] || b == UpToGt
    ensures Robust(head + Word(w) + tail + b)
  {
    var a := head + Word(w) + tail;
    forall c | Opening(c) ensures Guarded((a + b)[1..], c) {
      forall i | 1 <= i < |a| ensures Avoids(a[i], c) {
        if a[i].Lit? {
          OpeningIsPlain(c, a[i].c);
        }
      }
      AvoidingIsGuarded(a[1..], b, c);
      assert (a + b)[1..] == a[1..] + b;
    }
  }

  const TagHead: Pattern := [Lit('<'), Spaces, OptSlash, Spaces]
  const RoleHead: Pattern := [Lit('<'), Spaces]
  const TagTail: Pattern := [Spaces, Lit('>')]

  lemma TagsAreRobust()
    ensures Robust(Context) && Robust(TaskContext) && Robust(ToolResult)
  {
    WordsAreRobust(TagHead, "untrusted_context", TagTail, []);
    assert Context == TagHead + Word("untrusted_context") + TagTail + [];
    WordsAreRobust(TagHead, "untrusted_task_context", TagTail, []);
    assert TaskContext == TagHead + Word("untrusted_task_context") + TagTail + [];
    WordsAreRobust(TagHead, "tool_result", [], UpToGt);
    assert ToolResult == TagHead + Word("tool_result") + [] + UpToGt;
  }

  lemma RolesAreRobust()
    ensures Robust(ImStart) && Robust(ImEnd) && Robust(SystemRole)
  {
    WordsAreRobust(RoleHead, "|im_start|", TagTail, []);
    assert ImStart == RoleHead + Word("|im_start|") + TagTail + [];
    WordsAreRobust(RoleHead, "|im_end|", TagTail, []);
    assert ImEnd == RoleHead + Word("|im_end|") + TagTail + [];
    WordsAreRobust(RoleHead, "|system|", TagTail, []);
    assert SystemRole == RoleHead + Word("|system|") + TagTail + [];
  }

  lemma AuthorityIsRobust()
    ensures Robust(Authority)
  {
    WordsAreRobust(Word("===") + [Spaces], "CORE AUTHORITY HIERARCHY", [Spaces] + Word("==="), []);
    assert Authority == Word("===") + [Spaces] + Word("CORE AUTHORITY HIERARCHY") + ([Spaces] + Word("===")) + [];
  }

  /** A replacement begins with an opening character and holds no '<', '>' or '='. */
  predicate Harmless(r: string) {
    r != "" && Opening(r[0]) && forall i | 0 <= i < |r| :: r[i] != '<' && r[i] != '>' && r[i] != '='
  }

  lemma TagMarksAreHarmless()
    ensures Harmless("[neutralized_tag:untrusted_context]")
    ensures Harmless("[neutralized_tag:untrusted_task]")
    ensures Harmless("[neutralized_tag:tool_result]")
  {
  }

  lemma AuthorityMarkIsHarmless()
    ensures Harmless("--- (neutralized authority delimiter) ---")
  {
  }

  lemma RoleMarksAreHarmless()
    ensures Harmless("&lt;|im_start|&gt;") && Harmless("&lt;|im_end|&gt;") && Harmless("&lt;|system|&gt;") && Harmless("[USER_DATA]")
  {
  }

  lemma ReplacementsAreHarmless(m: int)
    requires 0 <= m < |Rules|
    ensures Harmless(Rules[m].replacement)
  {
    hide Harmless;
    TagMarksAreHarmless();
    AuthorityMarkIsHarmless();
    RoleMarksAreHarmless();
  }

  lemma RobustIsInert(q: Pattern, r: string)
    requires Robust(q) && Harmless(r)
    ensures q != [] && q[0].Lit? && r != "" && '>' !in r && Guarded(q[1..], r[0]) && Inert(q, r)
  {
    forall i, rest | 0 <= i < |r| ensures !Starts(q, r[i..] + rest) {
      assert (r[i..] + rest)[0] == r[i];
      assert !Same(r[i], q[0].c);
    }
  }

  /** The last rule writes a bracketed word of its own, which never reads as its pattern. */
  lemma SystemMarkIsInert()
    ensures SystemMark != [] && SystemMark[0].Lit? && Inert(SystemMark, "[USER_DATA]") && Guarded(SystemMark[1..], '[')
    ensures '>' !in "[USER_DATA]" && "[USER_DATA]"[0] == '['
  {
    var r := "[USER_DATA]";
    forall i, rest | 0 <= i < |r| ensures !Starts(SystemMark, r[i..] + rest) {
      var t := r[i..] + rest;
      assert t[0] == r[i];
      if i == 0 {
        assert t[1] == 'U' && t[1..][0] == 'U';
        assert SystemMark[1..][0] == Lit('S');
        assert !Starts(SystemMark[1..], t[1..]);
      }
    }
    forall i | 0 <= i < |SystemMark[1..]| ensures Avoids(SystemMark[1..][i], '[') {
      assert SystemMark[1..][i] == Lit("SYSTEM]"[i]);
    }
    AvoidingIsGuarded(SystemMark[1..], [], '[');
    assert SystemMark[1..] + [] == SystemMark[1..];
  }

  lemma PatternsAreRobust(k: int)
    requires 0 <= k < 7
    ensures Robust(Rules[k].pattern)
  {
    hide Robust, Context, TaskContext, ToolResult, Authority, ImStart, ImEnd, SystemRole, SystemMark;
    TagsAreRobust();
    RolesAreRobust();
    AuthorityIsRobust();
  }

  /** No replacement completes an instance of its own or an earlier pattern. */
  lemma RulesAreIndependent(k: int, m: int)
    requires 0 <= k <= m < |Rules|
    ensures var q, r := Rules[k].pattern, Rules[m].replacement;
      q != [] && q[0].Lit? && r != "" && '>' !in r && Guarded(q[1..], r[0]) && Inert(q, r)
  {
    hide Robust, Harmless, Inert, Guarded, Context, TaskContext, ToolResult, Authority, ImStart, ImEnd, SystemRole, SystemMark;
    ReplacementsAreHarmless(m);
    if k < 7 {
      PatternsAreRobust(k);
      RobustIsInert(Rules[k].pattern, Rules[m].replacement);
    } else {
      SystemMarkIsInert();
    }
  }

  // ------------------------------------------------------- what is left alone

  lemma {:induction false} PassesKeepClean(text: string, n: nat)
    requires n <= |Rules| && forall k | 0 <= k < |Rules| :: NoMatchIn(Rules[k].pattern, text)
    ensures Passes(text, n) == text
  {
    hide Rules, NoMatchIn;
    if n > 0 {
      PassesKeepClean(text, n - 1);
      NoMatchIsNoStart(Rules[n - 1].pattern, text);
      SubKeepsClean(Rules[n - 1].pattern, Rules[n - 1].replacement, text);
    }
  }

  /** A text within the length bound is changed exactly when some substring of it is an
      instance of one of the patterns. */
  lemma OnlyDangerousTextChanges(text: string, maxChars: nat)
    requires |text| <= maxChars
    ensures Sanitized(Some(text), maxChars) == text <==> forall k | 0 <= k < |Rules| :: NoMatchIn(Rules[k].pattern, text)
  {
    hide Rules, NoMatchIn;
    SanitizedTextIsClean(Some(text), maxChars);
    if forall k | 0 <= k < |Rules| :: NoMatchIn(Rules[k].pattern, text) {
      PassesKeepClean(text, |Rules|);
    }
  }

  /** Sanitizing twice is sanitizing once, as long as the first result is within the bound. */
  lemma SanitizingTwice(text: Option<string>, maxChars: nat)
    requires |Sanitized(text, maxChars)| <= maxChars
    ensures Sanitized(Some(Sanitized(text, maxChars)), maxChars) == Sanitized(text, maxChars)
  {
    hide Rules, NoMatchIn;
    SanitizedTextIsClean(text, maxChars);
    OnlyDangerousTextChanges(Sanitized(text, maxChars), maxChars);
  }
}
