/** The small regular expressions of the prompt sanitizer, on ASCII text: literals without
    regard to case, runs of whitespace, an optional slash, and runs of anything but '>'. */
module Patterns {
  import opened Letters
  import opened Options

  datatype Item = Lit(c: char) | Spaces | OptSlash | NotGt

  type Pattern = seq<Item>

  /** ASCII whitespace as the regular expression engine sees it. */
  predicate IsSpace(c: char) {
    c == ' ' || '\t' <= c <= '\r' || '\U{1C}' <= c <= '\U{1F}'
  }

  function Word(w: string): (p: Pattern)
    ensures |p| == |w| && forall i | 0 <= i < |w| :: p[i] == Lit(w[i])
  {
    seq(|w|, i requires 0 <= i < |w| => Lit(w[i]))
  }

  // ----------------------------------------------------- what a pattern matches

  /** The whole of w is an instance of p. */
  ghost predicate Matches(p: Pattern, w: string) {
    if p == [] then w == ""
    else match p[0]
      case Lit(c) => w != "" && Same(w[0], c) && Matches(p[1..], w[1..])
      case Spaces => exists n :: 0 <= n <= |w| && (forall i | 0 <= i < n :: IsSpace(w[i])) && Matches(p[1..], w[n..])
      case OptSlash => Matches(p[1..], w) || (w != "" && w[0] == '/' && Matches(p[1..], w[1..]))
      case NotGt => exists n :: 0 <= n <= |w| && (forall i | 0 <= i < n :: w[i] != '>') && Matches(p[1..], w[n..])
  }

  /** Backtracking search for a match at the beginning of t, longest run first: its length. */
  function Try(p: Pattern, t: string): (n: Option<nat>)
    ensures n.Some? ==> n.value <= |t|
    decreases |p|, |t|
  {
    if p == [] then Some(0)
    else match p[0]
      case Lit(c) => if t != "" && Same(t[0], c) then Longer(Try(p[1..], t[1..])) else None
      case Spaces =>
        if t != "" && IsSpace(t[0]) && Try(p, t[1..]).Some? then Longer(Try(p, t[1..])) else Try(p[1..], t)
      case OptSlash =>
        if t != "" && t[0] == '/' && Try(p[1..], t[1..]).Some? then Longer(Try(p[1..], t[1..])) else Try(p[1..], t)
      case NotGt =>
        if t != "" && t[0] != '>' && Try(p, t[1..]).Some? then Longer(Try(p, t[1..])) else Try(p[1..], t)
  }

  function Longer(n: Option<nat>): (m: Option<nat>)
    ensures m.Some? <==> n.Some?
    ensures m.Some? ==> m.value == n.value + 1
  {
    match n
    case None => None
    case Some(k) => Some(k + 1)
  }

  /** Some match of p begins at the beginning of t. */
  predicate Starts(p: Pattern, t: string) {
    Try(p, t).Some?
  }

  /** The search finds only matches. */
  lemma {:induction false} TryIsMatch(p: Pattern, t: string)
    requires Starts(p, t)
    ensures Matches(p, t[..Try(p, t).value])
    decreases |p|, |t|
  {
    if p != [] {
      var n := Try(p, t).value;
      match p[0]
      case Lit(c) =>
        TryIsMatch(p[1..], t[1..]);
        assert t[..n][1..] == t[1..][..n - 1];
      case Spaces =>
        if t != "" && IsSpace(t[0]) && Starts(p, t[1..]) {
          TryIsMatch(p, t[1..]);
          assert t[..n][1..] == t[1..][..n - 1];
          ExtendRun(p, t[..n]);
        } else {
          TryIsMatch(p[1..], t);
          assert t[..n][0..] == t[..n];
        }
      case OptSlash =>
        if t != "" && t[0] == '/' && Starts(p[1..], t[1..]) {
          TryIsMatch(p[1..], t[1..]);
          assert t[..n][1..] == t[1..][..n - 1];
        } else {
          TryIsMatch(p[1..], t);
        }
      case NotGt =>
        if t != "" && t[0] != '>' && Starts(p, t[1..]) {
          TryIsMatch(p, t[1..]);
          assert t[..n][1..] == t[1..][..n - 1];
          ExtendRun(p, t[..n]);
        } else {
          TryIsMatch(p[1..], t);
          assert t[..n][0..] == t[..n];
        }
    }
  }

  lemma ExtendRun(p: Pattern, w: string)
    requires p != [] && w != "" && Matches(p, w[1..])
    requires (p[0].Spaces? && IsSpace(w[0])) || (p[0].NotGt? && w[0] != '>')
    ensures Matches(p, w)
  {
    var v := w[1..];
    if p[0].Spaces? {
      var n :| 0 <= n <= |v| && (forall i | 0 <= i < n :: IsSpace(v[i])) && Matches(p[1..], v[n..]);
      assert w[n + 1..] == v[n..];
      assert forall i | 0 <= i < n + 1 :: IsSpace(w[i]) by {
        assert forall i | 1 <= i < n + 1 :: w[i] == v[i - 1];
      }
    } else {
      var n :| 0 <= n <= |v| && (forall i | 0 <= i < n :: v[i] != '>') && Matches(p[1..], v[n..]);
      assert w[n + 1..] == v[n..];
      assert forall i | 0 <= i < n + 1 :: w[i] != '>' by {
        assert forall i | 1 <= i < n + 1 :: w[i] == v[i - 1];
      }
    }
  }

  /** The search misses no match. */
  lemma {:induction false} MatchIsFound(p: Pattern, w: string, rest: string)
    requires Matches(p, w)
    ensures Starts(p, w + rest)
    decreases |p|, |w|
  {
    if p != [] {
      match p[0]
      case Lit(c) =>
        MatchIsFound(p[1..], w[1..], rest);
        assert (w + rest)[1..] == w[1..] + rest;
      case Spaces =>
        var n :| 0 <= n <= |w| && (forall i | 0 <= i < n :: IsSpace(w[i])) && Matches(p[1..], w[n..]);
        MatchIsFound(p[1..], w[n..], rest);
        RunIsFound(p, w, rest, n);
      case OptSlash =>
        if Matches(p[1..], w) {
          MatchIsFound(p[1..], w, rest);
        } else {
          MatchIsFound(p[1..], w[1..], rest);
          assert (w + rest)[1..] == w[1..] + rest;
        }
      case NotGt =>
        var n :| 0 <= n <= |w| && (forall i | 0 <= i < n :: w[i] != '>') && Matches(p[1..], w[n..]);
        MatchIsFound(p[1..], w[n..], rest);
        RunIsFound(p, w, rest, n);
    }
  }

  lemma {:induction false} RunIsFound(p: Pattern, w: string, rest: string, n: int)
    requires p != [] && 0 <= n <= |w| && Starts(p[1..], w[n..] + rest)
    requires (p[0].Spaces? && forall i | 0 <= i < n :: IsSpace(w[i])) || (p[0].NotGt? && forall i | 0 <= i < n :: w[i] != '>')
    ensures Starts(p, w + rest)
    decreases n
  {
    if n == 0 {
      assert w[0..] == w;
    } else {
      assert w[1..][n - 1..] == w[n..];
      RunIsFound(p, w[1..], rest, n - 1);
      assert (w + rest)[1..] == w[1..] + rest;
    }
  }

  /** No substring of t is an instance of p. */
  ghost predicate NoMatchIn(p: Pattern, t: string) {
    forall i, j | 0 <= i <= j <= |t| :: !Matches(p, t[i..j])
  }

  lemma StartGivesMatch(p: Pattern, t: string, i: nat)
    requires i <= |t| && Starts(p, t[i..])
    ensures exists j :: i <= j <= |t| && Matches(p, t[i..j])
  {
    var n := Try(p, t[i..]).value;
    TryIsMatch(p, t[i..]);
    assert t[i..][..n] == t[i..i + n];
  }

  /** Searching at every position decides whether a substring matches. */
  lemma NoMatchIsNoStart(p: Pattern, t: string)
    ensures NoMatchIn(p, t) <==> NoStart(p, t)
  {
    if NoMatchIn(p, t) {
      forall i | 0 <= i <= |t| ensures !Starts(p, t[i..]) {
        if Starts(p, t[i..]) {
          StartGivesMatch(p, t, i);
        }
      }
    } else {
      var i, j :| 0 <= i <= j <= |t| && Matches(p, t[i..j]);
      MatchIsFound(p, t[i..j], t[j..]);
      assert t[i..j] + t[j..] == t[i..];
    }
  }

  ghost predicate NoStart(p: Pattern, t: string) {
    forall i | 0 <= i <= |t| :: !Starts(p, t[i..])
  }

  // -------------------------------------------------------------- substitution

  /** Replaces every match from left to right, never looking inside a replacement. */
  function Sub(p: Pattern, r: string, t: string): string
    decreases |t|
  {
    if t == "" then ""
    else match Try(p, t)
      case Some(n) => if n == 0 then [t[0]] + Sub(p, r, t[1..]) else r + Sub(p, r, t[n..])
      case None => [t[0]] + Sub(p, r, t[1..])
  }

  /** A text without matches is left as it is. */
  lemma {:induction false} SubKeepsClean(p: Pattern, r: string, t: string)
    requires NoStart(p, t)
    ensures Sub(p, r, t) == t
  {
    if t != "" {
      assert t[0..] == t;
      NoStartTail(p, t);
      SubKeepsClean(p, r, t[1..]);
    }
  }

  lemma NoStartTail(p: Pattern, t: string)
    requires NoStart(p, t) && t != ""
    ensures NoStart(p, t[1..])
  {
    forall i | 0 <= i <= |t| - 1 ensures !Starts(p, t[1..][i..]) {
      assert t[1..][i..] == t[i + 1..];
    }
  }

  lemma NoStartCons(p: Pattern, t: string)
    requires t != "" && !Starts(p, t) && NoStart(p, t[1..])
    ensures NoStart(p, t)
  {
    forall i | 0 <= i <= |t| ensures !Starts(p, t[i..]) {
      if i == 0 {
        assert t[0..] == t;
      } else {
        assert t[i..] == t[1..][i - 1..];
      }
    }
  }
}
