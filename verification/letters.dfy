/** ASCII letters without regard to case. */
module Letters {
  function Lower(c: char): char {
    if 'A' <= c <= 'Z' then c - 'A' + 'a' else c
  }

  predicate Same(a: char, b: char) { Lower(a) == Lower(b) }

  /** The upper-case and the lower-case form of one ASCII letter, by their codes. */
  predicate IsLetterPair(upper: char, lower: char) {
    65 <= upper as int <= 90 && lower as int == upper as int + 32
  }

  /** Equal, or the two forms of one letter. */
  predicate DifferInCase(a: char, b: char) {
    a == b || IsLetterPair(a, b) || IsLetterPair(b, a)
  }

  /** Two texts that differ in nothing but letter case. */
  predicate CaseEqual(s: string, t: string) {
    |s| == |t| && forall i | 0 <= i < |s| :: DifferInCase(s[i], t[i])
  }

  /** What comparing without regard to case identifies: nothing but the forms of one letter. */
  lemma SameIff(a: char, b: char)
    ensures Same(a, b) <==> DifferInCase(a, b)
  {
    CodeOfLower(a);
    CodeOfLower(b);
    if Lower(a) as int == Lower(b) as int {
      SameCode(Lower(a), Lower(b));
      if a as int == b as int {
        SameCode(a, b);
      }
    }
  }

  lemma CodeOfLower(c: char)
    ensures Lower(c) as int == if 65 <= c as int <= 90 then c as int + 32 else c as int
  {
  }

  lemma SameCode(a: char, b: char)
    requires a as int == b as int
    ensures a == b
  {
  }
}
