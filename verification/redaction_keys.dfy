/** Which keys are masked, and with what, in terms of the words that a key spells out. */
module RedactionKeys {
  import opened Options
  import opened Letters
  import opened Redaction

  /** Somewhere in the key the word is spelled out, in upper-case or lower-case letters. */
  ghost predicate Spells(key: string, word: string) {
    exists before, middle, after :: key == before + middle + after && CaseEqual(middle, word)
  }

  ghost predicate NamesSecret(key: string) {
    || Spells(key, "key") || Spells(key, "token") || Spells(key, "secret") || Spells(key, "password")
    || Spells(key, "authorization") || Spells(key, "api_key")
  }

  predicate NamesCounter(key: string) {
    CaseEqual(key, "prompt_tokens") || CaseEqual(key, "completion_tokens") || CaseEqual(key, "total_tokens")
  }

  lemma CaseEqualIff(s: string, t: string)
    ensures CaseEqual(s, t) <==> Redaction.Lower(s) == Redaction.Lower(t)
  {
    if |s| == |t| {
      forall i | 0 <= i < |s| ensures DifferInCase(s[i], t[i]) <==> Redaction.Lower(s)[i] == Redaction.Lower(t)[i] {
        SameIff(s[i], t[i]);
      }
    }
    assert |Redaction.Lower(s)| == |s| && |Redaction.Lower(t)| == |t|;
  }

  predicate IsLowerCase(s: string) {
    forall i | 0 <= i < |s| :: !('A' <= s[i] <= 'Z')
  }

  lemma LowerCaseStays(s: string)
    requires IsLowerCase(s)
    ensures Redaction.Lower(s) == s
  {
  }

  lemma ContainsIff(key: string, word: string)
    requires IsLowerCase(word)
    ensures Contains(Redaction.Lower(key), word) <==> Spells(key, word)
  {
    var low := Redaction.Lower(key);
    LowerCaseStays(word);
    if Contains(low, word) {
      var i :| 0 <= i <= |low| && StandsAt(low, word, i);
      var middle := key[i..i + |word|];
      CaseEqualIff(middle, word);
      assert Redaction.Lower(middle) == low[i..i + |word|];
      assert key == key[..i] + middle + key[i + |word|..];
    }
    if before, middle, after :| key == before + middle + after && CaseEqual(middle, word) {
      CaseEqualIff(middle, word);
      var i := |before|;
      assert low[i..i + |word|] == Redaction.Lower(middle);
      assert StandsAt(low, word, i);
    }
  }

  lemma CounterIff(key: string)
    ensures IsMetric(key) <==> NamesCounter(key)
  {
    var low := Redaction.Lower(key);
    forall k | 0 <= k < 3 ensures low == METRIC_KEYS[k] <==> CaseEqual(key, METRIC_KEYS[k]) {
      LowerCaseStays(METRIC_KEYS[k]);
      CaseEqualIff(key, METRIC_KEYS[k]);
    }
    assert low in METRIC_KEYS <==> low == METRIC_KEYS[0] || low == METRIC_KEYS[1] || low == METRIC_KEYS[2];
    hide CaseEqual, Redaction.Lower;
  }

  /** A key is sensitive exactly when it spells out one of six words, in any letter case, and is not
      one of the three counters. */
  lemma SensitiveIff(key: string)
    ensures IsSensitive(key) <==> NamesSecret(key) && !NamesCounter(key)
  {
    CounterIff(key);
    var low := Redaction.Lower(key);
    forall p | 0 <= p < 6 ensures Contains(low, SENSITIVE_PARTS[p]) <==> Spells(key, SENSITIVE_PARTS[p]) {
      ContainsIff(key, SENSITIVE_PARTS[p]);
    }
    hide Spells, Contains, IsMetric, NamesCounter, Redaction.Lower;
    if IsSensitive(key) {
      var p :| 0 <= p < |SENSITIVE_PARTS| && Contains(low, SENSITIVE_PARTS[p]);
      assert Spells(key, SENSITIVE_PARTS[p]);
    }
    if NamesSecret(key) {
      var p := if Spells(key, "key") then 0 else if Spells(key, "token") then 1 else if Spells(key, "secret") then 2
        else if Spells(key, "password") then 3 else if Spells(key, "authorization") then 4 else 5;
      assert Contains(low, SENSITIVE_PARTS[p]);
    }
  }

  /** Every field of a redacted dictionary keeps its place and its key; under a key that names a
      secret and no counter stands the mask, under any other the redaction of what stood there. */
  lemma FieldsOfRedacted(fields: seq<Field>, i: nat)
    requires i < |fields|
    ensures Redacted(Dict(fields)).Dict? && |Redacted(Dict(fields)).fields| == |fields|
    ensures var (f, r) := (fields[i], Redacted(Dict(fields)).fields[i]);
      && r.key == f.key
      && (NamesSecret(f.key) && !NamesCounter(f.key) ==> r.value == Text("[REDACTED]"))
      && (!NamesSecret(f.key) || NamesCounter(f.key) ==> r.value == Redacted(f.value))
  {
    SensitiveIff(fields[i].key);
    hide IsSensitive, NamesSecret, NamesCounter;
  }

  /** Whatever stands around it: a key with "password" in it, in this or any other letter case, is
      masked, and a counter is not. */
  lemma PasswordsAreMasked(before: string, word: string, after: string, v: Value)
    requires CaseEqual(word, "password")
    ensures var key := before + word + after;
      Redacted(Dict([Field(key, v)])) == Dict([Field(key, Text("[REDACTED]"))])
  {
    var key := before + word + after;
    assert Spells(key, "password");
    if NamesCounter(key) {
      CountersSpellNoPassword(key);
      assert false;
    }
    FieldsOfRedacted([Field(key, v)], 0);
    hide NamesSecret, NamesCounter, Redacted, Spells;
    assert Redacted(Dict([Field(key, v)])).fields == [Field(key, Text("[REDACTED]"))];
  }

  lemma CountersSpellNoPassword(key: string)
    requires NamesCounter(key)
    ensures !Spells(key, "password")
  {
    if Spells(key, "password") {
      var i := LetterOf(key, "password", 4);
      CountersHaveNoW(key, i);
    }
  }

  lemma LetterOf(key: string, word: string, j: nat) returns (i: nat)
    requires Spells(key, word) && j < |word|
    ensures i < |key| && DifferInCase(key[i], word[j])
  {
    var before, middle, after :| key == before + middle + after && CaseEqual(middle, word);
    i := |before| + j;
  }

  lemma CountersHaveNoW(key: string, i: nat)
    requires NamesCounter(key) && i < |key|
    ensures !DifferInCase(key[i], 'w')
  {
  }
}
