/** Redaction of audit payloads: what is masked, what survives, and that nothing under a
    sensitive key can be told from the result. */
module Redaction {
  import opened Options
  import Letters

  datatype Field = Field(key: string, value: Value)

  /** A payload value; a dictionary keeps the order of its keys.  Anything that is neither a
      dictionary nor a list is passed through as it is. */
  datatype Value =
    | Text(text: string)
    | Other(id: nat)
    | List(items: seq<Value>)
    | Dict(fields: seq<Field>)

  const MASK := Text("[REDACTED]")

  const SENSITIVE_PARTS: seq<string> := ["key", "token", "secret", "password", "authorization", "api_key"]

  const METRIC_KEYS: seq<string> := ["prompt_tokens", "completion_tokens", "total_tokens"]

  // ------------------------------------------------------------------- the keys

  function Lower(s: string): string {
    seq(|s|, i requires 0 <= i < |s| => Letters.Lower(s[i]))
  }

  predicate StandsAt(s: string, part: string, i: nat) {
    i + |part| <= |s| && s[i..i + |part|] == part
  }

  predicate Contains(s: string, part: string) {
    exists i :: 0 <= i <= |s| && StandsAt(s, part, i)
  }

  predicate IsMetric(key: string) {
    Lower(key) in METRIC_KEYS
  }

  predicate IsSensitive(key: string) {
    !IsMetric(key) && exists p :: 0 <= p < |SENSITIVE_PARTS| && Contains(Lower(key), SENSITIVE_PARTS[p])
  }

  // -------------------------------------------------------------- specification

  function Redacted(v: Value): Value {
    match v
    case Text(_) => v
    case Other(_) => v
    case List(items) => List(seq(|items|, i requires 0 <= i < |items| => Redacted(items[i])))
    case Dict(fields) => Dict(seq(|fields|, i requires 0 <= i < |fields| => RedactedField(fields[i])))
  }

  function RedactedField(f: Field): Field {
    Field(f.key, if IsSensitive(f.key) then MASK else Redacted(f.value))
  }

  /** Equal up to what stands under sensitive keys. */
  ghost predicate Alike(v: Value, w: Value) {
    match v
    case Text(_) => v == w
    case Other(_) => v == w
    case List(items) =>
      w.List? && |items| == |w.items| && forall i | 0 <= i < |items| :: Alike(items[i], w.items[i])
    case Dict(fields) =>
      w.Dict? && |fields| == |w.fields| && forall i | 0 <= i < |fields| :: AlikeFields(fields[i], w.fields[i])
  }

  ghost predicate AlikeFields(f: Field, g: Field) {
    f.key == g.key && (IsSensitive(f.key) || Alike(f.value, g.value))
  }

  // ------------------------------------------------------------------ guarantees

  /** Non-interference, in both directions: two payloads redact to the same result exactly when
      they differ at most in what stands under sensitive keys. */
  lemma {:induction false} SameResultIffAlike(v: Value, w: Value)
    ensures Redacted(v) == Redacted(w) <==> Alike(v, w)
    decreases v, 1
  {
    if v.List? && w.List? && |v.items| == |w.items| {
      forall i | 0 <= i < |v.items| ensures Redacted(v.items[i]) == Redacted(w.items[i]) <==> Alike(v.items[i], w.items[i]) {
        SameResultIffAlike(v.items[i], w.items[i]);
      }
      if Redacted(v) == Redacted(w) {
        forall i | 0 <= i < |v.items| ensures Alike(v.items[i], w.items[i]) {
          assert Redacted(v).items[i] == Redacted(w).items[i];
        }
      }
    } else if v.Dict? && w.Dict? && |v.fields| == |w.fields| {
      SameFieldsIffAlike(v, w);
    } else if v.List? && w.List? {
      assert |Redacted(v).items| != |Redacted(w).items|;
    } else if v.Dict? && w.Dict? {
      assert |Redacted(v).fields| != |Redacted(w).fields|;
    }
  }

  lemma {:induction false} SameFieldsIffAlike(v: Value, w: Value)
    requires v.Dict? && w.Dict? && |v.fields| == |w.fields|
    ensures Redacted(v) == Redacted(w) <==> Alike(v, w)
    decreases v, 0
  {
    hide IsSensitive;
    forall i | 0 <= i < |v.fields|
      ensures RedactedField(v.fields[i]) == RedactedField(w.fields[i]) <==> AlikeFields(v.fields[i], w.fields[i])
    {
      SameResultIffAlike(v.fields[i].value, w.fields[i].value);
    }
    if Redacted(v) == Redacted(w) {
      forall i | 0 <= i < |v.fields| ensures AlikeFields(v.fields[i], w.fields[i]) {
        assert Redacted(v).fields[i] == Redacted(w).fields[i];
      }
    }
  }

  lemma {:induction false} RedactingTwice(v: Value)
    ensures Redacted(Redacted(v)) == Redacted(v)
  {
    hide IsSensitive;
    if v.List? {
      forall i | 0 <= i < |v.items| ensures Redacted(Redacted(v).items[i]) == Redacted(v).items[i] {
        RedactingTwice(v.items[i]);
      }
    } else if v.Dict? {
      forall i | 0 <= i < |v.fields| ensures RedactedField(Redacted(v).fields[i]) == Redacted(v).fields[i] {
        RedactingTwice(v.fields[i].value);
      }
    }
  }

  // -------------------------------------------------------------------- at a path

  function Children(v: Value): nat {
    match v
    case List(items) => |items|
    case Dict(fields) => |fields|
    case _ => 0
  }

  function Child(v: Value, i: nat): Value
    requires i < Children(v)
  {
    if v.List? then v.items[i] else v.fields[i].value
  }

  /** What stands at a path of child positions. */
  function Lookup(v: Value, path: seq<nat>): Option<Value>
    decreases |path|
  {
    if path == [] then Some(v)
    else if path[0] < Children(v) then Lookup(Child(v, path[0]), path[1..])
    else None
  }

  predicate IsMaskedChild(v: Value, i: nat) {
    v.Dict? && i < |v.fields| && IsSensitive(v.fields[i].key)
  }

  /** How many steps of the path lead to its first sensitive key, that step included. */
  function StepsToSecret(v: Value, path: seq<nat>): Option<nat>
    decreases |path|
  {
    if path == [] || path[0] >= Children(v) then None
    else if IsMaskedChild(v, path[0]) then Some(1)
    else match StepsToSecret(Child(v, path[0]), path[1..])
      case None => None
      case Some(n) => Some(n + 1)
  }

  function Map(o: Option<Value>): Option<Value> {
    match o
    case None => None
    case Some(v) => Some(Redacted(v))
  }

  lemma ChildOfRedacted(v: Value, i: nat)
    ensures Children(Redacted(v)) == Children(v)
    ensures i < Children(v) ==> Child(Redacted(v), i) == if IsMaskedChild(v, i) then MASK else Redacted(Child(v, i))
    ensures v.Dict? && i < |v.fields| ==> Redacted(v).fields[i].key == v.fields[i].key
  {
    hide IsSensitive;
  }

  /** The redacted payload at every path: off the sensitive keys, the redaction of what was
      there, with every list as long and every dictionary with the same keys as before; at the
      first sensitive key the mask, and nothing below it. */
  lemma {:induction false} LookupInRedacted(v: Value, path: seq<nat>)
    ensures Lookup(Redacted(v), path) == match StepsToSecret(v, path)
      case None => Map(Lookup(v, path))
      case Some(n) => if n == |path| then Some(MASK) else None
    decreases |path|
  {
    hide IsSensitive;
    if path != [] {
      ChildOfRedacted(v, path[0]);
      if path[0] < Children(v) {
        if IsMaskedChild(v, path[0]) {
          MaskHasNoChildren(path[1..]);
        } else {
          LookupInRedacted(Child(v, path[0]), path[1..]);
        }
      }
    }
  }

  lemma MaskHasNoChildren(path: seq<nat>)
    ensures Lookup(MASK, path) == if path == [] then Some(MASK) else None
  {
  }

  /** Metric counters are not sensitive, in any case of letters, though they contain "token". */
  lemma MetricCountersSurvive(key: string)
    requires IsMetric(key)
    ensures !IsSensitive(key)
    ensures exists p :: 0 <= p < |SENSITIVE_PARTS| && Contains(Lower(key), SENSITIVE_PARTS[p])
  {
    var low := Lower(key);
    var at := if low == METRIC_KEYS[0] then 7 else if low == METRIC_KEYS[1] then 11 else 6;
    assert low[at..at + 5] == SENSITIVE_PARTS[1];
    assert StandsAt(low, SENSITIVE_PARTS[1], at);
    assert Contains(low, SENSITIVE_PARTS[1]);
  }

  // ------------------------------------------------------------------ the methods

  method RedactValue(v: Value) returns (r: Value)
    ensures r == Redacted(v)
    decreases v
  {
    match v
    case Dict(fields) =>
      var redacted := RedactPayload(Some(v));
      return redacted.value;
    case List(items) =>
      var redacted: seq<Value> := [];
      for i := 0 to |items|
        invariant redacted == Redacted(v).items[..i]
      {
        var item := RedactValue(items[i]);
        redacted := redacted + [item];
      }
      return List(redacted);
    case _ =>
      return v;
  }

  /** A payload is a dictionary or missing. */
  method RedactPayload(payload: Option<Value>) returns (r: Option<Value>)
    requires payload.Some? ==> payload.value.Dict?
    ensures r == Map(payload)
    decreases if payload.Some? then payload.value else MASK, 0
  {
    if payload.None? {
      return None;
    }
    var fields := payload.value.fields;
    var redacted: seq<Field> := [];
    for i := 0 to |fields|
      invariant redacted == Redacted(payload.value).fields[..i]
    {
      var k, v := fields[i].key, fields[i].value;
      if IsMetric(k) {
        var value := RedactValue(v);
        redacted := redacted + [Field(k, value)];
      } else if exists p :: 0 <= p < |SENSITIVE_PARTS| && Contains(Lower(k), SENSITIVE_PARTS[p]) {
        redacted := redacted + [Field(k, MASK)];
      } else {
        var value := RedactValue(v);
        redacted := redacted + [Field(k, value)];
      }
    }
    assert redacted == Redacted(payload.value).fields;
    return Some(Dict(redacted));
  }
}
