/**
  The translation-key guard script: the normalisation that turns a result field
  into a translation key, the key format check, and the comparison of every
  language file with the expected keys and with the English baseline.
 */
module TranslationKeys {
  import opened Values
  import Text
  import Sensors

  // ---------------------------------------------------------------------------
  // Character classes of the three patterns

  /** `[a-zA-Z0-9_-]`: the characters the collapsing step keeps. */
  predicate IsWordChar(c: char) {
    Text.IsLower(c) || Text.IsUpper(c) || Text.IsDigit(c) || c == '_' || c == '-'
  }

  /** `[a-z0-9-_]`: the characters `VALID_KEY` allows. */
  predicate IsKeyChar(c: char) {
    Text.IsLower(c) || Text.IsDigit(c) || c == '_' || c == '-'
  }

  /** The characters `strip("_-")` removes and the start/end test rejects. */
  predicate IsEdge(c: char) {
    c == '_' || c == '-'
  }

  /** `([a-z0-9])([A-Z])`: a lowercase letter or digit followed by an uppercase letter. */
  predicate IsCamelBoundary(x: char, y: char) {
    (Text.IsLower(x) || Text.IsDigit(x)) && Text.IsUpper(y)
  }

  // ---------------------------------------------------------------------------
  // normalize_sensor_key

  predicate AllWordChars(s: string) { forall i :: 0 <= i < |s| ==> IsWordChar(s[i]) }
  predicate AllKeyChars(s: string) { forall i :: 0 <= i < |s| ==> IsKeyChar(s[i]) }
  predicate NoUpper(s: string) { forall i :: 0 <= i < |s| ==> !Text.IsUpper(s[i]) }

  /**
    `re.sub(r"([a-z0-9])([A-Z])", r"\1_\2", s)`. The uppercase letter a match ends
    with cannot start the next match, so this inserts `_` inside every boundary.
   */
  function SplitCamel(s: string): (r: string)
    ensures |s| > 0 ==> |r| > 0 && r[0] == s[0]
    decreases |s|
  {
    if |s| < 2 then s
    else if IsCamelBoundary(s[0], s[1]) then [s[0], '_'] + SplitCamel(s[1..])
    else [s[0]] + SplitCamel(s[1..])
  }

  /** Drops the leading run of characters outside `[a-zA-Z0-9_-]`. */
  function SkipRun(s: string): (r: string)
    ensures |r| <= |s|
    ensures |r| > 0 ==> IsWordChar(r[0]) && r[|r| - 1] == s[|s| - 1]
    ensures |s| > 0 && !IsWordChar(s[0]) ==> |r| < |s|
  {
    if |s| > 0 && !IsWordChar(s[0]) then SkipRun(s[1..]) else s
  }

  /** `re.sub(r"[^a-zA-Z0-9_-]+", "_", s)`: each maximal run of other characters becomes one `_`. */
  function Collapse(s: string): (r: string)
    ensures |s| > 0 && IsWordChar(s[0]) ==> |r| > 0 && r[0] == s[0]
    decreases |s|
  {
    if |s| == 0 then ""
    else if IsWordChar(s[0]) then [s[0]] + Collapse(s[1..])
    else "_" + Collapse(SkipRun(s))
  }

  function TrimEdgeStart(s: string): (r: string)
    ensures |r| <= |s|
    ensures |r| > 0 ==> !IsEdge(r[0]) && r[|r| - 1] == s[|s| - 1]
    ensures |s| > 0 && !IsEdge(s[0]) ==> r == s
  {
    if |s| > 0 && IsEdge(s[0]) then TrimEdgeStart(s[1..]) else s
  }

  function TrimEdgeEnd(s: string): (r: string)
    ensures |r| <= |s|
    ensures |r| > 0 ==> !IsEdge(r[|r| - 1]) && r[0] == s[0]
    ensures |s| > 0 && !IsEdge(s[0]) ==> |r| > 0
    ensures |s| > 0 && !IsEdge(s[|s| - 1]) ==> r == s
  {
    if |s| > 0 && IsEdge(s[|s| - 1]) then TrimEdgeEnd(s[..|s| - 1]) else s
  }

  /** `strip("_-")`. */
  function StripEdges(s: string): (r: string)
    ensures |r| > 0 ==> !IsEdge(r[0]) && !IsEdge(r[|r| - 1])
    ensures |s| > 0 && !IsEdge(s[0]) && !IsEdge(s[|s| - 1]) ==> r == s
  {
    TrimEdgeEnd(TrimEdgeStart(s))
  }

  /** `normalize_sensor_key`: split camel case, collapse, lower-case, strip `_` and `-` at both ends. */
  function Normalize(s: string): string {
    StripEdges(Text.Lower(Collapse(SplitCamel(s))))
  }

  /** The `VALID_KEY` full match together with the start and end tests of `check_translation_file`. */
  predicate IsValidKey(k: string) {
    |k| > 0 && AllKeyChars(k) && !IsEdge(k[0]) && !IsEdge(k[|k| - 1])
  }

  // Splitting

  /** No lowercase letter or digit is directly followed by an uppercase letter. */
  predicate NoCamelBoundary(s: string) {
    forall i :: 0 <= i < |s| - 1 ==> !IsCamelBoundary(s[i], s[i + 1])
  }

  /** Proof step for SplitCamelAppend and CollapseAppend: regrouping a concatenation, stated once so the callers stay cheap. */
  lemma Associative<T>(x: seq<T>, y: seq<T>, z: seq<T>)
    ensures x + (y + z) == x + y + z
  {
  }

  /** Splitting a concatenation splits each part, with `_` inserted where the parts meet at a boundary. */
  lemma {:induction false} SplitCamelAppend(a: string, b: string)
    ensures SplitCamel(a + b) ==
      SplitCamel(a) + (if |a| > 0 && |b| > 0 && IsCamelBoundary(a[|a| - 1], b[0]) then "_" else "") + SplitCamel(b)
    decreases |a|
  {
    if |a| == 0 {
      assert a + b == b;
    } else if |a| == 1 {
      if |b| > 0 {
        assert (a + b)[1..] == b;
      } else {
        assert a + b == a;
      }
    } else {
      var rest := a[1..];
      var head := if IsCamelBoundary(a[0], a[1]) then [a[0], '_'] else [a[0]];
      assert (a + b)[1..] == rest + b;
      assert (a + b)[1] == a[1];
      var mid := if |b| > 0 && IsCamelBoundary(a[|a| - 1], b[0]) then "_" else "";
      assert rest[|rest| - 1] == a[|a| - 1];
      SplitCamelAppend(rest, b);
      assert SplitCamel(rest + b) == SplitCamel(rest) + mid + SplitCamel(b);
      assert SplitCamel(a + b) == head + SplitCamel(rest + b);
      assert SplitCamel(a) == head + SplitCamel(rest);
      Associative(head, SplitCamel(rest) + mid, SplitCamel(b));
      Associative(head, SplitCamel(rest), mid);
    }
  }

  /** Without a boundary there is nothing to split. */
  lemma {:induction false} SplitCamelNoop(s: string)
    requires NoCamelBoundary(s)
    ensures SplitCamel(s) == s
    decreases |s|
  {
    if |s| >= 2 {
      assert !IsCamelBoundary(s[0], s[1]);
      SplitCamelNoop(s[1..]);
    }
  }

  /** After splitting no boundary is left. */
  lemma {:induction false} SplitCamelLeavesNone(s: string)
    ensures NoCamelBoundary(SplitCamel(s))
    decreases |s|
  {
    if |s| >= 2 {
      SplitCamelLeavesNone(s[1..]);
    }
  }

  // Collapsing

  /** Two strings whose join point does not fall inside a run of other characters. */
  predicate MeetAtWord(a: string, b: string) {
    |a| == 0 || |b| == 0 || IsWordChar(a[|a| - 1]) || IsWordChar(b[0])
  }

  /** Proof step for CollapseAppend: a run cut short by a word character is skipped on its own. */
  lemma {:induction false} SkipRunAppend(a: string, b: string)
    requires |a| > 0 && MeetAtWord(a, b)
    ensures SkipRun(a + b) == SkipRun(a) + b
    decreases |a|
  {
    if !IsWordChar(a[0]) {
      assert (a + b)[1..] == a[1..] + b;
      if |a| == 1 {
        assert a[1..] + b == b;
      } else {
        SkipRunAppend(a[1..], b);
      }
    }
  }

  /** Collapsing distributes over a join that does not split a run. */
  lemma {:induction false} CollapseAppend(a: string, b: string)
    requires MeetAtWord(a, b)
    ensures Collapse(a + b) == Collapse(a) + Collapse(b)
    decreases |a|
  {
    if |a| == 0 {
      assert a + b == b;
    } else if IsWordChar(a[0]) {
      var rest := a[1..];
      assert a + b == [a[0]] + (rest + b);
      CollapseAppend(rest, b);
      assert Collapse(a + b) == [a[0]] + Collapse(rest + b);
      assert Collapse(a) == [a[0]] + Collapse(rest);
      Associative([a[0]], Collapse(rest), Collapse(b));
    } else {
      var rest := SkipRun(a);
      SkipRunAppend(a, b);
      CollapseAppend(rest, b);
      assert Collapse(a + b) == "_" + Collapse(rest + b);
      assert Collapse(a) == "_" + Collapse(rest);
      Associative("_", Collapse(rest), Collapse(b));
    }
  }

  /** Proof step for RunCollapses: a run of other characters is skipped entirely. */
  lemma {:induction false} SkipRunAll(run: string, b: string)
    requires forall i :: 0 <= i < |run| ==> !IsWordChar(run[i])
    requires |b| == 0 || IsWordChar(b[0])
    ensures SkipRun(run + b) == b
    decreases |run|
  {
    if |run| > 0 {
      assert (run + b)[1..] == run[1..] + b;
      SkipRunAll(run[1..], b);
    } else {
      assert run + b == b;
    }
  }

  /** Proof step for CollapseRun: a leading run becomes one `_`. */
  lemma {:induction false} RunCollapses(run: string, b: string)
    requires |run| > 0 && forall i :: 0 <= i < |run| ==> !IsWordChar(run[i])
    requires |b| == 0 || IsWordChar(b[0])
    ensures Collapse(run + b) == "_" + Collapse(b)
  {
    SkipRunAll(run, b);
    assert (run + b)[0] == run[0];
  }

  /** A maximal run of other characters, however long, becomes a single `_`. */
  lemma {:induction false} CollapseRun(a: string, run: string, b: string)
    requires |run| > 0 && forall i :: 0 <= i < |run| ==> !IsWordChar(run[i])
    requires |a| == 0 || IsWordChar(a[|a| - 1])
    requires |b| == 0 || IsWordChar(b[0])
    ensures Collapse(a + run + b) == Collapse(a) + "_" + Collapse(b)
  {
    var tail := run + b;
    assert a + run + b == a + tail;
    CollapseAppend(a, tail);
    RunCollapses(run, b);
    assert Collapse(a) + ("_" + Collapse(b)) == Collapse(a) + "_" + Collapse(b);
  }

  /** Collapsing leaves only characters of `[a-zA-Z0-9_-]`. */
  lemma {:induction false} CollapseWords(s: string)
    ensures AllWordChars(Collapse(s))
    decreases |s|
  {
    if |s| > 0 {
      if IsWordChar(s[0]) {
        CollapseWords(s[1..]);
      } else {
        CollapseWords(SkipRun(s));
      }
    }
  }

  /** A string of kept characters is left as it is. */
  lemma {:induction false} CollapseNoop(s: string)
    requires AllWordChars(s)
    ensures Collapse(s) == s
    decreases |s|
  {
    if |s| > 0 {
      assert AllWordChars(s[1..]);
      CollapseNoop(s[1..]);
    }
  }

  // Normalised keys

  /** Proof step for NormalizeShape: trimming the front keeps only key characters. */
  lemma {:induction false} TrimStartKeys(s: string)
    requires AllKeyChars(s)
    ensures AllKeyChars(TrimEdgeStart(s))
    decreases |s|
  {
    if |s| > 0 && IsEdge(s[0]) {
      assert AllKeyChars(s[1..]);
      TrimStartKeys(s[1..]);
    }
  }

  /** Proof step for NormalizeShape: trimming the back keeps only key characters. */
  lemma {:induction false} TrimEndKeys(s: string)
    requires AllKeyChars(s)
    ensures AllKeyChars(TrimEdgeEnd(s))
    decreases |s|
  {
    if |s| > 0 && IsEdge(s[|s| - 1]) {
      assert AllKeyChars(s[..|s| - 1]);
      TrimEndKeys(s[..|s| - 1]);
    }
  }

  /** Proof step for NormalizeShape: lower-casing word characters gives key characters. */
  lemma {:induction false} LowerKeys(c: string)
    requires AllWordChars(c)
    ensures AllKeyChars(Text.Lower(c))
  {
    var t := Text.Lower(c);
    forall i | 0 <= i < |t| ensures IsKeyChar(t[i]) {
      assert t[i] == Text.LowerChar(c[i]);
    }
  }

  /** A normalised key uses only `[a-z0-9_-]` and neither starts nor ends with `_` or `-`. */
  lemma {:induction false} NormalizeShape(s: string)
    ensures var k := Normalize(s);
      AllKeyChars(k) && (|k| > 0 ==> !IsEdge(k[0]) && !IsEdge(k[|k| - 1]))
  {
    var c := Collapse(SplitCamel(s));
    CollapseWords(SplitCamel(s));
    LowerKeys(c);
    var t := Text.Lower(c);
    TrimStartKeys(t);
    TrimEndKeys(TrimEdgeStart(t));
  }

  /** Every non-empty normalised key passes the format check. */
  lemma {:induction false} NormalizedIsValid(s: string)
    requires |Normalize(s)| > 0
    ensures IsValidKey(Normalize(s))
  {
    NormalizeShape(s);
  }

  /** Proof step for NormalizeIdempotent: a normalised key has nothing left to split, collapse or lower. */
  lemma {:induction false} KeysHaveNoBoundary(k: string)
    requires AllKeyChars(k)
    ensures NoCamelBoundary(k) && AllWordChars(k) && NoUpper(k)
  {
    assert forall i :: 0 <= i < |k| ==> !Text.IsUpper(k[i]) by {
      forall i | 0 <= i < |k| ensures !Text.IsUpper(k[i]) {
        assert IsKeyChar(k[i]);
      }
    }
  }

  /** Proof step for NormalizeIdempotent: lower-casing a string without capitals changes nothing. */
  lemma {:induction false} LowerNoop(s: string)
    requires NoUpper(s)
    ensures Text.Lower(s) == s
  {
  }

  /** Normalising a normalised key changes nothing. */
  lemma {:induction false} NormalizeIdempotent(s: string)
    ensures Normalize(Normalize(s)) == Normalize(s)
  {
    var k := Normalize(s);
    NormalizeShape(s);
    KeysHaveNoBoundary(k);
    SplitCamelNoop(k);
    CollapseNoop(k);
    LowerNoop(k);
  }

  /** A key that starts with a letter or digit normalises to a non-empty key. */
  lemma {:induction false} NormalizeNonEmpty(s: string)
    requires |s| > 0 && (Text.IsLower(s[0]) || Text.IsUpper(s[0]) || Text.IsDigit(s[0]))
    ensures |Normalize(s)| > 0
  {
    var t := Text.Lower(Collapse(SplitCamel(s)));
    assert !IsEdge(t[0]);
  }

  predicate AllLower(s: string) { forall i :: 0 <= i < |s| ==> Text.IsLower(s[i]) }
  predicate AllUpper(s: string) { forall i :: 0 <= i < |s| ==> Text.IsUpper(s[i]) }

  /** Proof step for NormalizeCamelPair: lower-casing leaves a lower-case head and `_` alone. */
  lemma {:induction false} LowerJoin(a: string, b: string)
    requires NoUpper(a)
    ensures Text.Lower(a + "_" + b) == a + "_" + Text.Lower(b)
    decreases |a|
  {
    if |a| == 0 {
      assert a + "_" + b == ['_'] + b;
      assert (['_'] + b)[1..] == b;
    } else {
      var rest := a[1..];
      assert a + "_" + b == [a[0]] + (rest + "_" + b);
      assert NoUpper(rest);
      LowerJoin(rest, b);
      assert a == [a[0]] + rest;
    }
  }

  /** Proof step for NormalizeCamelPair: two letter words joined by `_` are not collapsed. */
  lemma {:induction false} CollapsePair(a: string, b: string)
    requires AllLower(a) && AllUpper(b)
    ensures Collapse(a + "_" + b) == a + "_" + b
  {
    var s := a + "_" + b;
    forall i | 0 <= i < |s| ensures IsWordChar(s[i]) {
      if i < |a| {
        assert s[i] == a[i];
      } else if i > |a| {
        assert s[i] == b[i - |a| - 1];
      }
    }
    CollapseNoop(s);
  }

  /** Proof step for NormalizeCamelPair: a lower-case word before an upper-case one splits once. */
  lemma {:induction false} SplitPair(a: string, b: string)
    requires |a| > 0 && AllLower(a)
    requires |b| > 0 && AllUpper(b)
    ensures SplitCamel(a + b) == a + "_" + b
  {
    SplitCamelAppend(a, b);
    SplitCamelNoop(a);
    SplitCamelNoop(b);
  }

  /** Proof step for NormalizeCamelPair: letters at both ends leave nothing to strip. */
  lemma {:induction false} StripPair(a: string, c: string)
    requires |a| > 0 && Text.IsLower(a[0])
    requires |c| > 0 && Text.IsLower(c[|c| - 1])
    ensures StripEdges(a + "_" + c) == a + "_" + c
  {
    var s := a + "_" + c;
    assert s[0] == a[0];
    assert s[|s| - 1] == c[|c| - 1];
  }

  /**
    A lowercase word followed by an uppercase one normalises to the two joined by `_`,
    the second lower-cased: `inverterSN` becomes `inverter_sn`.
   */
  lemma {:induction false} NormalizeCamelPair(a: string, b: string)
    requires |a| > 0 && AllLower(a)
    requires |b| > 0 && AllUpper(b)
    ensures Normalize(a + b) == a + "_" + Text.Lower(b)
  {
    SplitPair(a, b);
    CollapsePair(a, b);
    assert NoUpper(a);
    LowerJoin(a, b);
    var c := Text.Lower(b);
    assert c[|c| - 1] == Text.LowerChar(b[|b| - 1]);
    StripPair(a, c);
  }

  // ---------------------------------------------------------------------------
  // Expected keys

  /** `EXTRA_SENSOR_KEYS`: sensors created beside the result fields. */
  const ExtraSensorKeys: seq<string> := [
    "inverterEfficiency", "dc_total_inverter", "ac_total", "dc_total", "systemEfficiency",
    "systemHealth", "rateLimitStatus", "lastPollAttempt", "nextScheduledPoll",
    "apiAccessStatus", "yieldtoday_total", "yieldtotal_total"]

  /** `expected_sensor_keys`: the normalised `RESULT_FIELDS` and extra keys. */
  function ExpectedSensorKeys(resultFields: seq<string>): set<string> {
    (set k | k in resultFields :: Normalize(k)) + (set k | k in ExtraSensorKeys :: Normalize(k))
  }

  /** Every key of the list starts with a lowercase letter. */
  predicate StartLower(keys: seq<string>) {
    forall i :: 0 <= i < |keys| ==> |keys[i]| > 0 && Text.IsLower(keys[i][0])
  }

  lemma {:induction false} StartLowerValid(keys: seq<string>)
    requires StartLower(keys)
    ensures forall k :: k in keys ==> IsValidKey(Normalize(k))
  {
    forall k | k in keys ensures IsValidKey(Normalize(k)) {
      var i :| 0 <= i < |keys| && keys[i] == k;
      NormalizeNonEmpty(k);
      NormalizedIsValid(k);
    }
  }

  /** Proof step for ResultFieldKeysValid: each of `RESULT_FIELDS` starts with a lowercase letter. */
  lemma ResultFieldsStartLower()
    ensures StartLower(Sensors.ResultFields)
  {
  }

  /** Proof step for ExpectedKeysValid: each extra sensor key starts with a lowercase letter. */
  lemma ExtraKeysStartLower()
    ensures StartLower(ExtraSensorKeys)
  {
  }

  /** The guard never expects a key that its own format check would reject, whenever each result field starts with a lowercase letter. */
  lemma {:induction false} ExpectedKeysValid(resultFields: seq<string>)
    requires StartLower(resultFields)
    ensures forall k :: k in ExpectedSensorKeys(resultFields) ==> IsValidKey(k)
  {
    ExtraKeysStartLower();
    StartLowerValid(resultFields);
    StartLowerValid(ExtraSensorKeys);
  }

  /** In particular for the integration's own `RESULT_FIELDS`. */
  lemma ResultFieldKeysValid()
    ensures forall k :: k in ExpectedSensorKeys(Sensors.ResultFields) ==> IsValidKey(k)
  {
    ResultFieldsStartLower();
    ExpectedKeysValid(Sensors.ResultFields);
  }

  // ---------------------------------------------------------------------------
  // sorted(): Python's string order and sorted key lists

  /** `a < b` on Python strings: code-point lexicographic order, a proper prefix first. */
  predicate Less(a: string, b: string)
    decreases |a|
  {
    |b| > 0 && (|a| == 0 || a[0] < b[0] || (a[0] == b[0] && Less(a[1..], b[1..])))
  }

  lemma {:induction false} LessIrreflexive(a: string)
    ensures !Less(a, a)
    decreases |a|
  {
    if |a| > 0 {
      LessIrreflexive(a[1..]);
    }
  }

  lemma {:induction false} LessTransitive(a: string, b: string, c: string)
    requires Less(a, b) && Less(b, c)
    ensures Less(a, c)
    decreases |a|
  {
    if |a| > 0 && a[0] == b[0] && b[0] == c[0] {
      LessTransitive(a[1..], b[1..], c[1..]);
    }
  }

  lemma {:induction false} LessTotal(a: string, b: string)
    requires a != b
    ensures Less(a, b) || Less(b, a)
    decreases |a|
  {
    if |a| > 0 && |b| > 0 && a[0] == b[0] {
      assert a == [a[0]] + a[1..] && b == [b[0]] + b[1..];
      LessTotal(a[1..], b[1..]);
    }
  }

  lemma {:induction false} LessAsymmetric(a: string, b: string)
    requires Less(a, b)
    ensures !Less(b, a)
  {
    if Less(b, a) {
      LessTransitive(a, b, a);
      LessIrreflexive(a);
    }
  }

  predicate StrictlySorted(q: seq<string>) {
    forall i, j :: 0 <= i < j < |q| ==> Less(q[i], q[j])
  }

  /** `q` lists the strings of `s` in increasing order, each once. */
  ghost predicate Lists(q: seq<string>, s: set<string>) {
    StrictlySorted(q) && forall x :: x in q <==> x in s
  }

  /** Inserts `x` at its place in a strictly sorted list. */
  function Insert(q: seq<string>, x: string): (r: seq<string>)
    requires StrictlySorted(q)
    ensures StrictlySorted(r)
    ensures forall y :: y in r <==> y in q || y == x
    decreases |q|
  {
    if |q| == 0 then [x]
    else if x == q[0] then q
    else if Less(x, q[0]) then
      InsertFront(q, x);
      [x] + q
    else
      LessTotal(x, q[0]);
      var tail := Insert(q[1..], x);
      InsertAfterHead(q, x, tail);
      [q[0]] + tail
  }

  lemma InsertFront(q: seq<string>, x: string)
    requires StrictlySorted(q) && |q| > 0 && Less(x, q[0])
    ensures StrictlySorted([x] + q)
  {
    forall j | 0 < j < |q| + 1 ensures Less(([x] + q)[0], ([x] + q)[j]) {
      if j > 1 {
        LessTransitive(x, q[0], q[j - 1]);
      }
    }
    forall i, j | 0 < i < j < |q| + 1 ensures Less(([x] + q)[i], ([x] + q)[j]) {
      assert ([x] + q)[i] == q[i - 1] && ([x] + q)[j] == q[j - 1];
    }
  }

  lemma InsertAfterHead(q: seq<string>, x: string, tail: seq<string>)
    requires StrictlySorted(q) && |q| > 0 && Less(q[0], x)
    requires StrictlySorted(tail) && forall y :: y in tail <==> y in q[1..] || y == x
    ensures StrictlySorted([q[0]] + tail)
  {
    var r := [q[0]] + tail;
    forall j | 0 < j < |r| ensures Less(r[0], r[j]) {
      assert r[j] == tail[j - 1];
      assert r[j] in tail;
      if r[j] != x {
        assert r[j] in q[1..];
        var k :| 0 <= k < |q[1..]| && q[1..][k] == r[j];
        assert q[k + 1] == r[j];
      }
    }
    forall i, j | 0 < i < j < |r| ensures Less(r[i], r[j]) {
      assert r[i] == tail[i - 1] && r[j] == tail[j - 1];
    }
  }

  /** The head of a sorted listing is below every other member. */
  lemma HeadIsLeast(q: seq<string>, s: set<string>, x: string)
    requires Lists(q, s) && x in s
    ensures |q| > 0 && (x == q[0] || Less(q[0], x))
  {
    assert x in q;
  }

  lemma HeadsAgree(p: seq<string>, q: seq<string>, s: set<string>)
    requires Lists(p, s) && Lists(q, s) && (|p| > 0 || |q| > 0)
    ensures |p| > 0 && |q| > 0 && p[0] == q[0]
  {
    if |p| > 0 {
      assert p[0] in s;
      HeadIsLeast(q, s, p[0]);
    } else {
      assert q[0] in s;
      HeadIsLeast(p, s, q[0]);
    }
    HeadIsLeast(q, s, p[0]);
    HeadIsLeast(p, s, q[0]);
    if p[0] != q[0] {
      LessAsymmetric(p[0], q[0]);
    }
  }

  /** A set has exactly one strictly sorted listing. */
  lemma {:induction false} ListsUnique(p: seq<string>, q: seq<string>, s: set<string>)
    requires Lists(p, s) && Lists(q, s)
    ensures p == q
    decreases |p|
  {
    if |p| > 0 || |q| > 0 {
      HeadsAgree(p, q, s);
      var rest := s - {p[0]};
      TailLists(p, s);
      TailLists(q, s);
      ListsUnique(p[1..], q[1..], rest);
      assert p == [p[0]] + p[1..] && q == [q[0]] + q[1..];
    }
  }

  lemma TailLists(q: seq<string>, s: set<string>)
    requires Lists(q, s) && |q| > 0
    ensures Lists(q[1..], s - {q[0]})
  {
    forall x | x in q[1..] ensures x != q[0] {
      var j :| 0 <= j < |q[1..]| && q[1..][j] == x;
      assert q[j + 1] == x;
      if x == q[0] {
        LessIrreflexive(x);
      }
    }
    forall x | x in s && x != q[0] ensures x in q[1..] {
      var j :| 0 <= j < |q| && q[j] == x;
      assert q[1..][j - 1] == x;
    }
  }

  /** Every finite set has a sorted listing. */
  lemma {:induction false} ListsExist(s: set<string>)
    ensures exists q :: Lists(q, s)
    decreases |s|
  {
    if s == {} {
      assert Lists([], s);
    } else {
      var x :| x in s;
      ListsExist(s - {x});
      var q :| Lists(q, s - {x});
      assert Lists(Insert(q, x), s);
    }
  }

  /** `sorted(s)` for a set of strings. */
  ghost function SortedKeys(s: set<string>): (q: seq<string>)
    ensures Lists(q, s)
  {
    ListsExist(s);
    var q :| Lists(q, s); q
  }

  /** `sorted(...)` of a set of keys, by insertion. */
  method SortKeys(s: set<string>) returns (q: seq<string>)
    ensures q == SortedKeys(s)
  {
    q := [];
    var rest := s;
    while rest != {}
      invariant rest <= s
      invariant Lists(q, s - rest)
      decreases |rest|
    {
      var x :| x in rest;
      q := Insert(q, x);
      rest := rest - {x};
    }
    ListsUnique(q, SortedKeys(s), s);
  }

  // ---------------------------------------------------------------------------
  // check_translation_file

  /**
    What the guard reads from one language file: its file name, `entity.sensor`
    when that is an object (its key set), and `entity.switch.rate_limit_notifications.name`.
   */
  datatype TranslationFile = TranslationFile(name: string, sensors: Option<set<string>>, switchName: Value)

  /** One line of the guard's failure report. */
  datatype Issue =
    | NotAnObject(file: string)
    | InvalidKeyFormat(file: string, keys: seq<string>)
    | MissingExpected(file: string, keys: seq<string>)
    | MissingSwitchName(file: string)
    | MissingBaseline
    | MissingInLanguage(file: string, keys: seq<string>)
    | ExtraInLanguage(file: string, keys: seq<string>)

  /** The key set `check_translation_file` returns: the sensor keys, or none when `entity.sensor` is not an object. */
  function SensorKeys(f: TranslationFile): set<string> {
    if f.sensors.Some? then f.sensors.value else {}
  }

  /** The keys that fail the format check. */
  function InvalidKeys(keys: set<string>): set<string> {
    set k | k in keys && !IsValidKey(k)
  }

  /** The issues `check_translation_file` reports for one file, in report order. */
  ghost function FileIssues(f: TranslationFile, expected: set<string>): seq<Issue> {
    if f.sensors.None? then [NotAnObject(f.name)]
    else
      var invalid := InvalidKeys(f.sensors.value);
      var missing := expected - f.sensors.value;
      (if invalid == {} then [] else [InvalidKeyFormat(f.name, SortedKeys(invalid))])
      + (if missing == {} then [] else [MissingExpected(f.name, SortedKeys(missing))])
      + (if Truthy(f.switchName) then [] else [MissingSwitchName(f.name)])
  }

  /** A file the guard accepts on its own: a sensor object of well-formed keys holding every expected key, and a switch name. */
  predicate FileClean(f: TranslationFile, expected: set<string>) {
    && f.sensors.Some?
    && (forall k :: k in f.sensors.value ==> IsValidKey(k))
    && expected <= f.sensors.value
    && Truthy(f.switchName)
  }

  /** A file yields no issue exactly when it is clean. */
  lemma FileIssuesEmpty(f: TranslationFile, expected: set<string>)
    ensures FileIssues(f, expected) == [] <==> FileClean(f, expected)
  {
    if f.sensors.Some? {
      var keys := f.sensors.value;
      if !(forall k :: k in keys ==> IsValidKey(k)) {
        var k :| k in keys && !IsValidKey(k);
        assert k in InvalidKeys(keys);
      }
      if !(expected <= keys) {
        var k :| k in expected && k !in keys;
        assert k in expected - keys;
      }
    }
  }

  /**
    The report names the file, and each key list holds exactly the offending keys, sorted;
    a file whose sensors are not an object yields that one issue and no keys.
   */
  lemma FileIssuesReport(f: TranslationFile, expected: set<string>)
    ensures f.sensors.None? ==> FileIssues(f, expected) == [NotAnObject(f.name)] && SensorKeys(f) == {}
    ensures forall i :: 0 <= i < |FileIssues(f, expected)| ==>
      var issue := FileIssues(f, expected)[i];
      && !issue.MissingBaseline? && issue.file == f.name
      && (issue.InvalidKeyFormat? ==> Lists(issue.keys, InvalidKeys(SensorKeys(f))))
      && (issue.MissingExpected? ==> Lists(issue.keys, expected - SensorKeys(f)))
      && !issue.MissingInLanguage? && !issue.ExtraInLanguage?
  {
  }

  /** `check_translation_file` on a file already parsed. */
  method CheckTranslationFile(f: TranslationFile, expected: set<string>) returns (issues: seq<Issue>, keys: set<string>)
    ensures issues == FileIssues(f, expected) && keys == SensorKeys(f)
  {
    if f.sensors.None? {
      return [NotAnObject(f.name)], {};
    }
    keys := f.sensors.value;
    issues := [];
    var invalid := InvalidKeys(keys);
    if invalid != {} {
      var sorted := SortKeys(invalid);
      issues := issues + [InvalidKeyFormat(f.name, sorted)];
    }
    var missing := expected - keys;
    if missing != {} {
      var sorted := SortKeys(missing);
      issues := issues + [MissingExpected(f.name, sorted)];
    }
    if !Truthy(f.switchName) {
      issues := issues + [MissingSwitchName(f.name)];
    }
  }

  // ---------------------------------------------------------------------------
  // main

  /** The baseline file every other language is compared with. */
  const Baseline: string := "en.json"

  /** The translation files come from one directory, so no two share a name. */
  predicate DistinctNames(files: seq<TranslationFile>) {
    forall i, j :: 0 <= i < j < |files| ==> files[i].name != files[j].name
  }

  /** The issues of every file, in file order. */
  ghost function AllFileIssues(files: seq<TranslationFile>, expected: set<string>): seq<Issue>
    decreases |files|
  {
    if |files| == 0 then []
    else AllFileIssues(files[..|files| - 1], expected) + FileIssues(files[|files| - 1], expected)
  }

  /** `key_sets["en.json"]`: the keys of the last file named `en.json`, if any. */
  function BaselineKeys(files: seq<TranslationFile>): (base: Option<set<string>>)
    ensures base.Some? <==> exists i :: 0 <= i < |files| && files[i].name == Baseline
    decreases |files|
  {
    if |files| == 0 then None
    else if files[|files| - 1].name == Baseline then Some(SensorKeys(files[|files| - 1]))
    else BaselineKeys(files[..|files| - 1])
  }

  /** The comparison of one language file with the baseline keys `en`. */
  ghost function LanguageIssue(f: TranslationFile, en: set<string>): seq<Issue> {
    var keys := SensorKeys(f);
    if f.name == Baseline then []
    else
      (if en - keys == {} then [] else [MissingInLanguage(f.name, SortedKeys(en - keys))])
      + (if keys - en == {} then [] else [ExtraInLanguage(f.name, SortedKeys(keys - en))])
  }

  /** The comparison of every language file with the baseline, in file order. */
  ghost function LanguageIssues(files: seq<TranslationFile>, en: set<string>): seq<Issue>
    decreases |files|
  {
    if |files| == 0 then []
    else LanguageIssues(files[..|files| - 1], en) + LanguageIssue(files[|files| - 1], en)
  }

  /** Everything `main` reports once some translation file exists. */
  ghost function GuardIssues(files: seq<TranslationFile>, expected: set<string>): seq<Issue> {
    var base := BaselineKeys(files);
    AllFileIssues(files, expected)
    + (if base.None? then [MissingBaseline] else [])
    + LanguageIssues(files, if base.Some? then base.value else {})
  }

  /** The exit status of `main`. */
  ghost function GuardCode(files: seq<TranslationFile>, expected: set<string>): int {
    if |files| == 0 || GuardIssues(files, expected) != [] then 1 else 0
  }

  lemma {:induction false} AllFileIssuesEmpty(files: seq<TranslationFile>, expected: set<string>)
    ensures AllFileIssues(files, expected) == [] <==> forall i :: 0 <= i < |files| ==> FileClean(files[i], expected)
    decreases |files|
  {
    if |files| > 0 {
      var init := files[..|files| - 1];
      AllFileIssuesEmpty(init, expected);
      FileIssuesEmpty(files[|files| - 1], expected);
      assert forall i :: 0 <= i < |init| ==> init[i] == files[i];
    }
  }

  lemma LanguageIssueEmpty(f: TranslationFile, en: set<string>)
    ensures LanguageIssue(f, en) == [] <==> f.name == Baseline || SensorKeys(f) == en
  {
    var keys := SensorKeys(f);
    if f.name != Baseline && en - keys == {} && keys - en == {} {
      forall k | k in keys ensures k in en {
        assert k !in keys - en;
      }
      forall k | k in en ensures k in keys {
        assert k !in en - keys;
      }
    }
  }

  lemma {:induction false} LanguageIssuesEmpty(files: seq<TranslationFile>, en: set<string>)
    ensures LanguageIssues(files, en) == [] <==>
      forall i :: 0 <= i < |files| ==> files[i].name == Baseline || SensorKeys(files[i]) == en
    decreases |files|
  {
    if |files| > 0 {
      var init := files[..|files| - 1];
      LanguageIssuesEmpty(init, en);
      LanguageIssueEmpty(files[|files| - 1], en);
      assert forall i :: 0 <= i < |init| ==> init[i] == files[i];
    }
  }

  /**
    The guard passes exactly when there is at least one file, every file is clean,
    the baseline exists, and every other file has exactly the baseline's key set.
   */
  lemma GuardPassesIff(files: seq<TranslationFile>, expected: set<string>)
    ensures GuardCode(files, expected) == 0 <==>
      && |files| > 0
      && (forall i :: 0 <= i < |files| ==> FileClean(files[i], expected))
      && BaselineKeys(files).Some?
      && (forall i :: 0 <= i < |files| && files[i].name != Baseline ==> SensorKeys(files[i]) == BaselineKeys(files).value)
  {
    var base := BaselineKeys(files);
    var en := if base.Some? then base.value else {};
    var fileIssues := AllFileIssues(files, expected);
    var baseIssue := if base.None? then [MissingBaseline] else [];
    var langIssues := LanguageIssues(files, en);
    assert GuardIssues(files, expected) == fileIssues + baseIssue + langIssues;
    assert GuardIssues(files, expected) == [] <==> fileIssues == [] && baseIssue == [] && langIssues == [];
    AllFileIssuesEmpty(files, expected);
    LanguageIssuesEmpty(files, en);
  }

  /**
    `main` on `RESULT_FIELDS` as read from `const.py` and the parsed translation
    files: the exit status and the issues it prints. With no file it fails before
    checking anything.
   */
  method RunGuard(resultFields: seq<string>, files: seq<TranslationFile>) returns (code: int, issues: seq<Issue>)
    requires DistinctNames(files)
    ensures code == GuardCode(files, ExpectedSensorKeys(resultFields))
    ensures issues == if |files| == 0 then [] else GuardIssues(files, ExpectedSensorKeys(resultFields))
  {
    var expected := ExpectedSensorKeys(resultFields);
    if |files| == 0 {
      return 1, [];
    }
    var keySets, names;
    issues, keySets, names := CheckAllFiles(files, expected);
    var en: set<string> := {};
    if Baseline in keySets {
      en := keySets[Baseline];
    } else {
      issues := issues + [MissingBaseline];
    }
    var more := CompareAll(files, names, keySets, en);
    issues := issues + more;
    code := if |issues| > 0 then 1 else 0;
  }

  /** describes `key_sets` as `main` fills it, keyed by file name in file order */
  ghost predicate KeySetsOf(files: seq<TranslationFile>, keySets: map<string, set<string>>, names: seq<string>) {
    && |names| == |files|
    && (forall j :: 0 <= j < |files| ==> names[j] == files[j].name)
    && (forall j :: 0 <= j < |files| ==> files[j].name in keySets && keySets[files[j].name] == SensorKeys(files[j]))
  }

  /** The first loop of `main`: check every file and record its key set under its name. */
  method CheckAllFiles(files: seq<TranslationFile>, expected: set<string>)
    returns (issues: seq<Issue>, keySets: map<string, set<string>>, names: seq<string>)
    requires DistinctNames(files)
    ensures issues == AllFileIssues(files, expected)
    ensures KeySetsOf(files, keySets, names)
    ensures BaselineKeys(files) == if Baseline in keySets then Some(keySets[Baseline]) else None
  {
    issues := [];
    keySets := map[];
    names := [];
    var i := 0;
    while i < |files|
      invariant i <= |files|
      invariant issues == AllFileIssues(files[..i], expected)
      invariant KeySetsOf(files[..i], keySets, names)
      invariant BaselineKeys(files[..i]) == if Baseline in keySets then Some(keySets[Baseline]) else None
    {
      var fileIssues, keys := CheckTranslationFile(files[i], expected);
      var next := files[..i + 1];
      assert next[..i] == files[..i];
      issues := issues + fileIssues;
      RecordKeys(files, i, keySets, names, keys);
      keySets := keySets[files[i].name := keys];
      names := names + [files[i].name];
      i := i + 1;
    }
    assert files[..i] == files;
  }

  /** Recording the next file's keys keeps the earlier entries, since the names differ. */
  lemma RecordKeys(files: seq<TranslationFile>, i: nat, keySets: map<string, set<string>>, names: seq<string>, keys: set<string>)
    requires DistinctNames(files) && i < |files| && KeySetsOf(files[..i], keySets, names)
    requires keys == SensorKeys(files[i])
    ensures KeySetsOf(files[..i + 1], keySets[files[i].name := keys], names + [files[i].name])
  {
    var next := files[..i + 1];
    forall j | 0 <= j < i ensures next[j].name != files[i].name {
      assert next[j] == files[j];
    }
  }

  /** The second loop of `main`: compare every entry of `key_sets` with the baseline keys. */
  method CompareAll(files: seq<TranslationFile>, names: seq<string>, keySets: map<string, set<string>>, en: set<string>)
    returns (more: seq<Issue>)
    requires KeySetsOf(files, keySets, names)
    ensures more == LanguageIssues(files, en)
  {
    more := [];
    var j := 0;
    while j < |names|
      invariant j <= |names|
      invariant more == LanguageIssues(files[..j], en)
    {
      var next := files[..j + 1];
      assert next[..j] == files[..j];
      var issues := CompareWithBaseline(names[j], keySets[names[j]], en);
      assert issues == LanguageIssue(files[j], en);
      more := more + issues;
      j := j + 1;
    }
    assert files[..j] == files;
  }

  /** The missing and extra keys of one entry of `key_sets` against the baseline keys. */
  method CompareWithBaseline(name: string, keys: set<string>, en: set<string>) returns (more: seq<Issue>)
    ensures more == LanguageIssue(TranslationFile(name, Some(keys), Null), en)
  {
    more := [];
    if name == Baseline {
      return;
    }
    var missing := en - keys;
    if missing != {} {
      var sorted := SortKeys(missing);
      more := more + [MissingInLanguage(name, sorted)];
    }
    var extra := keys - en;
    if extra != {} {
      var sorted := SortKeys(extra);
      more := more + [ExtraInLanguage(name, sorted)];
    }
  }
}
