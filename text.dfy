/**
  String operations the integration relies on, restricted to what the model needs:
  ASCII lower-casing (which is also what casefold does on ASCII), Python's
  whitespace strip, substring search, joining, and decimal rendering.
 */
module Text {

  predicate IsUpper(c: char) { 'A' <= c <= 'Z' }
  predicate IsLower(c: char) { 'a' <= c <= 'z' }
  predicate IsDigit(c: char) { '0' <= c <= '9' }

  function LowerChar(c: char): (d: char)
    ensures !IsUpper(d)
    ensures IsUpper(c) ==> IsLower(d)
    ensures !IsUpper(c) ==> d == c
  {
    if IsUpper(c) then (c as int + 32) as char else c
  }

  /** str.lower() on ASCII letters; every other character is kept. */
  function Lower(s: string): (r: string)
    ensures |r| == |s|
    ensures forall i :: 0 <= i < |s| ==> r[i] == LowerChar(s[i])
  {
    if |s| == 0 then "" else [LowerChar(s[0])] + Lower(s[1..])
  }

  /**
    str.casefold() as the integration uses it, to compare serials without case.
    On ASCII it maps each character as str.lower() does (FoldIsLower); its
    only stated property is its length, so that comparing folds stays cheap.
   */
  function Fold(s: string): (r: string)
    ensures |r| == |s|
  {
    if |s| == 0 then "" else [LowerChar(s[0])] + Fold(s[1..])
  }

  lemma {:induction false} FoldIsLower(s: string)
    ensures Fold(s) == Lower(s)
  {
    if |s| > 0 {
      FoldIsLower(s[1..]);
    }
  }

  /** The characters for which Python's str.isspace() holds. */
  predicate IsSpace(c: char) {
    var n := c as int;
    (9 <= n <= 13) || (28 <= n <= 32) || n == 0x85 || n == 0xA0 || n == 0x1680
    || (0x2000 <= n <= 0x200A) || n == 0x2028 || n == 0x2029 || n == 0x202F
    || n == 0x205F || n == 0x3000
  }

  /** Every character of `s` is whitespace. */
  predicate AllSpace(s: string) {
    forall k :: 0 <= k < |s| ==> IsSpace(s[k])
  }

  /** str.lstrip(): the leading whitespace removed, and only that. */
  function TrimSpaceStart(s: string): (r: string)
    ensures |r| <= |s| && r == s[|s| - |r|..]
    ensures |r| > 0 ==> !IsSpace(r[0])
    ensures |s| > 0 && !IsSpace(s[0]) ==> r == s
  {
    if |s| > 0 && IsSpace(s[0]) then TrimSpaceStart(s[1..]) else s
  }

  /** str.rstrip(): the trailing whitespace removed, and only that. */
  function TrimSpaceEnd(s: string): (r: string)
    ensures |r| <= |s| && r == s[..|r|]
    ensures |r| > 0 ==> !IsSpace(r[|r| - 1])
    ensures |s| > 0 && !IsSpace(s[|s| - 1]) ==> r == s
  {
    if |s| > 0 && IsSpace(s[|s| - 1]) then TrimSpaceEnd(s[..|s| - 1]) else s
  }

  /** Neither end of `s` is whitespace: what str.strip() leaves behind. */
  predicate IsStripped(s: string) {
    |s| > 0 ==> !IsSpace(s[0]) && !IsSpace(s[|s| - 1])
  }

  /** str.strip() with no argument: leading and trailing whitespace removed (StripRemovesEdgeSpace). */
  function Strip(s: string): (r: string)
    ensures |r| <= |s|
    ensures IsStripped(r)
    ensures IsStripped(s) ==> r == s
    decreases |s|
  {
    if |s| > 0 && IsSpace(s[0]) then Strip(s[1..])
    else
      var r := TrimSpaceEnd(s);
      assert |r| > 0 ==> r[0] == s[0];
      r
  }

  /** lstrip removes whitespace and nothing else. */
  lemma {:induction false} TrimSpaceStartDropsSpace(s: string)
    ensures AllSpace(s[..|s| - |TrimSpaceStart(s)|])
    decreases |s|
  {
    if |s| > 0 && IsSpace(s[0]) {
      TrimSpaceStartDropsSpace(s[1..]);
      var n := |s| - |TrimSpaceStart(s)|;
      assert s[..n] == [s[0]] + s[1..][..n - 1];
    }
  }

  /** rstrip removes whitespace and nothing else. */
  lemma {:induction false} TrimSpaceEndDropsSpace(s: string)
    ensures AllSpace(s[|TrimSpaceEnd(s)|..])
    decreases |s|
  {
    if |s| > 0 && IsSpace(s[|s| - 1]) {
      var init := s[..|s| - 1];
      TrimSpaceEndDropsSpace(init);
      var n := |TrimSpaceEnd(s)|;
      assert s[n..] == init[n..] + [s[|s| - 1]];
    }
  }

  /**
    `r` is `s` with exactly `a` whitespace characters cut from the front and
    only whitespace cut from the back.
   */
  predicate StripsAt(s: string, r: string, a: int) {
    0 <= a <= |s| - |r| && r == s[a..a + |r|] && AllSpace(s[..a]) && AllSpace(s[a + |r|..])
  }

  /** strip() keeps a contiguous middle of its input and removes only whitespace around it. */
  lemma {:induction false} StripRemovesEdgeSpace(s: string)
    ensures exists a :: StripsAt(s, Strip(s), a)
    decreases |s|
  {
    if |s| > 0 && IsSpace(s[0]) {
      StripRemovesEdgeSpace(s[1..]);
      var a :| StripsAt(s[1..], Strip(s[1..]), a);
      StripsAtCons(s, Strip(s), a);
    } else {
      TrimSpaceEndDropsSpace(s);
      assert StripsAt(s, Strip(s), 0);
    }
  }

  /** Proof step for StripRemovesEdgeSpace: a whitespace character in front moves the cut by one. */
  lemma StripsAtCons(s: string, r: string, a: int)
    requires |s| > 0 && IsSpace(s[0]) && StripsAt(s[1..], r, a)
    ensures StripsAt(s, r, a + 1)
  {
    assert s[1..][a..a + |r|] == s[a + 1..a + 1 + |r|];
    assert s[1..][a + |r|..] == s[a + 1 + |r|..];
    forall k | 0 <= k < a + 1
      ensures IsSpace(s[k])
    {
      if k > 0 {
        assert s[k] == s[1..][..a][k - 1];
      }
    }
  }

  lemma StripIdempotentSpace(s: string)
    ensures Strip(Strip(s)) == Strip(s)
  {
  }

  lemma LowerIdempotent(s: string)
    ensures Lower(Lower(s)) == Lower(s)
  {
  }

  /** `needle` occurs in `hay` (Python's `needle in hay`). */
  predicate Contains(hay: string, needle: string)
    decreases |hay|
  {
    |needle| <= |hay| && (hay[..|needle|] == needle || (|hay| > 0 && Contains(hay[1..], needle)))
  }

  function Join(parts: seq<string>, sep: string): string {
    if |parts| == 0 then ""
    else if |parts| == 1 then parts[0]
    else parts[0] + sep + Join(parts[1..], sep)
  }

  function DigitChar(d: int): char
    requires 0 <= d < 10
  {
    ('0' as int + d) as char
  }

  function NatText(n: nat): string {
    if n < 10 then [DigitChar(n)] else NatText(n / 10) + [DigitChar(n % 10)]
  }

  /** Python's str() of an int. */
  function IntText(i: int): string {
    if i < 0 then "-" + NatText(-i) else NatText(i)
  }
}
