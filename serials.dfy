/**
  Serial-number and name handling shared by the config flow and the setup hand-off:
  slugifying the system name, normalising a typed serial, the casefold-insensitive
  membership test, and the order-keeping deduplication of a serial list.
 */
module Serials {
  import Text

  /** Every occurrence of `from` replaced by `to` (Python's str.replace with one-character arguments). */
  function ReplaceChar(s: string, from: char, to: char): (r: string)
    ensures |r| == |s|
    ensures forall i :: 0 <= i < |s| ==> r[i] == if s[i] == from then to else s[i]
  {
    if |s| == 0 then "" else [if s[0] == from then to else s[0]] + ReplaceChar(s[1..], from, to)
  }

  /** `_slugify_name`: lower-cased, with spaces and hyphens turned into underscores. */
  function Slugify(name: string): (slug: string)
    ensures |slug| == |name|
    ensures forall i :: 0 <= i < |slug| ==> slug[i] != ' ' && slug[i] != '-' && !Text.IsUpper(slug[i])
    ensures forall i :: 0 <= i < |slug| ==>
      slug[i] == if name[i] == ' ' || name[i] == '-' then '_' else Text.LowerChar(name[i])
  {
    ReplaceChar(ReplaceChar(Text.Lower(name), ' ', '_'), '-', '_')
  }

  lemma SlugifyIdempotent(name: string)
    ensures Slugify(Slugify(name)) == Slugify(name)
  {
    var s := Slugify(name);
    assert forall i :: 0 <= i < |s| ==> Slugify(s)[i] == s[i];
  }

  /** `_normalize_serial`: surrounding whitespace removed; a serial already trimmed is kept as it is. */
  function NormalizeSerial(value: string): (serial: string)
    ensures |serial| <= |value|
    ensures Text.IsStripped(serial)
    ensures Text.IsStripped(value) ==> serial == value
  {
    Text.Strip(value)
  }

  /** Normalising removes surrounding whitespace and nothing else. */
  lemma NormalizeSerialRemovesEdgeSpace(value: string)
    ensures exists a :: Text.StripsAt(value, NormalizeSerial(value), a)
  {
    Text.StripRemovesEdgeSpace(value);
    var a :| Text.StripsAt(value, Text.Strip(value), a);
    assert Text.StripsAt(value, NormalizeSerial(value), a);
  }

  /** No serial occurs twice. */
  predicate Distinct(serials: seq<string>) {
    forall i, j :: 0 <= i < j < |serials| ==> serials[i] != serials[j]
  }

  /** `{sn.casefold() for sn in serials}`. */
  function FoldSet(serials: seq<string>): set<string> {
    set s | s in serials :: Text.Fold(s)
  }

  /**
    `[sn for sn in xs if sn.casefold() in folds]` when `inside`, and the same with
    `not in` otherwise: the serials whose casefold is (or is not) in `folds`, in order.
   */
  function SelectByFold(xs: seq<string>, folds: set<string>, inside: bool): (r: seq<string>)
    ensures |r| <= |xs|
    ensures forall x :: x in r <==> x in xs && (Text.Fold(x) in folds <==> inside)
    decreases |xs|
  {
    if |xs| == 0 then []
    else (if (Text.Fold(xs[0]) in folds) == inside then [xs[0]] else []) + SelectByFold(xs[1..], folds, inside)
  }

  /** Selection keeps the relative order: it distributes over concatenation. */
  lemma {:induction false} SelectAppend(xs: seq<string>, ys: seq<string>, folds: set<string>, inside: bool)
    ensures SelectByFold(xs + ys, folds, inside) == SelectByFold(xs, folds, inside) + SelectByFold(ys, folds, inside)
    decreases |xs|
  {
    if |xs| == 0 {
      assert xs + ys == ys;
    } else {
      assert (xs + ys)[1..] == xs[1..] + ys;
      SelectAppend(xs[1..], ys, folds, inside);
    }
  }

  /** When no serial qualifies the selection is empty. */
  lemma {:induction false} SelectNone(xs: seq<string>, folds: set<string>, inside: bool)
    requires forall x :: x in xs ==> (Text.Fold(x) in folds <==> !inside)
    ensures SelectByFold(xs, folds, inside) == []
    decreases |xs|
  {
    if |xs| > 0 {
      assert xs[0] in xs;
      SelectNone(xs[1..], folds, inside);
    }
  }

  /** `_serial_exists`: some entry equals `serial` up to case. */
  predicate SerialExists(serial: string, serials: seq<string>) {
    exists i :: 0 <= i < |serials| && Text.Fold(serials[i]) == Text.Fold(serial)
  }

  lemma SerialExistsIff(serial: string, serials: seq<string>)
    ensures SerialExists(serial, serials) <==> Text.Fold(serial) in FoldSet(serials)
  {
    if Text.Fold(serial) in FoldSet(serials) {
      var s :| s in serials && Text.Fold(s) == Text.Fold(serial);
      var i :| 0 <= i < |serials| && serials[i] == s;
    }
  }

  /** Every serial of the list normalised, in order. */
  function Normalized(serials: seq<string>): (r: seq<string>)
    ensures |r| == |serials|
    ensures forall i :: 0 <= i < |r| ==> r[i] == NormalizeSerial(serials[i])
    decreases |serials|
  {
    if |serials| == 0 then [] else Normalized(serials[..|serials| - 1]) + [NormalizeSerial(serials[|serials| - 1])]
  }

  lemma {:induction false} NormalizedAppend(serials: seq<string>, more: seq<string>)
    ensures Normalized(serials + more) == Normalized(serials) + Normalized(more)
    decreases |more|
  {
    if |more| == 0 {
      assert serials + more == serials;
    } else {
      var longer := serials + more;
      assert longer[..|longer| - 1] == serials + more[..|more| - 1];
      NormalizedAppend(serials, more[..|more| - 1]);
    }
  }

  /** The non-empty entries of `xs` in order, each kept only if no earlier kept entry has its casefold. */
  function UniqueByFold(xs: seq<string>): seq<string>
    decreases |xs|
  {
    if |xs| == 0 then []
    else
      var prior := UniqueByFold(xs[..|xs| - 1]);
      var x := xs[|xs| - 1];
      if x == "" || Text.Fold(x) in FoldSet(prior) then prior else prior + [x]
  }

  lemma UniqueByFoldSnoc(xs: seq<string>, x: string)
    ensures UniqueByFold(xs + [x]) ==
      if x == "" || Text.Fold(x) in FoldSet(UniqueByFold(xs)) then UniqueByFold(xs) else UniqueByFold(xs) + [x]
  {
    assert (xs + [x])[..|xs|] == xs;
  }

  lemma FoldSetSnoc(xs: seq<string>, x: string)
    ensures FoldSet(xs + [x]) == FoldSet(xs) + {Text.Fold(x)}
  {
    assert forall s :: s in xs + [x] <==> s in xs || s == x;
  }

  /**
    `_dedupe_serials` as a specification: the normalised serials in input order,
    dropping empty ones and any whose casefold was already kept.
   */
  function Dedupe(serials: seq<string>): seq<string> {
    UniqueByFold(Normalized(serials))
  }

  /** A list as `_dedupe_serials` returns it: normalised, non-empty, no two entries equal up to case. */
  predicate IsDeduped(serials: seq<string>) {
    && (forall i :: 0 <= i < |serials| ==> serials[i] != "" && Text.IsStripped(serials[i]))
    && (forall i, j :: 0 <= i < j < |serials| ==> Text.Fold(serials[i]) != Text.Fold(serials[j]))
  }

  /** The loop of `_dedupe_serials`, with its `seen` set of casefolded serials. */
  method DedupeSerials(serials: seq<string>) returns (unique: seq<string>)
    ensures unique == Dedupe(serials)
    ensures IsDeduped(unique)
  {
    unique := [];
    var seen: set<string> := {};
    var i := 0;
    while i < |serials|
      invariant 0 <= i <= |serials|
      invariant unique == Dedupe(serials[..i])
      invariant seen == FoldSet(unique)
    {
      var normalized := NormalizeSerial(serials[i]);
      assert serials[..i + 1] == serials[..i] + [serials[i]];
      DedupeSnoc(serials[..i], serials[i]);
      FoldSetSnoc(unique, normalized);
      if normalized != "" {
        var key := Text.Fold(normalized);
        if key !in seen {
          seen := seen + {key};
          unique := unique + [normalized];
        }
      }
      i := i + 1;
    }
    assert serials[..|serials|] == serials;
    DedupeValid(serials);
  }

  /** One more input serial: it is kept, normalised, unless it is blank or its casefold is already kept. */
  lemma DedupeSnoc(serials: seq<string>, x: string)
    ensures Dedupe(serials + [x]) ==
      var n := NormalizeSerial(x);
      if n == "" || Text.Fold(n) in FoldSet(Dedupe(serials)) then Dedupe(serials) else Dedupe(serials) + [n]
  {
    NormalizedAppend(serials, [x]);
    assert Normalized([x]) == [NormalizeSerial(x)];
    UniqueByFoldSnoc(Normalized(serials), NormalizeSerial(x));
  }

  lemma {:induction false} UniqueByFoldValid(xs: seq<string>)
    ensures forall u :: u in UniqueByFold(xs) ==> u in xs && u != ""
    ensures forall i, j :: 0 <= i < j < |UniqueByFold(xs)| ==>
      Text.Fold(UniqueByFold(xs)[i]) != Text.Fold(UniqueByFold(xs)[j])
    decreases |xs|
  {
    if |xs| > 0 {
      var init := xs[..|xs| - 1];
      UniqueByFoldValid(init);
      var prior := UniqueByFold(init);
      var x := xs[|xs| - 1];
      assert forall u :: u in init ==> u in xs;
      if !(x == "" || Text.Fold(x) in FoldSet(prior)) {
        var u := prior + [x];
        forall i, j | 0 <= i < j < |u|
          ensures Text.Fold(u[i]) != Text.Fold(u[j])
        {
          if j == |prior| {
            assert u[i] in prior;
          }
        }
      }
    }
  }

  lemma DedupeValid(serials: seq<string>)
    ensures IsDeduped(Dedupe(serials))
  {
    var n := Normalized(serials);
    var u := UniqueByFold(n);
    UniqueByFoldValid(n);
    forall k | 0 <= k < |u|
      ensures u[k] != "" && Text.IsStripped(u[k])
    {
      assert u[k] in u;
      var i :| 0 <= i < |n| && n[i] == u[k];
      assert n[i] == NormalizeSerial(serials[i]);
    }
  }

  /** The casefolds of the non-empty entries of `xs`. */
  function NonEmptyFolds(xs: seq<string>): set<string> {
    set x | x in xs && x != "" :: Text.Fold(x)
  }

  lemma NonEmptyFoldsSnoc(xs: seq<string>, x: string)
    ensures NonEmptyFolds(xs + [x]) == if x == "" then NonEmptyFolds(xs) else NonEmptyFolds(xs) + {Text.Fold(x)}
  {
    assert forall s :: s in xs + [x] <==> s in xs || s == x;
  }

  lemma {:induction false} UniqueByFoldKeys(xs: seq<string>)
    ensures FoldSet(UniqueByFold(xs)) == NonEmptyFolds(xs)
    decreases |xs|
  {
    if |xs| > 0 {
      var init := xs[..|xs| - 1];
      var last := xs[|xs| - 1];
      assert xs == init + [last];
      UniqueByFoldKeys(init);
      UniqueByFoldSnoc(init, last);
      NonEmptyFoldsSnoc(init, last);
      FoldSetSnoc(UniqueByFold(init), last);
    }
  }

  /** The casefolds of the serials a list configures: its non-blank entries, stripped. */
  function ServedFolds(serials: seq<string>): set<string> {
    set s | s in serials && NormalizeSerial(s) != "" :: Text.Fold(NormalizeSerial(s))
  }

  /**
    The casefolds kept are exactly those of the non-empty normalised inputs, and
    every kept entry is the normalisation of some input.
   */
  lemma DedupeKeys(serials: seq<string>)
    ensures FoldSet(Dedupe(serials)) == ServedFolds(serials)
    ensures forall u :: u in Dedupe(serials) ==> exists s :: s in serials && NormalizeSerial(s) == u
  {
    var n := Normalized(serials);
    UniqueByFoldKeys(n);
    UniqueByFoldValid(n);
    forall u | u in Dedupe(serials)
      ensures exists s :: s in serials && NormalizeSerial(s) == u
    {
      var i :| 0 <= i < |n| && n[i] == u;
      assert serials[i] in serials;
    }
    var lhs := NonEmptyFolds(n);
    var rhs := ServedFolds(serials);
    forall k | k in lhs ensures k in rhs {
      var x :| x in n && x != "" && Text.Fold(x) == k;
      var i :| 0 <= i < |n| && n[i] == x;
      assert serials[i] in serials;
    }
    forall k | k in rhs ensures k in lhs {
      var s :| s in serials && NormalizeSerial(s) != "" && Text.Fold(NormalizeSerial(s)) == k;
      var i :| 0 <= i < |serials| && serials[i] == s;
      assert n[i] in n;
    }
  }

  lemma {:induction false} UniqueByFoldPrefix(xs: seq<string>, more: seq<string>)
    ensures UniqueByFold(xs) <= UniqueByFold(xs + more)
    decreases |more|
  {
    if |more| > 0 {
      var longer := xs + more;
      assert longer[..|longer| - 1] == xs + more[..|more| - 1];
      UniqueByFoldPrefix(xs, more[..|more| - 1]);
    } else {
      assert xs + more == xs;
    }
  }

  /** First occurrences keep their order: deduplicating a longer list only appends to the shorter one's result. */
  lemma DedupePrefix(serials: seq<string>, more: seq<string>)
    ensures Dedupe(serials) <= Dedupe(serials + more)
  {
    var a := Normalized(serials);
    var b := Normalized(more);
    NormalizedAppend(serials, more);
    UniqueByFoldPrefix(a, b);
  }

  lemma {:induction false} UniqueByFoldOfDistinct(xs: seq<string>)
    requires IsDeduped(xs)
    ensures UniqueByFold(xs) == xs
    decreases |xs|
  {
    if |xs| > 0 {
      var init := xs[..|xs| - 1];
      var last := xs[|xs| - 1];
      assert IsDeduped(init);
      UniqueByFoldOfDistinct(init);
      assert xs == init + [last];
    }
  }

  /** A list that is already deduplicated comes back unchanged. */
  lemma DedupeOfDeduped(serials: seq<string>)
    requires IsDeduped(serials)
    ensures Dedupe(serials) == serials
  {
    assert Normalized(serials) == serials;
    UniqueByFoldOfDistinct(serials);
  }

  lemma DedupeIdempotent(serials: seq<string>)
    ensures Dedupe(Dedupe(serials)) == Dedupe(serials)
  {
    DedupeValid(serials);
    DedupeOfDeduped(Dedupe(serials));
  }
}
