/**
  The text of the two persistent notifications raised after a refresh and of the
  invalid-serial notice of the options flow: one detail line (or entry) per
  listed serial, with the defaults the code applies when a detail is missing.
 */
module Notices {
  import opened Values
  import opened Records
  import Text

  const DefaultUnauthorizedCode := 1003
  const DefaultUnauthorizedReason := "Data Unauthorized"

  // ---------------------------------------------------------------------------
  // Rate-limit notification

  /** `info.get("code")` and `info.get("exception")` with `info = details.get(serial, {})`. */
  function RateLimitInfo(serial: string, details: map<string, RateLimitDetail>): (Value, Value) {
    if serial in details then (DetailCode(details[serial]), DetailReason(details[serial])) else (Null, Null)
  }

  /** A serial gets a detail line only when it has a code or a truthy reason. */
  predicate HasRateLimitLine(serial: string, details: map<string, RateLimitDetail>) {
    var (code, reason) := RateLimitInfo(serial, details);
    code != Null || Truthy(reason)
  }

  function RateLimitLine(serial: string, details: map<string, RateLimitDetail>): string {
    var (code, reason) := RateLimitInfo(serial, details);
    "- " + serial + ": code=" + Show(code) + ", reason=" + Show(reason)
  }

  /** The detail lines of `_update_rate_limit_notification`, in list order. */
  function RateLimitLines(serials: seq<string>, details: map<string, RateLimitDetail>): seq<string>
    decreases |serials|
  {
    if |serials| == 0 then []
    else
      var prior := RateLimitLines(serials[..|serials| - 1], details);
      var serial := serials[|serials| - 1];
      if HasRateLimitLine(serial, details) then prior + [RateLimitLine(serial, details)] else prior
  }

  method BuildRateLimitLines(serials: seq<string>, details: map<string, RateLimitDetail>) returns (lines: seq<string>)
    ensures lines == RateLimitLines(serials, details)
  {
    lines := [];
    var i := 0;
    while i < |serials|
      invariant i <= |serials|
      invariant lines == RateLimitLines(serials[..i], details)
    {
      assert serials[..i + 1][..i] == serials[..i];
      var serial := serials[i];
      var code := Null;
      var reason := Null;
      if serial in details {
        code := DetailCode(details[serial]);
        reason := DetailReason(details[serial]);
      }
      if code != Null || Truthy(reason) {
        lines := lines + ["- " + serial + ": code=" + Show(code) + ", reason=" + Show(reason)];
      }
      i := i + 1;
    }
    assert serials[..|serials|] == serials;
  }

  /**
    Every line names a listed serial that has something to report, and every such
    serial has a line: a serial with no detail or only a cool-down detail gets none.
   */
  lemma {:induction false} RateLimitLinesCover(serials: seq<string>, details: map<string, RateLimitDetail>)
    ensures |RateLimitLines(serials, details)| <= |serials|
    ensures forall line :: line in RateLimitLines(serials, details) ==>
      exists s :: s in serials && HasRateLimitLine(s, details) && line == RateLimitLine(s, details)
    ensures forall s :: s in serials && HasRateLimitLine(s, details) ==> RateLimitLine(s, details) in RateLimitLines(serials, details)
    decreases |serials|
  {
    if |serials| > 0 {
      var init := serials[..|serials| - 1];
      RateLimitLinesCover(init, details);
      assert serials == init + [serials[|serials| - 1]];
    }
  }

  lemma NoLineWithoutDetail(serial: string, details: map<string, RateLimitDetail>)
    ensures serial !in details ==> !HasRateLimitLine(serial, details)
    ensures serial in details && details[serial].CooldownActive? ==> !HasRateLimitLine(serial, details)
    ensures serial in details && details[serial].ApiRateLimit? && details[serial].code.Some? ==> HasRateLimitLine(serial, details)
  {
  }

  const RateLimitTrailer :=
    "The integration keeps previous values for affected inverters until API calls recover. Consider increasing scan interval."

  /** The rate-limit notification's body, or None when it is dismissed instead. */
  function RateLimitNotification(enabled: bool, serials: seq<string>, details: map<string, RateLimitDetail>): (body: Option<string>)
    ensures body.None? <==> !enabled || serials == []
  {
    if !enabled || serials == [] then None
    else
      var block := Text.Join(RateLimitLines(serials, details), "\n");
      Some("SolaX Cloud API rate limit is active.\n" + "Affected inverter(s): " + Text.Join(serials, ", ") + "\n"
           + (if block != "" then block + "\n" else "") + RateLimitTrailer)
  }

  // ---------------------------------------------------------------------------
  // Invalid-serial notification and the options flow's invalid-serial notice

  /** `detail.get("code", 1003)` with `detail = details.get(serial, {})`. */
  function UnauthorizedCode(serial: string, details: map<string, UnauthorizedDetail>): Value {
    if serial in details then details[serial].code else Int(DefaultUnauthorizedCode)
  }

  /** `detail.get("exception") or "Data Unauthorized"`. */
  function UnauthorizedReason(serial: string, details: map<string, UnauthorizedDetail>): string {
    if serial in details && Truthy(details[serial].exception) then Show(details[serial].exception)
    else DefaultUnauthorizedReason
  }

  /** A line of the invalid-serial notification from its code and reason. */
  function DetailLine(serial: string, code: Value, reason: string): string {
    "- " + serial + ": code=" + Show(code) + ", reason=" + reason
  }

  function InvalidSerialLine(serial: string, details: map<string, UnauthorizedDetail>): string {
    DetailLine(serial, UnauthorizedCode(serial, details), UnauthorizedReason(serial, details))
  }

  /** The detail lines of `_update_invalid_serial_notification`: one per listed serial, in order. */
  function InvalidSerialLines(serials: seq<string>, details: map<string, UnauthorizedDetail>): (lines: seq<string>)
    ensures |lines| == |serials|
  {
    seq(|serials|, i requires 0 <= i < |serials| => InvalidSerialLine(serials[i], details))
  }

  /** The code and reason both loops read from `details.get(serial, {})`, with their defaults. */
  method UnauthorizedFields(serial: string, details: map<string, UnauthorizedDetail>) returns (code: Value, reason: string)
    ensures code == UnauthorizedCode(serial, details) && reason == UnauthorizedReason(serial, details)
    ensures serial !in details ==> code == Int(1003) && reason == "Data Unauthorized"
  {
    code := Int(DefaultUnauthorizedCode);
    reason := DefaultUnauthorizedReason;
    if serial in details {
      code := details[serial].code;
      if Truthy(details[serial].exception) {
        reason := Show(details[serial].exception);
      }
    }
  }

  method BuildInvalidSerialLines(serials: seq<string>, details: map<string, UnauthorizedDetail>) returns (lines: seq<string>)
    ensures lines == InvalidSerialLines(serials, details)
  {
    lines := [];
    var i := 0;
    while i < |serials|
      invariant i <= |serials|
      invariant |lines| == i
      invariant forall j :: 0 <= j < i ==> lines[j] == InvalidSerialLine(serials[j], details)
    {
      var serial := serials[i];
      var code, reason := UnauthorizedFields(serial, details);
      lines := lines + [DetailLine(serial, code, reason)];
      i := i + 1;
    }
  }

  lemma DefaultCodeText()
    ensures Show(Int(DefaultUnauthorizedCode)) == "1003"
  {
    assert Text.NatText(1003) == Text.NatText(100) + [Text.DigitChar(3)];
    assert Text.NatText(100) == Text.NatText(10) + [Text.DigitChar(0)];
    assert Text.NatText(10) == Text.NatText(1) + [Text.DigitChar(0)];
  }

  /** A serial without a detail is reported with code 1003 and reason "Data Unauthorized". */
  lemma MissingDetailDefaults(serial: string, details: map<string, UnauthorizedDetail>)
    ensures serial !in details ==>
      Show(UnauthorizedCode(serial, details)) == "1003" && UnauthorizedReason(serial, details) == "Data Unauthorized"
    ensures serial in details && !Truthy(details[serial].exception) ==> UnauthorizedReason(serial, details) == "Data Unauthorized"
    ensures serial in details ==> UnauthorizedCode(serial, details) == details[serial].code
  {
    DefaultCodeText();
  }

  const InvalidSerialTrailer := "These inverters are kept unavailable until serial/auth access is corrected."

  /** The invalid-serial notification's body, or None when it is dismissed instead. */
  function InvalidSerialNotification(serials: seq<string>, details: map<string, UnauthorizedDetail>): (body: Option<string>)
    ensures body.None? <==> serials == []
  {
    if serials == [] then None
    else
      Some("One or more inverter serials are unauthorized.\n" + Text.Join(InvalidSerialLines(serials, details), "\n")
           + "\n" + InvalidSerialTrailer)
  }

  /** One entry of `_format_invalid_serial_details`. */
  function DetailEntry(serial: string, code: Value, reason: string): string {
    serial + " (code=" + Show(code) + ", reason=" + reason + ")"
  }

  function InvalidSerialEntry(serial: string, details: map<string, UnauthorizedDetail>): string {
    DetailEntry(serial, UnauthorizedCode(serial, details), UnauthorizedReason(serial, details))
  }

  function InvalidSerialEntries(serials: seq<string>, details: map<string, UnauthorizedDetail>): (entries: seq<string>)
    ensures |entries| == |serials|
  {
    seq(|serials|, i requires 0 <= i < |serials| => InvalidSerialEntry(serials[i], details))
  }

  const UnknownDetails := "Unknown"

  /** The text of `_format_invalid_serial_details`: the entries joined by "; ", or "Unknown" when there are none. */
  function InvalidSerialDetailsText(serials: seq<string>, details: map<string, UnauthorizedDetail>): (text: string)
    ensures text == UnknownDetails <==> serials == []
  {
    if serials == [] then UnknownDetails
    else
      UnknownIffEmpty(serials, details);
      Text.Join(InvalidSerialEntries(serials, details), "; ")
  }

  /** `_format_invalid_serial_details`. */
  method FormatInvalidSerialDetails(serials: seq<string>, details: map<string, UnauthorizedDetail>) returns (text: string)
    ensures text == InvalidSerialDetailsText(serials, details)
  {
    var formatted: seq<string> := [];
    var i := 0;
    while i < |serials|
      invariant i <= |serials|
      invariant |formatted| == i
      invariant forall j :: 0 <= j < i ==> formatted[j] == InvalidSerialEntry(serials[j], details)
    {
      var serial := serials[i];
      var code, reason := UnauthorizedFields(serial, details);
      formatted := formatted + [DetailEntry(serial, code, reason)];
      i := i + 1;
    }
    assert formatted == InvalidSerialEntries(serials, details);
    text := if formatted != [] then Text.Join(formatted, "; ") else UnknownDetails;
  }

  lemma {:induction false} JoinLonger(parts: seq<string>, sep: string)
    requires |parts| > 0
    ensures |Text.Join(parts, sep)| >= |parts[0]|
    decreases |parts|
  {
    if |parts| > 1 {
      JoinLonger(parts[1..], sep);
    }
  }

  /** The placeholder "Unknown" appears exactly when no serial is listed: every real entry is longer. */
  lemma UnknownIffEmpty(serials: seq<string>, details: map<string, UnauthorizedDetail>)
    requires serials != []
    ensures Text.Join(InvalidSerialEntries(serials, details), "; ") != UnknownDetails
  {
    var entries := InvalidSerialEntries(serials, details);
    JoinLonger(entries, "; ");
    assert |entries[0]| > |UnknownDetails|;
  }
}
