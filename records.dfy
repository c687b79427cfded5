/**
  The per-serial records the coordinators publish, one variant per dict shape the
  code writes, with the dict view (`Keys`, `Get`) through which every reader
  (coordinator carry-forward, notifications, sensors) inspects them.
 */
module Records {
  import opened Values
  import opened Responses

  datatype Record =
    | NoData                                                  // None
    | Data(fields: map<string, Value>)                        // cleaned result, or {}
    | RateLimit(code: Option<int>, exception: Option<string>, skipUntil: real)
    | RateLimitSkip(skipUntil: real)
    | DataUnauthorized(exception: Option<string>, raw: Response)   // code 1003
    | Error(code: Option<int>, exception: Option<string>, raw: Response)  // "error": True
    | FetchError(message: string, rawText: Option<string>)    // preflight transport failure

  const ErrorKey := "error"
  const CodeKey := "code"
  const ExceptionKey := "exception"
  const SkipUntilKey := "skip_until"
  const RawKey := "raw"

  const RateLimitMarkText := "rate_limit"
  const RateLimitSkipMarkText := "rate_limit_skip"
  const UnauthorizedMarkText := "data_unauthorized"

  /** The keys of the record as a Python dict (None has none). */
  function Keys(r: Record): set<string> {
    match r
    case NoData => {}
    case Data(m) => m.Keys
    case RateLimit(_, _, _) => {ErrorKey, CodeKey, ExceptionKey, SkipUntilKey}
    case RateLimitSkip(_) => {ErrorKey, SkipUntilKey}
    case DataUnauthorized(_, _) => {ErrorKey, CodeKey, ExceptionKey, RawKey}
    case Error(_, _, _) => {ErrorKey, CodeKey, ExceptionKey, RawKey}
    case FetchError(_, raw) => if raw.Some? then {ErrorKey, RawKey} else {ErrorKey}
  }

  /** `record.get("error")`. */
  function ErrorField(r: Record): Value {
    match r
    case NoData => Null
    case Data(m) => if ErrorKey in m then m[ErrorKey] else Null
    case RateLimit(_, _, _) => Str(RateLimitMarkText)
    case RateLimitSkip(_) => Str(RateLimitSkipMarkText)
    case DataUnauthorized(_, _) => Str(UnauthorizedMarkText)
    case Error(_, _, _) => Bool(true)
    case FetchError(message, _) => Str(message)
  }

  /** `record.get("code", default)`. */
  function CodeFieldOr(r: Record, default: Value): Value {
    match r
    case Data(m) => if CodeKey in m then m[CodeKey] else default
    case RateLimit(code, _, _) => OfInt(code)
    case DataUnauthorized(_, _) => Int(1003)
    case Error(code, _, _) => OfInt(code)
    case _ => default
  }

  /** `record.get("exception")`. */
  function ExceptionField(r: Record): Value {
    match r
    case Data(m) => if ExceptionKey in m then m[ExceptionKey] else Null
    case RateLimit(_, exception, _) => OfStr(exception)
    case DataUnauthorized(exception, _) => OfStr(exception)
    case Error(_, exception, _) => OfStr(exception)
    case _ => Null
  }

  /** `record.get(key)`: the stored value, or None when the key is absent. */
  function Get(r: Record, key: string): (v: Value)
    ensures key !in Keys(r) ==> v == Null
  {
    match r
    case NoData => Null
    case Data(m) => if key in m then m[key] else Null
    case RateLimit(_, _, until) =>
      if key == ErrorKey then ErrorField(r)
      else if key == CodeKey then CodeFieldOr(r, Null)
      else if key == ExceptionKey then ExceptionField(r)
      else if key == SkipUntilKey then Real(until)
      else Null
    case RateLimitSkip(until) =>
      if key == ErrorKey then ErrorField(r)
      else if key == SkipUntilKey then Real(until)
      else Null
    case DataUnauthorized(_, _) =>
      if key == ErrorKey then ErrorField(r)
      else if key == CodeKey then CodeFieldOr(r, Null)
      else if key == ExceptionKey then ExceptionField(r)
      else if key == RawKey then Composite
      else Null
    case Error(_, _, _) =>
      if key == ErrorKey then ErrorField(r)
      else if key == CodeKey then CodeFieldOr(r, Null)
      else if key == ExceptionKey then ExceptionField(r)
      else if key == RawKey then Composite
      else Null
    case FetchError(_, raw) =>
      if key == ErrorKey then ErrorField(r)
      else if key == RawKey && raw.Some? then Str(raw.value)
      else Null
  }

  /** `record.get(key, default)`. */
  function GetOr(r: Record, key: string, default: Value): Value {
    if key in Keys(r) then Get(r, key) else default
  }

  /** `isinstance(record, dict)`. */
  predicate IsDict(r: Record) { !r.NoData? }

  /** Python truthiness of the record: a non-empty dict. */
  predicate IsTruthy(r: Record) {
    match r
    case NoData => false
    case Data(m) => m != map[]
    case _ => true
  }

  /** `not record.get("error")`. */
  predicate IsErrorFree(r: Record) {
    match r
    case NoData => true
    case Data(m) => !(ErrorKey in m && Truthy(m[ErrorKey]))
    case FetchError(message, _) => message == ""
    case _ => false
  }

  /** `record.get("error") == "data_unauthorized"`. */
  predicate IsUnauthorizedMark(r: Record) {
    match r
    case DataUnauthorized(_, _) => true
    case Data(m) => ErrorKey in m && m[ErrorKey] == Str(UnauthorizedMarkText)
    case FetchError(message, _) => message == UnauthorizedMarkText
    case _ => false
  }

  /** `record.get("error") in ("rate_limit", "rate_limit_skip")`. */
  predicate IsRateLimitMark(r: Record) {
    match r
    case RateLimit(_, _, _) => true
    case RateLimitSkip(_) => true
    case Data(m) => ErrorKey in m && (m[ErrorKey] == Str(RateLimitMarkText) || m[ErrorKey] == Str(RateLimitSkipMarkText))
    case FetchError(message, _) => message == RateLimitMarkText || message == RateLimitSkipMarkText
    case _ => false
  }

  /** A successful update as the coordinators count one: `r and not r.get("error")`. */
  predicate IsGoodData(r: Record) { IsTruthy(r) && IsErrorFree(r) }

  /** The field accessors and the marks read the record exactly as the dict view does. */
  lemma FieldsAgree(r: Record, default: Value)
    ensures ErrorField(r) == Get(r, ErrorKey)
    ensures ExceptionField(r) == Get(r, ExceptionKey)
    ensures IsDict(r) ==> CodeFieldOr(r, default) == GetOr(r, CodeKey, default)
    ensures IsTruthy(r) <==> Keys(r) != {}
    ensures IsErrorFree(r) <==> !Truthy(Get(r, ErrorKey))
    ensures IsUnauthorizedMark(r) <==> Get(r, ErrorKey) == Str("data_unauthorized")
    ensures IsRateLimitMark(r) <==> (Get(r, ErrorKey) == Str("rate_limit") || Get(r, ErrorKey) == Str("rate_limit_skip"))
  {
    if r.Data? && r.fields != map[] {
      var k :| k in r.fields;
      assert k in Keys(r);
    }
  }

  /** `data.get(serial)`. */
  function Lookup(data: map<string, Record>, serial: string): Record {
    if serial in data then data[serial] else NoData
  }

  /** The record a successful response yields: the cleaned result, or `{}` for an empty or missing one. */
  function SuccessRecord(r: Response): Record {
    var result := ResultOf(r);
    if result.Some? && result.value != map[] then Data(Clean(result.value)) else Data(map[])
  }

  /** The detail entries behind the rate-limit notification. */
  datatype RateLimitDetail =
    | CarriedFromPreflight(previousCode: Value, previousException: Value)
    | CooldownActive(retryIn: real)
    | ApiRateLimit(code: Option<int>, exception: Option<string>, retryIn: real)

  /** `info.get("code")`. */
  function DetailCode(d: RateLimitDetail): Value {
    match d
    case CarriedFromPreflight(code, _) => code
    case CooldownActive(_) => Null
    case ApiRateLimit(code, _, _) => OfInt(code)
  }

  /** `info.get("exception")`. */
  function DetailReason(d: RateLimitDetail): Value {
    match d
    case CarriedFromPreflight(_, exception) => exception
    case CooldownActive(_) => Null
    case ApiRateLimit(_, exception, _) => OfStr(exception)
  }

  /** The detail entries behind the invalid-serial notification: `{"code": ..., "exception": ...}`. */
  datatype UnauthorizedDetail = UnauthorizedDetail(code: Value, exception: Value)

  /** The detail a sticky unauthorized record contributes: `{"code": prev.get("code", 1003), "exception": prev.get("exception")}`. */
  function StickyDetail(prev: Record): UnauthorizedDetail {
    UnauthorizedDetail(CodeFieldOr(prev, Int(1003)), ExceptionField(prev))
  }

  lemma DictView(r: Record)
    ensures IsUnauthorizedMark(r) ==> IsDict(r) && IsTruthy(r) && !IsErrorFree(r)
    ensures IsRateLimitMark(r) ==> IsDict(r) && !IsErrorFree(r) && !IsUnauthorizedMark(r)
    ensures r.DataUnauthorized? ==> IsUnauthorizedMark(r) && StickyDetail(r) == UnauthorizedDetail(Int(1003), OfStr(r.exception))
    ensures r.RateLimit? || r.RateLimitSkip? ==> IsRateLimitMark(r)
    ensures r.Error? ==> !IsErrorFree(r) && !IsUnauthorizedMark(r) && !IsRateLimitMark(r)
    ensures r.Data? ==> (IsTruthy(r) <==> r.fields != map[])
    ensures !IsDict(r) ==> !IsTruthy(r) && IsErrorFree(r)
  {
    if r.Data? && r.fields != map[] {
      var k :| k in r.fields;
      assert k in Keys(r);
    }
  }
}
