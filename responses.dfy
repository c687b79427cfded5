/**
  What one realtime-info request for one serial yields, and the pure tests the
  coordinators and the setup preflight apply to it.
 */
module Responses {
  import opened Values
  import Text

  /** A parsed JSON object from the cloud API: the four members the integration reads. */
  datatype Payload = Payload(
    code: Option<int>,
    success: bool,
    exception: Option<string>,
    result: Option<map<string, Value>>)

  /**
    The three shapes a fetch can return: the API's own object, the transport
    failure object `{"error": message}` (with `"raw"` for HTTP and JSON errors),
    or a JSON value that is not an object.
   */
  datatype Response =
    | Dict(payload: Payload)
    | TransportError(message: string, rawText: Option<string>)
    | NotADict

  /** `resp.get("code")` on a dict response. */
  function CodeOf(r: Response): Option<int> {
    if r.Dict? then r.payload.code else None
  }

  /** `resp.get("success", False)`. */
  function SuccessOf(r: Response): bool {
    r.Dict? && r.payload.success
  }

  /** `resp.get("exception")`. */
  function ExceptionOf(r: Response): Option<string> {
    if r.Dict? then r.payload.exception else None
  }

  /** `resp.get("result", {})`, None standing for a missing or null result. */
  function ResultOf(r: Response): Option<map<string, Value>> {
    if r.Dict? then r.payload.result else None
  }

  /** `str(resp.get("exception", "")).lower()`. */
  function ExceptionText(e: Option<string>): string {
    match e
    case None => ""
    case Some(s) => Text.Lower(s)
  }

  const RateLimitMarkers: seq<string> := [
    "rate limit",
    "maximum call threshold",
    "suspend the request",
    "current minute > threshold",
    "within the current minute",
    "too many requests"
  ]

  /** Some needle occurs in `text` (Python's `any(n in text for n in needles)`). */
  predicate ContainsAny(text: string, needles: seq<string>)
    decreases |needles|
  {
    |needles| > 0 && (Text.Contains(text, needles[0]) || ContainsAny(text, needles[1..]))
  }

  predicate HasRateLimitMarker(text: string) {
    ContainsAny(text, RateLimitMarkers)
  }

  lemma {:induction false} ContainsAnyIff(text: string, needles: seq<string>)
    ensures ContainsAny(text, needles) <==> exists i :: 0 <= i < |needles| && Text.Contains(text, needles[i])
    decreases |needles|
  {
    if |needles| > 0 {
      ContainsAnyIff(text, needles[1..]);
      if !Text.Contains(text, needles[0]) && ContainsAny(text, needles[1..]) {
        var i :| 0 <= i < |needles[1..]| && Text.Contains(text, needles[1..][i]);
        assert Text.Contains(text, needles[i + 1]);
      }
      if exists i :: 0 <= i < |needles| && Text.Contains(text, needles[i]) {
        var i :| 0 <= i < |needles| && Text.Contains(text, needles[i]);
        if i > 0 {
          assert needles[1..][i - 1] == needles[i];
        }
      }
    }
  }

  /** The throttling test of the top-level config flow, on an object already known to be a dict. */
  predicate IsRateLimitedPayload(p: Payload) {
    p.code == Some(3) || p.code == Some(104) || HasRateLimitMarker(ExceptionText(p.exception))
  }

  /** The throttling test of the main coordinator, on any fetch result. */
  predicate IsRateLimitedResponse(r: Response) {
    if r.NotADict? then false
    else
      var code := CodeOf(r);
      code == Some(3) || code == Some(104) || HasRateLimitMarker(ExceptionText(ExceptionOf(r)))
  }

  lemma RateLimitedResponseCases(r: Response)
    ensures r.NotADict? ==> !IsRateLimitedResponse(r)
    ensures r.TransportError? ==> !IsRateLimitedResponse(r)
    ensures r.Dict? && (r.payload.code == Some(3) || r.payload.code == Some(104)) ==> IsRateLimitedResponse(r)
    ensures r.Dict? && r.payload.code != Some(3) && r.payload.code != Some(104) ==>
      (IsRateLimitedResponse(r) <==> exists i :: 0 <= i < 6 && Text.Contains(ExceptionText(r.payload.exception), RateLimitMarkers[i]))
    ensures r.Dict? ==> (IsRateLimitedResponse(r) <==> IsRateLimitedPayload(r.payload))
  {
    ContainsAnyIff(ExceptionText(ExceptionOf(r)), RateLimitMarkers);
    if r.TransportError? {
      assert ExceptionText(ExceptionOf(r)) == "";
      forall i | 0 <= i < |RateLimitMarkers|
        ensures !Text.Contains("", RateLimitMarkers[i])
      {
        assert |RateLimitMarkers[i]| > 0;
      }
    }
  }

  /** Code 1001 or 1002, or an exception text naming an invalid token (setup preflight). */
  predicate IsTokenInvalid(p: Payload) {
    var text := ExceptionText(p.exception);
    p.code == Some(1001) || p.code == Some(1002) || (Text.Contains(text, "token") && Text.Contains(text, "invalid"))
  }

  /** The failure test shared by all three classifiers: `not success or (code is not None and code != 0)`. */
  predicate IsFailure(r: Response) {
    var code := CodeOf(r);
    !SuccessOf(r) || (code.Some? && code.value != 0)
  }

  /** The result object with its None-valued entries removed. */
  function Clean(m: map<string, Value>): map<string, Value> {
    map k | k in m && m[k] != Null :: m[k]
  }

  lemma CleanProperties(m: map<string, Value>)
    ensures forall k :: k in Clean(m) ==> Clean(m)[k] != Null
    ensures forall k :: k in Clean(m) <==> k in m && m[k] != Null
    ensures forall k :: k in Clean(m) ==> Clean(m)[k] == m[k]
    ensures Clean(Clean(m)) == Clean(m)
  {
  }
}
