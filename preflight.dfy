/**
  The setup preflight of the top-level config flow (`_classify_preflight_inverters`):
  one request per serial, classified into the records, rate-limit list and
  invalid-serial list that the first coordinator refresh reuses. A token refusal
  stops the pass at once; a reply that is not a JSON object makes the whole
  preflight give up (the exception is caught and None returned).
 */
module Preflight {
  import opened Values
  import opened Responses
  import opened Records
  import Coordinator
  import Serials

  /** What one serial's reply contributes to the pass. */
  datatype Verdict =
    | StopTokenInvalid
    | StopFailed
    | Throttled(record: Record, rateDetail: RateLimitDetail)
    | Unauthorized(record: Record, authDetail: UnauthorizedDetail)
    | Recorded(record: Record)

  /** A reply that refuses the token: code 1001 or 1002, or an exception naming an invalid token. */
  predicate TokenRefused(r: Response) {
    r.Dict? && IsTokenInvalid(r.payload)
  }

  /** A reply after which the preflight does not look at further serials. */
  predicate Stops(r: Response) {
    r.NotADict? || TokenRefused(r)
  }

  /** The body of the per-serial loop, in the order the checks are made. */
  function Classify(r: Response, now: real, scan: nat): Verdict {
    var cooldown := Coordinator.Cooldown(scan as real);
    match r
    case TransportError(message, rawText) => Recorded(FetchError(message, rawText))
    case NotADict => StopFailed
    case Dict(p) =>
      if IsTokenInvalid(p) then StopTokenInvalid
      else if IsRateLimitedPayload(p) then
        Throttled(RateLimit(p.code, p.exception, now + cooldown), ApiRateLimit(p.code, p.exception, cooldown))
      else if p.code == Some(1003) then
        Unauthorized(DataUnauthorized(p.exception, r), UnauthorizedDetail(Int(1003), OfStr(p.exception)))
      else if IsFailure(r) then Recorded(Error(p.code, p.exception, r))
      else Recorded(SuccessRecord(r))
  }

  lemma ClassifyCases(r: Response, now: real, scan: nat)
    ensures var v := Classify(r, now, scan);
      && (v.StopFailed? <==> r.NotADict?)
      && (v.StopTokenInvalid? <==> TokenRefused(r))
      && (v.Throttled? <==> r.Dict? && !TokenRefused(r) && IsRateLimitedPayload(r.payload))
      && (v.Unauthorized? <==> r.Dict? && !TokenRefused(r) && !IsRateLimitedPayload(r.payload) && r.payload.code == Some(1003))
      && (v.Throttled? ==> v.record == RateLimit(r.payload.code, r.payload.exception, now + 0.55 * scan as real))
      && (r.TransportError? ==> v == Recorded(FetchError(r.message, r.rawText)))
      && (r.Dict? && !Stops(r) && !v.Throttled? && !v.Unauthorized? ==>
            v == Recorded(if IsFailure(r) then Error(r.payload.code, r.payload.exception, r) else SuccessRecord(r)))
  {
  }

  /** The records and the two notice lists with their details, as the loop builds them. */
  datatype Tally = Tally(
    data: map<string, Record>,
    rateLimited: seq<string>,
    rateLimitedDetails: map<string, RateLimitDetail>,
    unauthorized: seq<string>,
    unauthorizedDetails: map<string, UnauthorizedDetail>)

  /** `{"token_invalid": True}`, None, or the classified pass. */
  datatype Outcome = TokenInvalid | Failed | Classified(tally: Tally)

  const Empty := Tally(map[], [], map[], [], map[])

  function Apply(t: Tally, serial: string, v: Verdict): Outcome {
    match v
    case StopTokenInvalid => TokenInvalid
    case StopFailed => Failed
    case Throttled(record, detail) =>
      Classified(t.(data := t.data[serial := record],
                    rateLimited := t.rateLimited + [serial],
                    rateLimitedDetails := t.rateLimitedDetails[serial := detail]))
    case Unauthorized(record, detail) =>
      Classified(t.(data := t.data[serial := record],
                    unauthorized := t.unauthorized + [serial],
                    unauthorizedDetails := t.unauthorizedDetails[serial := detail]))
    case Recorded(record) => Classified(t.(data := t.data[serial := record]))
  }

  /** The verdict for every reply, the checks applied to each on its own. */
  function Verdicts(responses: seq<Response>, now: real, scan: nat): (vs: seq<Verdict>)
    ensures |vs| == |responses|
    ensures forall i :: 0 <= i < |responses| ==> vs[i] == Classify(responses[i], now, scan)
  {
    seq(|responses|, i requires 0 <= i < |responses| => Classify(responses[i], now, scan))
  }

  /** The loop over the first `k` serials, given each serial's verdict. */
  function Pass(inverters: seq<string>, verdicts: seq<Verdict>, k: nat): Outcome
    requires |verdicts| == |inverters| && k <= |inverters|
  {
    if k == 0 then Classified(Empty)
    else
      var prev := Pass(inverters, verdicts, k - 1);
      if !prev.Classified? then prev else Apply(prev.tally, inverters[k - 1], verdicts[k - 1])
  }

  /** The whole preflight. */
  function Run(inverters: seq<string>, responses: seq<Response>, now: real, scan: nat): Outcome
    requires |responses| == |inverters|
  {
    Pass(inverters, Verdicts(responses, now, scan), |inverters|)
  }

  /** The loop of `_classify_preflight_inverters`, returning as soon as a reply stops it. */
  method ClassifyPreflight(inverters: seq<string>, responses: seq<Response>, now: real, scan: nat)
    returns (outcome: Outcome)
    requires |responses| == |inverters|
    ensures outcome == Run(inverters, responses, now, scan)
  {
    ghost var vs := Verdicts(responses, now, scan);
    var tally := Empty;
    var idx := 0;
    while idx < |inverters|
      invariant idx <= |inverters|
      invariant Pass(inverters, vs, idx) == Classified(tally)
    {
      var next := ClassifyOne(tally, inverters[idx], responses[idx], now, scan);
      assert vs[idx] == Classify(responses[idx], now, scan);
      PassAdvance(inverters, vs, idx, tally);
      if !next.Classified? {
        return next;
      }
      tally := next.tally;
      idx := idx + 1;
    }
    outcome := Classified(tally);
  }

  /**
    One more serial of a pass that has not stopped applies that serial's verdict, and
    a verdict that stops the pass is its outcome.
   */
  lemma PassAdvance(inverters: seq<string>, verdicts: seq<Verdict>, k: nat, t: Tally)
    requires |verdicts| == |inverters| && k < |inverters|
    requires Pass(inverters, verdicts, k) == Classified(t)
    ensures var next := Apply(t, inverters[k], verdicts[k]);
      && Pass(inverters, verdicts, k + 1) == next
      && (!next.Classified? ==> Pass(inverters, verdicts, |inverters|) == next)
  {
    if !Apply(t, inverters[k], verdicts[k]).Classified? {
      PassStays(inverters, verdicts, k + 1, |inverters|);
    }
  }

  /** One serial of the loop: the checks in order, each one that matches deciding the record. */
  method ClassifyOne(tally: Tally, serial: string, resp: Response, now: real, scan: nat) returns (next: Outcome)
    ensures next == Apply(tally, serial, Classify(resp, now, scan))
  {
    var cooldown := Coordinator.Cooldown(scan as real);
    if resp.TransportError? {
      return Classified(tally.(data := tally.data[serial := FetchError(resp.message, resp.rawText)]));
    }
    if resp.NotADict? {
      return Failed;
    }
    var data := resp.payload;
    if IsTokenInvalid(data) {
      return TokenInvalid;
    }
    var t := tally;
    if IsRateLimitedPayload(data) {
      assert Classify(resp, now, scan) == Throttled(RateLimit(data.code, data.exception, now + cooldown), ApiRateLimit(data.code, data.exception, cooldown));
      t := t.(rateLimited := t.rateLimited + [serial],
              rateLimitedDetails := t.rateLimitedDetails[serial := ApiRateLimit(data.code, data.exception, cooldown)],
              data := t.data[serial := RateLimit(data.code, data.exception, now + cooldown)]);
    } else if data.code == Some(1003) {
      assert Classify(resp, now, scan) == Unauthorized(DataUnauthorized(data.exception, resp), UnauthorizedDetail(Int(1003), OfStr(data.exception)));
      t := t.(unauthorized := t.unauthorized + [serial],
              unauthorizedDetails := t.unauthorizedDetails[serial := UnauthorizedDetail(Int(1003), OfStr(data.exception))],
              data := t.data[serial := DataUnauthorized(data.exception, resp)]);
    } else if IsFailure(resp) {
      t := t.(data := t.data[serial := Error(data.code, data.exception, resp)]);
    } else {
      t := t.(data := t.data[serial := SuccessRecord(resp)]);
    }
    next := Classified(t);
  }

  /** Once the pass has stopped, later serials change nothing. */
  lemma {:induction false} PassStays(inverters: seq<string>, verdicts: seq<Verdict>, k: nat, n: nat)
    requires |verdicts| == |inverters| && k <= n <= |inverters|
    requires !Pass(inverters, verdicts, k).Classified?
    ensures Pass(inverters, verdicts, n) == Pass(inverters, verdicts, k)
    decreases n - k
  {
    if k < n {
      PassStays(inverters, verdicts, k, n - 1);
    }
  }

  predicate IsStop(v: Verdict) { v.StopTokenInvalid? || v.StopFailed? }

  lemma {:induction false} PassStopIff(inverters: seq<string>, verdicts: seq<Verdict>, k: nat)
    requires |verdicts| == |inverters| && k <= |inverters|
    ensures Pass(inverters, verdicts, k).TokenInvalid? <==>
      exists i :: 0 <= i < k && verdicts[i].StopTokenInvalid? && forall j :: 0 <= j < i ==> !IsStop(verdicts[j])
    ensures Pass(inverters, verdicts, k).Failed? <==>
      exists i :: 0 <= i < k && verdicts[i].StopFailed? && forall j :: 0 <= j < i ==> !IsStop(verdicts[j])
    ensures Pass(inverters, verdicts, k).Classified? <==> forall j :: 0 <= j < k ==> !IsStop(verdicts[j])
  {
    if k > 0 {
      PassStopIff(inverters, verdicts, k - 1);
      if !Pass(inverters, verdicts, k - 1).Classified? {
        var i :| 0 <= i < k - 1 && IsStop(verdicts[i]);
        assert IsStop(verdicts[i]);
      }
    }
  }

  /**
    The preflight ends in `{"token_invalid": True}` exactly when some reply refuses
    the token and no earlier reply stopped it; it gives up (None) exactly when the
    first reply that stops it is not a JSON object.
   */
  lemma TokenInvalidIff(inverters: seq<string>, responses: seq<Response>, now: real, scan: nat)
    requires |responses| == |inverters|
    ensures Run(inverters, responses, now, scan).TokenInvalid? <==>
      exists i :: 0 <= i < |responses| && TokenRefused(responses[i]) && forall j :: 0 <= j < i ==> !Stops(responses[j])
    ensures Run(inverters, responses, now, scan).Failed? <==>
      exists i :: 0 <= i < |responses| && responses[i].NotADict? && forall j :: 0 <= j < i ==> !Stops(responses[j])
    ensures Run(inverters, responses, now, scan).Classified? <==> forall j :: 0 <= j < |responses| ==> !Stops(responses[j])
  {
    var vs := Verdicts(responses, now, scan);
    PassStopIff(inverters, vs, |inverters|);
    forall i | 0 <= i < |responses|
      ensures (vs[i].StopTokenInvalid? <==> TokenRefused(responses[i]))
      ensures (vs[i].StopFailed? <==> responses[i].NotADict?)
      ensures (IsStop(vs[i]) <==> Stops(responses[i]))
    {
      ClassifyCases(responses[i], now, scan);
    }
  }

  /** The list entries and details of a tally describe each other, and every serial handled has a record. */
  predicate Consistent(t: Tally, handled: seq<string>) {
    && t.data.Keys == (set s | s in handled)
    && (forall s :: s in t.rateLimited ==> s in handled)
    && (forall s :: s in t.unauthorized ==> s in handled)
    && t.rateLimitedDetails.Keys == (set s | s in t.rateLimited)
    && t.unauthorizedDetails.Keys == (set s | s in t.unauthorized)
  }

  lemma {:induction false} PassConsistent(inverters: seq<string>, verdicts: seq<Verdict>, k: nat)
    requires |verdicts| == |inverters| && k <= |inverters|
    ensures var o := Pass(inverters, verdicts, k);
      o.Classified? ==> Consistent(o.tally, inverters[..k])
  {
    if k > 0 {
      PassConsistent(inverters, verdicts, k - 1);
      var prev := Pass(inverters, verdicts, k - 1);
      if prev.Classified? {
        ApplyConsistent(prev.tally, inverters[..k - 1], inverters[k - 1], verdicts[k - 1]);
        assert inverters[..k] == inverters[..k - 1] + [inverters[k - 1]];
      }
    }
  }

  /** Handling one more serial keeps a tally consistent. */
  lemma ApplyConsistent(t: Tally, handled: seq<string>, serial: string, v: Verdict)
    requires Consistent(t, handled)
    ensures var o := Apply(t, serial, v);
      o.Classified? ==> Consistent(o.tally, handled + [serial])
  {
  }

  /** The record a verdict stores, when it stores one. */
  function RecordOf(v: Verdict): Option<Record> {
    match v
    case Throttled(record, _) => Some(record)
    case Unauthorized(record, _) => Some(record)
    case Recorded(record) => Some(record)
    case _ => None
  }

  lemma {:induction false} PassRecords(inverters: seq<string>, verdicts: seq<Verdict>, k: nat)
    requires |verdicts| == |inverters| && k <= |inverters| && Serials.Distinct(inverters)
    ensures var o := Pass(inverters, verdicts, k);
      o.Classified? ==> forall i :: 0 <= i < k ==>
        && inverters[i] in o.tally.data
        && Some(o.tally.data[inverters[i]]) == RecordOf(verdicts[i])
        && (inverters[i] in o.tally.rateLimited <==> verdicts[i].Throttled?)
        && (inverters[i] in o.tally.unauthorized <==> verdicts[i].Unauthorized?)
  {
    if k > 0 {
      PassRecords(inverters, verdicts, k - 1);
      var prev := Pass(inverters, verdicts, k - 1);
      if prev.Classified? {
        PassConsistent(inverters, verdicts, k - 1);
        var o := Pass(inverters, verdicts, k);
        var last := inverters[k - 1];
        assert last !in prev.tally.rateLimited && last !in prev.tally.unauthorized;
        if o.Classified? {
          forall i | 0 <= i < k - 1
            ensures inverters[i] in o.tally.data && o.tally.data[inverters[i]] == prev.tally.data[inverters[i]]
            ensures inverters[i] in o.tally.rateLimited <==> inverters[i] in prev.tally.rateLimited
            ensures inverters[i] in o.tally.unauthorized <==> inverters[i] in prev.tally.unauthorized
          {
            assert inverters[i] != last;
          }
        }
      }
    }
  }

  /**
    With distinct serials, a completed preflight holds for each serial the record its
    own reply yields, lists it as rate limited exactly when that reply was throttled
    and as invalid exactly when it answered 1003, and never lists it on both.
   */
  lemma RunRecords(inverters: seq<string>, responses: seq<Response>, now: real, scan: nat)
    requires |responses| == |inverters| && Serials.Distinct(inverters)
    ensures var o := Run(inverters, responses, now, scan);
      o.Classified? ==>
        && Consistent(o.tally, inverters)
        && forall i :: 0 <= i < |inverters| ==>
          && inverters[i] in o.tally.data
          && Some(o.tally.data[inverters[i]]) == RecordOf(Classify(responses[i], now, scan))
          && (inverters[i] in o.tally.rateLimited <==> Classify(responses[i], now, scan).Throttled?)
          && (inverters[i] in o.tally.unauthorized <==> Classify(responses[i], now, scan).Unauthorized?)
          && !(inverters[i] in o.tally.rateLimited && inverters[i] in o.tally.unauthorized)
  {
    var vs := Verdicts(responses, now, scan);
    PassConsistent(inverters, vs, |inverters|);
    PassRecords(inverters, vs, |inverters|);
    assert inverters[..|inverters|] == inverters;
  }
}
