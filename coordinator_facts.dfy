/**
  What the main polling cycle guarantees: the handling of each serial (the
  throttle test before the auth checks, the skip rule, the sticky rules, the
  restricted first refresh, pacing) and the pass as a whole (which records and
  list entries it produces, which backoff entries it touches, and how a
  throttled serial is held back in the next cycle).
 */
module CoordinatorFacts {
  import opened Values
  import opened Responses
  import opened Records
  import opened Coordinator
  import Serials

  // ---------------------------------------------------------------------------
  // What handling one serial does

  /** The serial at `idx` is fetched: it is inside any restricted refresh and past its backoff window. */
  predicate IsFetched(c: Cycle, backoff: map<string, real>, idx: nat)
    requires WellFormed(c) && idx < |c.inverters|
  {
    !Restricted(c, c.inverters[idx]) && !(c.now < SkipUntil(c, backoff, c.inverters[idx]))
  }

  /**
    A throttled response is never fatal: the rate-limit test runs before the 1001
    and 1003 checks, so even a 1001 or 1003 carrying a throttling code or text
    stamps the backoff with the cycle time and lists the serial as rate limited.
   */
  lemma {:induction false} ThrottledNeverFatal(c: Cycle, backoff: map<string, real>, idx: nat)
    requires WellFormed(c) && idx < |c.inverters| && IsFetched(c, backoff, idx)
    requires IsRateLimitedResponse(c.responses[idx])
    ensures var resp := c.responses[idx];
      var prev := Lookup(c.previous, c.inverters[idx]);
      var h := Handle(c, backoff, idx);
      && h.Handled?
      && h.change == StampedAt(c.now)
      && h.rateLimit == Some(ApiRateLimit(CodeOf(resp), ExceptionOf(resp), Cooldown(c.interval)))
      && h.record == StickyRecord(prev, RateLimit(CodeOf(resp), ExceptionOf(resp), c.now + Cooldown(c.interval)))
      && h.unauthorized == StickyListing(prev)
  {
    RateLimitedResponseCases(c.responses[idx]);
  }

  /** The cycle aborts at a serial exactly when it is fetched and answers 1001 without throttling. */
  lemma {:induction false} AuthAbortIff(c: Cycle, backoff: map<string, real>, idx: nat)
    requires WellFormed(c) && idx < |c.inverters|
    ensures Handle(c, backoff, idx).AuthAbort? <==>
      IsFetched(c, backoff, idx) && c.responses[idx].Dict?
      && !IsRateLimitedResponse(c.responses[idx]) && c.responses[idx].payload.code == Some(1001)
  {
  }

  /** A transport failure from the fetch becomes the generic error record with no code and no exception. */
  lemma {:induction false} TransportFailureIsError(c: Cycle, backoff: map<string, real>, idx: nat)
    requires WellFormed(c) && idx < |c.inverters| && IsFetched(c, backoff, idx)
    requires c.responses[idx].TransportError?
    ensures var h := Handle(c, backoff, idx);
      && h == Handled(Error(None, None, c.responses[idx]), Unchanged, None, None, Pace(idx))
      && Get(h.record, ErrorKey) == Bool(true)
      && Get(h.record, CodeKey) == Null && Get(h.record, ExceptionKey) == Null
  {
    RateLimitedResponseCases(c.responses[idx]);
  }

  /** Code 1003 marks the serial unauthorized and lists it with code 1003 and the response's exception. */
  lemma {:induction false} DataUnauthorizedResponse(c: Cycle, backoff: map<string, real>, idx: nat)
    requires WellFormed(c) && idx < |c.inverters| && IsFetched(c, backoff, idx)
    requires var resp := c.responses[idx];
      resp.Dict? && !IsRateLimitedResponse(resp) && resp.payload.code == Some(1003)
    ensures var resp := c.responses[idx];
      var h := Handle(c, backoff, idx);
      && h.Handled? && h.change == Unchanged && h.rateLimit == None
      && IsUnauthorizedMark(h.record)
      && h.unauthorized == Some(UnauthorizedDetail(Int(1003), OfStr(resp.payload.exception)))
      && h.unauthorized == Some(StickyDetail(h.record))
  {
  }

  /** Any other unsuccessful or nonzero-code dict becomes the generic error record carrying its code and exception. */
  lemma {:induction false} FailureIsError(c: Cycle, backoff: map<string, real>, idx: nat)
    requires WellFormed(c) && idx < |c.inverters| && IsFetched(c, backoff, idx)
    requires var resp := c.responses[idx];
      resp.Dict? && !IsRateLimitedResponse(resp)
      && resp.payload.code != Some(1001) && resp.payload.code != Some(1003)
      && (!resp.payload.success || (resp.payload.code.Some? && resp.payload.code.value != 0))
    ensures var resp := c.responses[idx];
      var h := Handle(c, backoff, idx);
      && h == Handled(Error(resp.payload.code, resp.payload.exception, resp), Unchanged, None, None, Pace(idx))
      && !IsErrorFree(h.record)
      && CodeFieldOr(h.record, Null) == OfInt(resp.payload.code)
  {
  }

  /**
    A successful response stores its result without the None-valued entries;
    only a non-empty result clears the serial's backoff, and the serial goes on
    neither list.
   */
  lemma {:induction false} SuccessStoresResult(c: Cycle, backoff: map<string, real>, idx: nat)
    requires WellFormed(c) && idx < |c.inverters| && IsFetched(c, backoff, idx)
    requires var resp := c.responses[idx];
      resp.Dict? && !IsRateLimitedResponse(resp) && resp.payload.success
      && (resp.payload.code == None || resp.payload.code == Some(0))
    ensures var resp := c.responses[idx];
      var result := resp.payload.result;
      var h := Handle(c, backoff, idx);
      && h.Handled? && h.rateLimit == None && h.unauthorized == None
      && h.record.Data?
      && (forall k :: k in h.record.fields <==> result.Some? && k in result.value && result.value[k] != Null)
      && (forall k :: k in h.record.fields ==> h.record.fields[k] == result.value[k])
      && (h.change == Cleared <==> result.Some? && result.value != map[])
      && (h.change != Cleared ==> h.change == Unchanged && h.record == Data(map[]))
  {
  }

  /**
    The skip rule: a serial that is not restricted is skipped, and its response
    is never looked at, exactly when the loop time is before its last rate limit
    (0 when it has none) plus 55% of the interval. A skipped serial keeps an
    unauthorized record (and stays listed as unauthorized) or error-free data,
    and otherwise gets the `rate_limit_skip` placeholder.
   */
  lemma {:induction false} SkipRule(c: Cycle, backoff: map<string, real>, idx: nat, other: Response)
    requires WellFormed(c) && idx < |c.inverters| && !Restricted(c, c.inverters[idx])
    ensures var sn := c.inverters[idx];
      var h := Handle(c, backoff, idx);
      (h.Handled? && h.rateLimit.Some? && h.rateLimit.value.CooldownActive?) <==>
        c.now < LastRateLimit(backoff, sn) + CooldownFactor * c.interval
    ensures var sn := c.inverters[idx];
      var prev := Lookup(c.previous, sn);
      var until := LastRateLimit(backoff, sn) + CooldownFactor * c.interval;
      var h := Handle(c, backoff, idx);
      c.now < until ==>
        && h == Handled(StickyRecord(prev, RateLimitSkip(until)), Unchanged,
                        Some(CooldownActive(until - c.now)), StickyListing(prev), Pace(idx))
        && Handle(c.(responses := c.responses[idx := other]), backoff, idx) == h
  {
    var sn := c.inverters[idx];
    if c.now >= Coordinator.SkipUntil(c, backoff, sn) {
      ClassifyNeverCools(c, idx, Lookup(c.previous, sn), c.responses[idx], Pace(idx));
    }
  }

  /** A fetched response is never reported as a running cool-down. */
  lemma ClassifyNeverCools(c: Cycle, idx: nat, prev: Record, resp: Response, pace: seq<real>)
    ensures var h := Coordinator.Classify(c, idx, prev, resp, pace);
      h.Handled? && h.rateLimit.Some? ==> h.rateLimit.value.ApiRateLimit?
  {
  }

  /**
    The sticky rules of a throttled or skipped serial: an unauthorized previous
    record wins and keeps the serial on the unauthorized list; error-free
    previous data is carried forward; anything else gives way to the placeholder.
   */
  lemma {:induction false} StickyPrecedence(prev: Record, placeholder: Record)
    ensures IsUnauthorizedMark(prev) ==>
      StickyRecord(prev, placeholder) == prev && StickyListing(prev) == Some(StickyDetail(prev))
    ensures !IsUnauthorizedMark(prev) ==> StickyListing(prev) == None
    ensures IsDict(prev) && IsErrorFree(prev) ==> StickyRecord(prev, placeholder) == prev
    ensures !IsDict(prev) || !IsErrorFree(prev) ==>
      StickyRecord(prev, placeholder) == (if IsUnauthorizedMark(prev) then prev else placeholder)
  {
    DictView(prev);
  }

  /**
    A serial outside the restricted first refresh is neither fetched nor paced:
    whatever its response and backoff, it carries its previous dict (or `{}`)
    forward and is re-listed by the previous record's error.
   */
  lemma {:induction false} RestrictedCarriesForward(c: Cycle, backoff: map<string, real>, other: map<string, real>, idx: nat, resp: Response)
    requires WellFormed(c) && idx < |c.inverters| && Restricted(c, c.inverters[idx])
    ensures var prev := Lookup(c.previous, c.inverters[idx]);
      var h := Handle(c, backoff, idx);
      && h.Handled? && h.sleeps == [] && h.change == Unchanged
      && h.record == (if IsDict(prev) then prev else Data(map[]))
      && (h.unauthorized.Some? <==> IsDict(prev) && IsUnauthorizedMark(prev))
      && (h.rateLimit.Some? <==> IsDict(prev) && IsRateLimitMark(prev))
      && Handle(c.(responses := c.responses[idx := resp]), other, idx) == h
  {
    DictView(Lookup(c.previous, c.inverters[idx]));
  }

  /**
    Pacing: a serial that is not restricted first waits `min(1 + idx/2, 5)`
    seconds when it is not the first, and after a throttled response waits
    another 5 seconds unless it is the last serial.
   */
  lemma {:induction false} PacingRule(c: Cycle, backoff: map<string, real>, idx: nat)
    requires WellFormed(c) && idx < |c.inverters| && !Restricted(c, c.inverters[idx])
    ensures var s := Handle(c, backoff, idx).sleeps;
      var pre := if idx > 0 then [PacingDelay(idx)] else [];
      && pre <= s
      && (s == pre + [RateLimitPause] <==>
            IsFetched(c, backoff, idx) && IsRateLimitedResponse(c.responses[idx]) && idx + 1 < |c.inverters|)
      && (s == pre || s == pre + [RateLimitPause])
  {
    RateLimitedResponseCases(c.responses[idx]);
    var sn := c.inverters[idx];
    if IsFetched(c, backoff, idx) {
      ClassifySleeps(c, idx, Lookup(c.previous, sn), c.responses[idx], Pace(idx));
    }
    assert |Pace(idx) + [RateLimitPause]| != |Pace(idx)|;
  }

  /** A fetched response adds the 5-second pause to the pacing exactly when it is throttled and a serial follows. */
  lemma ClassifySleeps(c: Cycle, idx: nat, prev: Record, resp: Response, pace: seq<real>)
    ensures Coordinator.Classify(c, idx, prev, resp, pace).sleeps ==
      if IsRateLimitedResponse(resp) && idx + 1 < |c.inverters| then pace + [RateLimitPause] else pace
  {
    RateLimitedResponseCases(resp);
  }

  // ---------------------------------------------------------------------------
  // What a pass does as a whole

  /** A pass that has not failed holds a record for exactly the serials handled so far. */
  lemma {:induction false} ResultsCover(c: Cycle, k: nat)
    requires WellFormed(c) && k <= |c.inverters|
    ensures !RunTo(c, k).authFailed ==>
      forall sn :: sn in RunTo(c, k).results <==> sn in c.inverters[..k]
  {
    if k > 0 {
      ResultsCover(c, k - 1);
      var p := RunTo(c, k - 1);
      assert RunTo(c, k) == StepAt(c, k - 1);
      if !RunTo(c, k).authFailed {
        assert !p.authFailed;
        assert c.inverters[..k] == c.inverters[..k - 1] + [c.inverters[k - 1]];
      }
    }
  }

  /**
    The rate-limited list names only serials handled so far, each at most as
    often as it has been handled, and a serial has a rate-limit detail exactly
    when it is listed.
   */
  lemma {:induction false} RateLimitedListConsistent(c: Cycle, k: nat)
    requires WellFormed(c) && k <= |c.inverters|
    ensures var p := RunTo(c, k);
      && |p.rateLimited| <= k
      && (forall sn :: sn in p.rateLimited ==> sn in c.inverters[..k])
      && (forall sn :: sn in p.rateLimitedDetails <==> sn in p.rateLimited)
  {
    if k > 0 {
      RateLimitedListConsistent(c, k - 1);
      assert c.inverters[..k] == c.inverters[..k - 1] + [c.inverters[k - 1]];
    }
  }

  /** The same for the unauthorized list and its details. */
  lemma {:induction false} UnauthorizedListConsistent(c: Cycle, k: nat)
    requires WellFormed(c) && k <= |c.inverters|
    ensures var p := RunTo(c, k);
      && |p.unauthorized| <= k
      && (forall sn :: sn in p.unauthorized ==> sn in c.inverters[..k])
      && (forall sn :: sn in p.unauthorizedDetails <==> sn in p.unauthorized)
  {
    if k > 0 {
      UnauthorizedListConsistent(c, k - 1);
      assert c.inverters[..k] == c.inverters[..k - 1] + [c.inverters[k - 1]];
    }
  }

  /** Handling serials `j..k-1` leaves the backoff entry of every other serial as it was. */
  lemma {:induction false} BackoffFrame(c: Cycle, j: nat, k: nat)
    requires WellFormed(c) && j <= k <= |c.inverters|
    ensures forall sn :: sn !in c.inverters[j..k] ==>
      (sn in RunTo(c, k).backoff <==> sn in RunTo(c, j).backoff)
      && LastRateLimit(RunTo(c, k).backoff, sn) == LastRateLimit(RunTo(c, j).backoff, sn)
    decreases k - j
  {
    if j < k {
      BackoffFrame(c, j, k - 1);
      assert c.inverters[j..k] == c.inverters[j..k - 1] + [c.inverters[k - 1]];
      forall sn | sn !in c.inverters[j..k]
        ensures sn in RunTo(c, k).backoff <==> sn in RunTo(c, j).backoff
        ensures LastRateLimit(RunTo(c, k).backoff, sn) == LastRateLimit(RunTo(c, j).backoff, sn)
      {
        assert sn !in c.inverters[j..k - 1] && sn != c.inverters[k - 1];
        StepTouchesOwnBackoff(c, k - 1, sn);
      }
    }
  }

  /** Handling one serial touches the backoff entry of that serial only. */
  lemma StepTouchesOwnBackoff(c: Cycle, idx: nat, sn: string)
    requires WellFormed(c) && idx < |c.inverters| && sn != c.inverters[idx]
    ensures sn in RunTo(c, idx + 1).backoff <==> sn in RunTo(c, idx).backoff
    ensures LastRateLimit(RunTo(c, idx + 1).backoff, sn) == LastRateLimit(RunTo(c, idx).backoff, sn)
  {
    assert RunTo(c, idx + 1) == StepAt(c, idx);
  }

  /** With distinct serials, a stamp written while handling serial `i` is still there when the pass ends. */
  lemma {:induction false} StampSurvives(c: Cycle, i: nat)
    requires WellFormed(c) && i < |c.inverters| && Serials.Distinct(c.inverters)
    requires !RunTo(c, i).authFailed
    requires HandleAt(c, i).Handled? && HandleAt(c, i).change == StampedAt(c.now)
    ensures var final := RunTo(c, |c.inverters|).backoff;
      c.inverters[i] in final && final[c.inverters[i]] == c.now
  {
    var sn := c.inverters[i];
    var n := |c.inverters|;
    StampStep(c, i);
    assert sn !in c.inverters[i + 1..n] by {
      forall j | i + 1 <= j < n
        ensures c.inverters[j] != sn
      {
        assert c.inverters[i] != c.inverters[j];
      }
    }
    BackoffFrame(c, i + 1, n);
    assert sn in RunTo(c, n).backoff;
    assert LastRateLimit(RunTo(c, n).backoff, sn) == c.now;
  }

  /** Handling a serial that stamps its backoff writes exactly that entry. */
  lemma StampStep(c: Cycle, i: nat)
    requires WellFormed(c) && i < |c.inverters| && !RunTo(c, i).authFailed
    requires HandleAt(c, i).Handled? && HandleAt(c, i).change.StampedAt?
    ensures RunTo(c, i + 1).backoff == RunTo(c, i).backoff[c.inverters[i] := HandleAt(c, i).change.at]
  {
    assert RunTo(c, i + 1) == StepAt(c, i);
  }

  /** A serial throttled in a pass that then completes leaves its backoff stamped with the cycle time. */
  lemma {:induction false} ThrottleStampsBackoff(c: Cycle, i: nat)
    requires WellFormed(c) && i < |c.inverters| && Serials.Distinct(c.inverters)
    requires !RunTo(c, i).authFailed
    requires IsFetched(c, RunTo(c, i).backoff, i) && IsRateLimitedResponse(c.responses[i])
    ensures LastRateLimit(RunTo(c, |c.inverters|).backoff, c.inverters[i]) == c.now
  {
    ThrottledNeverFatal(c, RunTo(c, i).backoff, i);
    assert HandleAt(c, i) == Handle(c, RunTo(c, i).backoff, i);
    StampSurvives(c, i);
  }

  /**
    With distinct serials and no restricted refresh, a serial whose stored
    backoff is `t` is skipped, without a fetch, in a cycle starting before
    `t` plus 55% of the interval, whatever the serials before it answer.
   */
  lemma {:induction false} CoolingSerialSkipped(c: Cycle, i: nat, t: real)
    requires WellFormed(c) && i < |c.inverters| && Serials.Distinct(c.inverters) && c.refresh.None?
    requires LastRateLimit(c.backoff, c.inverters[i]) == t && c.now < t + Cooldown(c.interval)
    ensures var prev := Lookup(c.previous, c.inverters[i]);
      var until := t + Cooldown(c.interval);
      HandleAt(c, i) == Handled(StickyRecord(prev, RateLimitSkip(until)), Unchanged,
                                Some(CooldownActive(until - c.now)), StickyListing(prev), Pace(i))
  {
    BackoffFrame(c, 0, i);
    var sn := c.inverters[i];
    forall j | 0 <= j < i
      ensures c.inverters[j] != sn
    {
    }
    assert sn !in c.inverters[0..i];
    assert LastRateLimit(RunTo(c, i).backoff, sn) == t;
    assert HandleAt(c, i) == Handle(c, RunTo(c, i).backoff, i);
  }

  /**
    The backoff round trip across two cycles: a serial throttled in one
    completed cycle is skipped, without a fetch, in the next cycle when that
    starts less than 55% of the interval after the first and polls every serial.
   */
  lemma {:induction false} ThrottleThenSkip(c1: Cycle, c2: Cycle, i: nat)
    requires WellFormed(c1) && i < |c1.inverters| && Serials.Distinct(c1.inverters)
    requires !RunTo(c1, i).authFailed
    requires IsFetched(c1, RunTo(c1, i).backoff, i) && IsRateLimitedResponse(c1.responses[i])
    requires WellFormed(c2) && c2.inverters == c1.inverters && c2.interval == c1.interval
    requires c2.backoff == RunTo(c1, |c1.inverters|).backoff && c2.refresh.None?
    requires c2.now < c1.now + Cooldown(c1.interval)
    ensures var prev := Lookup(c2.previous, c2.inverters[i]);
      var until := c1.now + Cooldown(c1.interval);
      HandleAt(c2, i) == Handled(StickyRecord(prev, RateLimitSkip(until)), Unchanged,
                                 Some(CooldownActive(until - c2.now)), StickyListing(prev), Pace(i))
  {
    ThrottleStampsBackoff(c1, i);
    CoolingSerialSkipped(c2, i, c1.now);
  }
}
