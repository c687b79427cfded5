/**
  The polling cycle of the legacy multi-inverter integration (solax_multi). It
  walks the serials like the main cycle, paces every serial after the first,
  and keeps the same per-serial backoff, but classifies differently: only code
  104 is a rate limit, 1003 aborts the whole cycle, a serial in its backoff
  window always gets the skip placeholder, and nothing is carried forward.
 */
module MultiCoordinator {
  import opened Values
  import opened Responses
  import opened Records
  import Coordinator
  import Serials

  /** Everything one legacy cycle reads. */
  datatype Cycle = Cycle(
    inverters: seq<string>,
    responses: seq<Response>,
    backoff: map<string, real>,
    now: real,
    interval: real)

  predicate WellFormed(c: Cycle) {
    |c.responses| == |c.inverters|
  }

  /** The working state of a pass: the results so far, the backoff attributes, the pauses, and whether 1003 aborted it. */
  datatype Pass = Pass(
    results: map<string, Record>,
    backoff: map<string, real>,
    sleeps: seq<real>,
    aborted: bool)

  function Start(c: Cycle): Pass {
    Pass(map[], c.backoff, [], false)
  }

  /** What handling one serial contributes, or the 1003 abort after the pause before the fetch. */
  datatype Handled =
    | Handled(record: Record, change: Coordinator.BackoffChange, sleeps: seq<real>)
    | Unauthorized(sleeps: seq<real>)

  /** Classifies a fetched response: 104 throttles, 1003 aborts, any other failure is an error. */
  function Classify(c: Cycle, idx: nat, resp: Response, pace: seq<real>): Handled {
    if resp.NotADict? then Handled(NoData, Coordinator.Unchanged, pace)
    else if CodeOf(resp) == Some(104) then
      Handled(RateLimit(CodeOf(resp), ExceptionOf(resp), c.now + Coordinator.Cooldown(c.interval)),
              Coordinator.StampedAt(c.now),
              pace + if idx + 1 < |c.inverters| then [Coordinator.RateLimitPause] else [])
    else if CodeOf(resp) == Some(1003) then Unauthorized(pace)
    else if IsFailure(resp) then Handled(Error(CodeOf(resp), ExceptionOf(resp), resp), Coordinator.Unchanged, pace)
    else if ResultOf(resp).Some? && ResultOf(resp).value != map[] then
      Handled(SuccessRecord(resp), Coordinator.Cleared, pace)
    else Handled(SuccessRecord(resp), Coordinator.Unchanged, pace)
  }

  /** The end of the backoff window of `sn`. */
  function SkipUntil(c: Cycle, backoff: map<string, real>, sn: string): real {
    Coordinator.LastRateLimit(backoff, sn) + Coordinator.Cooldown(c.interval)
  }

  /** How the serial at `idx` is handled, given the backoff left by the serials before it. */
  function Handle(c: Cycle, backoff: map<string, real>, idx: nat): Handled
    requires WellFormed(c) && idx < |c.inverters|
  {
    var skipUntil := SkipUntil(c, backoff, c.inverters[idx]);
    if c.now < skipUntil then Handled(RateLimitSkip(skipUntil), Coordinator.Unchanged, Coordinator.Pace(idx))
    else Classify(c, idx, c.responses[idx], Coordinator.Pace(idx))
  }

  /** Folds the handling of `sn` into the pass. */
  function Apply(p: Pass, sn: string, h: Handled): Pass {
    match h
    case Unauthorized(pause) => p.(sleeps := p.sleeps + pause, aborted := true)
    case Handled(record, change, pause) =>
      Pass(p.results[sn := record], Coordinator.ChangeBackoff(p.backoff, sn, change), p.sleeps + pause, p.aborted)
  }

  /** The pass after the first `k` serials; a 1003 stops it. */
  function RunTo(c: Cycle, k: nat): Pass
    requires WellFormed(c) && k <= |c.inverters|
    decreases k, 0
  {
    if k == 0 then Start(c) else StepAt(c, k - 1)
  }

  /** The pass after the serial at `idx`: unchanged once aborted, otherwise that serial applied. */
  function StepAt(c: Cycle, idx: nat): Pass
    requires WellFormed(c) && idx < |c.inverters|
    decreases idx, 1
  {
    var p := RunTo(c, idx);
    if p.aborted then p else Apply(p, c.inverters[idx], Handle(c, p.backoff, idx))
  }

  /** A record the summary counts as updated: `r and not r.get("error")`. */
  function SuccessfulCount(results: map<string, Record>): nat {
    |set sn | sn in results && IsGoodData(results[sn])|
  }

  /** A record the summary counts as rate limited: `r and r.get("error") == "rate_limit"`. */
  predicate IsCountedRateLimit(r: Record) {
    IsTruthy(r) && ErrorField(r) == Str(RateLimitMarkText)
  }

  function RateLimitedCount(results: map<string, Record>): nat {
    |set sn | sn in results && IsCountedRateLimit(results[sn])|
  }

  datatype Outcome = Published(data: map<string, Record>, successful: nat, rateLimited: nat) | AuthFailed

  class SolaxCoordinator {
    const inverters: seq<string>
    /** The scan interval in seconds. */
    const interval: real
    var data: map<string, Record>
    /** `_last_rate_limit_{sn}` for every serial that has one. */
    var backoff: map<string, real>

    constructor (inverters: seq<string>, scanInterval: nat)
      ensures this.inverters == inverters && interval == scanInterval as real
      ensures data == map[] && backoff == map[]
    {
      this.inverters := inverters;
      interval := scanInterval as real;
      data := map[];
      backoff := map[];
    }

    function CycleFor(responses: seq<Response>, now: real): Cycle
      reads this
    {
      Cycle(inverters, responses, backoff, now, interval)
    }

    /**
      One cycle with one fetch result per serial and the loop clock `now`: the
      backoff attributes written during the pass stay even when 1003 aborts it,
      and `data` is replaced only when the pass completes.
     */
    method UpdateData(responses: seq<Response>, now: real) returns (outcome: Outcome, sleeps: seq<real>)
      requires |responses| == |inverters|
      modifies this
      ensures var p := RunTo(old(CycleFor(responses, now)), |inverters|);
        && sleeps == p.sleeps
        && backoff == p.backoff
        && (p.aborted ==> outcome == AuthFailed && data == old(data))
        && (!p.aborted ==>
              data == p.results
              && outcome == Published(p.results, SuccessfulCount(p.results), RateLimitedCount(p.results)))
    {
      var p := RunCycle(CycleFor(responses, now));
      sleeps := p.sleeps;
      if p.aborted {
        backoff := p.backoff;
        outcome := AuthFailed;
      } else {
        backoff, data := p.backoff, p.results;
        outcome := Published(p.results, SuccessfulCount(p.results), RateLimitedCount(p.results));
      }
    }
  }

  /** The loop over the serials, stopping at a 1003. */
  method RunCycle(c: Cycle) returns (p: Pass)
    requires WellFormed(c)
    ensures p == RunTo(c, |c.inverters|)
  {
    p := Start(c);
    var idx := 0;
    while idx < |c.inverters| && !p.aborted
      invariant 0 <= idx <= |c.inverters|
      invariant p == RunTo(c, idx)
    {
      p := StepSerial(c, p, idx);
      assert p == StepAt(c, idx) == RunTo(c, idx + 1);
      idx := idx + 1;
    }
    if p.aborted {
      AbortPersists(c, idx, |c.inverters|);
    }
  }

  /** The body of the loop: pace, test the backoff window, fetch and classify. */
  method StepSerial(c: Cycle, p: Pass, idx: nat) returns (q: Pass)
    requires WellFormed(c) && idx < |c.inverters|
    ensures q == Apply(p, c.inverters[idx], Handle(c, p.backoff, idx))
  {
    var sn := c.inverters[idx];
    var pace := if idx > 0 then [Coordinator.PacingDelay(idx)] else [];
    var skipUntil := Coordinator.LastRateLimit(p.backoff, sn) + Coordinator.Cooldown(c.interval);
    if c.now < skipUntil {
      q := p.(results := p.results[sn := RateLimitSkip(skipUntil)], sleeps := p.sleeps + pace);
    } else {
      q := FetchSerial(c, p, idx, c.responses[idx], pace);
    }
  }

  /** A fetched serial, after the pause `pace`. */
  method FetchSerial(c: Cycle, p: Pass, idx: nat, resp: Response, pace: seq<real>) returns (q: Pass)
    requires idx < |c.inverters|
    ensures q == Apply(p, c.inverters[idx], Classify(c, idx, resp, pace))
  {
    var sn := c.inverters[idx];
    q := p.(sleeps := p.sleeps + pace);
    if resp.NotADict? {
      q := q.(results := q.results[sn := NoData]);
    } else if CodeOf(resp) == Some(104) {
      var record := RateLimit(CodeOf(resp), ExceptionOf(resp), c.now + Coordinator.Cooldown(c.interval));
      q := q.(results := q.results[sn := record], backoff := q.backoff[sn := c.now]);
      if idx < |c.inverters| - 1 {
        q := q.(sleeps := q.sleeps + [Coordinator.RateLimitPause]);
      }
    } else if CodeOf(resp) == Some(1003) {
      q := q.(aborted := true);
    } else if IsFailure(resp) {
      q := q.(results := q.results[sn := Error(CodeOf(resp), ExceptionOf(resp), resp)]);
    } else {
      var result := ResultOf(resp);
      if result.Some? && result.value != map[] {
        q := q.(results := q.results[sn := Data(Clean(result.value))], backoff := q.backoff - {sn});
      } else {
        q := q.(results := q.results[sn := Data(map[])]);
      }
    }
  }

  /** Once a 1003 has aborted the pass, nothing after it runs. */
  lemma {:induction false} AbortPersists(c: Cycle, k: nat, n: nat)
    requires WellFormed(c) && k <= n <= |c.inverters|
    requires RunTo(c, k).aborted
    ensures RunTo(c, n) == RunTo(c, k)
    decreases n - k
  {
    if k < n {
      assert RunTo(c, k + 1) == RunTo(c, k);
      AbortPersists(c, k + 1, n);
    }
  }

  // ---------------------------------------------------------------------------
  // What the legacy cycle guarantees

  /** The serial at `idx` is past its backoff window and is fetched. */
  predicate IsFetched(c: Cycle, backoff: map<string, real>, idx: nat)
    requires WellFormed(c) && idx < |c.inverters|
  {
    !(c.now < SkipUntil(c, backoff, c.inverters[idx]))
  }

  /**
    Only code 104 throttles: a fetched serial stamps its backoff and gets a
    `rate_limit` record exactly when its response carries code 104, so code 3
    and the throttling texts the main integration recognises are not rate limits here.
   */
  lemma {:induction false} OnlyCode104Throttles(c: Cycle, backoff: map<string, real>, idx: nat)
    requires WellFormed(c) && idx < |c.inverters| && IsFetched(c, backoff, idx)
    ensures var h := Handle(c, backoff, idx);
      && (h.Handled? && h.change == Coordinator.StampedAt(c.now) <==> CodeOf(c.responses[idx]) == Some(104))
      && (h.Handled? && h.record.RateLimit? <==> CodeOf(c.responses[idx]) == Some(104))
      && (IsRateLimitedResponse(c.responses[idx]) && CodeOf(c.responses[idx]) != Some(104) ==>
            !(h.Handled? && h.change.StampedAt?))
    ensures CodeOf(c.responses[idx]) == Some(104) ==>
      var resp := c.responses[idx];
      Handle(c, backoff, idx) ==
        Handled(RateLimit(Some(104), ExceptionOf(resp), c.now + 0.55 * c.interval), Coordinator.StampedAt(c.now),
                Coordinator.Pace(idx) + if idx + 1 < |c.inverters| then [5.0] else [])
  {
  }

  /** A fetched serial aborts the cycle exactly when its response is a dict with code 1003. */
  lemma {:induction false} UnauthorizedAbortsIff(c: Cycle, backoff: map<string, real>, idx: nat)
    requires WellFormed(c) && idx < |c.inverters|
    ensures Handle(c, backoff, idx).Unauthorized? <==>
      IsFetched(c, backoff, idx) && !c.responses[idx].NotADict? && CodeOf(c.responses[idx]) == Some(1003)
  {
  }

  /**
    A serial inside its backoff window always gets the skip placeholder, with
    no carry-forward of its last record, whatever it would have answered; and
    only such a serial gets one.
   */
  lemma {:induction false} SkipAlwaysPlaceholder(c: Cycle, backoff: map<string, real>, idx: nat, other: Response)
    requires WellFormed(c) && idx < |c.inverters|
    ensures var h := Handle(c, backoff, idx);
      (h.Handled? && h.record.RateLimitSkip?) <==> !IsFetched(c, backoff, idx)
    ensures !IsFetched(c, backoff, idx) ==>
      var until := Coordinator.LastRateLimit(backoff, c.inverters[idx]) + 0.55 * c.interval;
      && Handle(c, backoff, idx) == Handled(RateLimitSkip(until), Coordinator.Unchanged, Coordinator.Pace(idx))
      && Handle(c.(responses := c.responses[idx := other]), backoff, idx) == Handle(c, backoff, idx)
  {
  }

  /**
    Code 1001, a transport failure, and any other unsuccessful or nonzero
    response that is neither 104 nor 1003 is recorded as a generic error.
   */
  lemma {:induction false} FailureIsError(c: Cycle, backoff: map<string, real>, idx: nat)
    requires WellFormed(c) && idx < |c.inverters| && IsFetched(c, backoff, idx)
    requires var resp := c.responses[idx];
      !resp.NotADict? && CodeOf(resp) != Some(104) && CodeOf(resp) != Some(1003) && IsFailure(resp)
    ensures var resp := c.responses[idx];
      Handle(c, backoff, idx) ==
        Handled(Error(CodeOf(resp), ExceptionOf(resp), resp), Coordinator.Unchanged, Coordinator.Pace(idx))
    ensures c.responses[idx].TransportError? ==> Handle(c, backoff, idx).record == Error(None, None, c.responses[idx])
    ensures CodeOf(c.responses[idx]) == Some(1001) ==> Get(Handle(c, backoff, idx).record, ErrorKey) == Bool(true)
  {
  }

  /** A successful response stores its cleaned result and clears the backoff, or stores `{}` and keeps it. */
  lemma {:induction false} SuccessStoresResult(c: Cycle, backoff: map<string, real>, idx: nat)
    requires WellFormed(c) && idx < |c.inverters| && IsFetched(c, backoff, idx)
    requires var resp := c.responses[idx];
      resp.Dict? && CodeOf(resp) != Some(104) && CodeOf(resp) != Some(1003) && !IsFailure(resp)
    ensures var resp := c.responses[idx];
      var h := Handle(c, backoff, idx);
      && h.Handled? && h.sleeps == Coordinator.Pace(idx)
      && (resp.payload.result.Some? && resp.payload.result.value != map[] ==>
            h.record == Data(Clean(resp.payload.result.value)) && h.change == Coordinator.Cleared)
      && (resp.payload.result.None? || resp.payload.result.value == map[] ==>
            h.record == Data(map[]) && h.change == Coordinator.Unchanged)
  {
  }

  /** The rate-limited summary counts `rate_limit` records and never the `rate_limit_skip` placeholders. */
  lemma CountedRateLimitRecords(r: Record)
    ensures r.RateLimit? ==> IsCountedRateLimit(r)
    ensures r.RateLimitSkip? || r.NoData? || r.Error? || r.DataUnauthorized? ==> !IsCountedRateLimit(r)
    ensures IsCountedRateLimit(r) ==> !IsGoodData(r)
  {
  }

  lemma {:induction false} SubsetCard<T>(a: set<T>, b: set<T>)
    requires a <= b
    ensures |a| <= |b|
    decreases b
  {
    if b != {} {
      var x :| x in b;
      SubsetCard(a - {x}, b - {x});
    }
  }

  /** No record is counted both as updated and as rate limited, so the two counts add up to at most the records published. */
  lemma SummaryCounts(results: map<string, Record>)
    ensures SuccessfulCount(results) + RateLimitedCount(results) <= |results|
  {
    var good := set sn | sn in results && IsGoodData(results[sn]);
    var limited := set sn | sn in results && IsCountedRateLimit(results[sn]);
    forall sn | sn in limited
      ensures sn !in good
    {
      CountedRateLimitRecords(results[sn]);
    }
    assert good * limited == {};
    assert |good + limited| == |good| + |limited|;
    SubsetCard(good + limited, results.Keys);
  }

  /** A completed pass holds a record for exactly the configured serials. */
  lemma {:induction false} ResultsCover(c: Cycle, k: nat)
    requires WellFormed(c) && k <= |c.inverters|
    ensures !RunTo(c, k).aborted ==> forall sn :: sn in RunTo(c, k).results <==> sn in c.inverters[..k]
  {
    if k > 0 {
      ResultsCover(c, k - 1);
      assert c.inverters[..k] == c.inverters[..k - 1] + [c.inverters[k - 1]];
    }
  }

  /** Handling serials `j..k-1` leaves the backoff entry of every other serial as it was. */
  lemma {:induction false} BackoffFrame(c: Cycle, j: nat, k: nat)
    requires WellFormed(c) && j <= k <= |c.inverters|
    ensures forall sn :: sn !in c.inverters[j..k] ==>
      Coordinator.LastRateLimit(RunTo(c, k).backoff, sn) == Coordinator.LastRateLimit(RunTo(c, j).backoff, sn)
    decreases k - j
  {
    if j < k {
      BackoffFrame(c, j, k - 1);
      assert c.inverters[j..k] == c.inverters[j..k - 1] + [c.inverters[k - 1]];
    }
  }

  /** With distinct serials, a serial answered with 104 in a pass that completes ends the pass stamped with the cycle time. */
  lemma {:induction false} ThrottleStampsBackoff(c: Cycle, i: nat)
    requires WellFormed(c) && i < |c.inverters| && Serials.Distinct(c.inverters)
    requires !RunTo(c, i).aborted && IsFetched(c, RunTo(c, i).backoff, i) && CodeOf(c.responses[i]) == Some(104)
    ensures Coordinator.LastRateLimit(RunTo(c, |c.inverters|).backoff, c.inverters[i]) == c.now
  {
    var sn := c.inverters[i];
    assert RunTo(c, i + 1) == StepAt(c, i);
    assert RunTo(c, i + 1).backoff == RunTo(c, i).backoff[sn := c.now];
    BackoffFrame(c, i + 1, |c.inverters|);
    assert sn !in c.inverters[i + 1..] by {
      forall j | i + 1 <= j < |c.inverters| ensures c.inverters[j] != sn { }
    }
  }

  /** With distinct serials, a serial whose stored backoff is `t` is skipped with the placeholder while the cycle starts before `t` plus 55% of the interval. */
  lemma {:induction false} CoolingSerialSkipped(c: Cycle, i: nat, t: real)
    requires WellFormed(c) && i < |c.inverters| && Serials.Distinct(c.inverters)
    requires Coordinator.LastRateLimit(c.backoff, c.inverters[i]) == t && c.now < t + Coordinator.Cooldown(c.interval)
    ensures Handle(c, RunTo(c, i).backoff, i) ==
      Handled(RateLimitSkip(t + Coordinator.Cooldown(c.interval)), Coordinator.Unchanged, Coordinator.Pace(i))
  {
    var sn := c.inverters[i];
    BackoffFrame(c, 0, i);
    assert sn !in c.inverters[0..i] by {
      forall j | 0 <= j < i ensures c.inverters[j] != sn { }
    }
  }

  /**
    The legacy backoff round trip: with distinct serials, a serial answered with
    104 in one pass that then completes is skipped with the placeholder in the
    next cycle when that starts less than 55% of the interval later.
   */
  lemma {:induction false} ThrottleThenSkip(c1: Cycle, c2: Cycle, i: nat)
    requires WellFormed(c1) && i < |c1.inverters| && Serials.Distinct(c1.inverters)
    requires !RunTo(c1, i).aborted && IsFetched(c1, RunTo(c1, i).backoff, i)
    requires CodeOf(c1.responses[i]) == Some(104)
    requires WellFormed(c2) && c2.inverters == c1.inverters && c2.interval == c1.interval
    requires c2.backoff == RunTo(c1, |c1.inverters|).backoff
    requires c2.now < c1.now + Coordinator.Cooldown(c1.interval)
    ensures Handle(c2, RunTo(c2, i).backoff, i) ==
      Handled(RateLimitSkip(c1.now + Coordinator.Cooldown(c1.interval)), Coordinator.Unchanged, Coordinator.Pace(i))
  {
    ThrottleStampsBackoff(c1, i);
    CoolingSerialSkipped(c2, i, c1.now);
  }
}
