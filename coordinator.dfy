/**
  The polling cycle of the main integration (solax_cloud_api): one pass over the
  configured serials that classifies each response, keeps a per-serial
  rate-limit backoff, applies the sticky rules, rebuilds the status lists and
  publishes a new snapshot only when the pass completes.

  `Handle`, `Apply` and `RunTo` specify the pass as functions; `SolaxCoordinator.UpdateData`
  runs it imperatively and is proved to end in the state `RunTo` describes.
 */
module Coordinator {
  import opened Values
  import opened Responses
  import opened Records
  import Text
  import Serials

  /** The backoff window is 55% of the scan interval. */
  const CooldownFactor: real := 0.55
  /** The extra pause after a rate-limited response, unless the serial is the last one. */
  const RateLimitPause: real := 5.0

  function Cooldown(interval: real): real {
    CooldownFactor * interval
  }

  /** The pause before querying the serial at position `idx` > 0: `min(1 + idx * 0.5, 5)`. */
  function PacingDelay(idx: nat): real {
    var grown := 1.0 + idx as real * 0.5;
    if grown < 5.0 then grown else 5.0
  }

  lemma PacingDelayBounds(i: nat, j: nat)
    requires 1 <= i <= j
    ensures 1.5 <= PacingDelay(i) <= PacingDelay(j) <= 5.0
    ensures i >= 8 ==> PacingDelay(i) == 5.0
    ensures i < 8 ==> PacingDelay(i) < 5.0
  {
  }

  /** Everything one cycle reads: the configuration, one fetch result per serial, and the state left by the last cycle. */
  datatype Cycle = Cycle(
    inverters: seq<string>,
    responses: seq<Response>,
    previous: map<string, Record>,
    refresh: Option<set<string>>,
    backoff: map<string, real>,
    now: real,
    interval: real)

  predicate WellFormed(c: Cycle) {
    |c.responses| == |c.inverters|
  }

  /** The working state of a pass: the results so far and what has been written to the coordinator. */
  datatype Pass = Pass(
    results: map<string, Record>,
    backoff: map<string, real>,
    rateLimited: seq<string>,
    rateLimitedDetails: map<string, RateLimitDetail>,
    unauthorized: seq<string>,
    unauthorizedDetails: map<string, UnauthorizedDetail>,
    sleeps: seq<real>,
    authFailed: bool)

  /** The status lists are reset at the start of every cycle. */
  function Start(c: Cycle): Pass {
    Pass(map[], c.backoff, [], map[], [], map[], [], false)
  }

  /** `getattr(self, f'_last_rate_limit_{sn}', 0)`. */
  function LastRateLimit(backoff: map<string, real>, sn: string): real {
    if sn in backoff then backoff[sn] else 0.0
  }

  /** While a restricted first refresh is pending, serials outside it are not fetched. */
  predicate Restricted(c: Cycle, sn: string) {
    c.refresh.Some? && Text.Fold(sn) !in c.refresh.value
  }

  /** What handling a serial does to its `_last_rate_limit_` attribute. */
  datatype BackoffChange = Unchanged | StampedAt(at: real) | Cleared

  /**
    What handling one serial contributes to the pass: the record stored for it,
    the backoff change, its rate-limited and unauthorized listings, and the
    pauses taken; or the 1001 abort, after the pauses taken before the fetch.
   */
  datatype Handled =
    | Handled(record: Record, change: BackoffChange,
              rateLimit: Option<RateLimitDetail>, unauthorized: Option<UnauthorizedDetail>,
              sleeps: seq<real>)
    | AuthAbort(sleeps: seq<real>)

  /** A serial outside the restricted refresh: its previous record is carried forward and re-listed by its error. */
  function CarryOver(prev: Record): Handled {
    if IsDict(prev) then
      if IsUnauthorizedMark(prev) then Handled(prev, Unchanged, None, Some(StickyDetail(prev)), [])
      else if IsRateLimitMark(prev) then
        Handled(prev, Unchanged, Some(CarriedFromPreflight(CodeFieldOr(prev, Null), ExceptionField(prev))), None, [])
      else Handled(prev, Unchanged, None, None, [])
    else Handled(Data(map[]), Unchanged, None, None, [])
  }

  /** Throttled or cooling down: an unauthorized record stays, error-free data is carried, otherwise the placeholder. */
  function StickyRecord(prev: Record, placeholder: Record): Record {
    if IsDict(prev) && IsUnauthorizedMark(prev) then prev
    else if IsDict(prev) && IsErrorFree(prev) then prev
    else placeholder
  }

  /** A sticky unauthorized record keeps its serial on the unauthorized list. */
  function StickyListing(prev: Record): Option<UnauthorizedDetail> {
    if IsDict(prev) && IsUnauthorizedMark(prev) then Some(StickyDetail(prev)) else None
  }

  /** Classifies a fetched response; the throttle test runs before the 1001 and 1003 checks. */
  function Classify(c: Cycle, idx: nat, prev: Record, resp: Response, pace: seq<real>): Handled {
    if resp.NotADict? then Handled(NoData, Unchanged, None, None, pace)
    else if IsRateLimitedResponse(resp) then
      var cooldown := Cooldown(c.interval);
      Handled(
        StickyRecord(prev, RateLimit(CodeOf(resp), ExceptionOf(resp), c.now + cooldown)),
        StampedAt(c.now),
        Some(ApiRateLimit(CodeOf(resp), ExceptionOf(resp), cooldown)),
        StickyListing(prev),
        pace + if idx + 1 < |c.inverters| then [RateLimitPause] else [])
    else if CodeOf(resp) == Some(1001) then AuthAbort(pace)
    else if CodeOf(resp) == Some(1003) then
      Handled(DataUnauthorized(ExceptionOf(resp), resp), Unchanged, None,
              Some(UnauthorizedDetail(Int(1003), OfStr(ExceptionOf(resp)))), pace)
    else if IsFailure(resp) then Handled(Error(CodeOf(resp), ExceptionOf(resp), resp), Unchanged, None, None, pace)
    else if ResultOf(resp).Some? && ResultOf(resp).value != map[] then
      Handled(SuccessRecord(resp), Cleared, None, None, pace)
    else Handled(SuccessRecord(resp), Unchanged, None, None, pace)
  }

  /** The pause before querying the serial at `idx`, if any. */
  function Pace(idx: nat): seq<real> {
    if idx > 0 then [PacingDelay(idx)] else []
  }

  /** The end of the backoff window of `sn`. */
  function SkipUntil(c: Cycle, backoff: map<string, real>, sn: string): real {
    LastRateLimit(backoff, sn) + Cooldown(c.interval)
  }

  /** How the serial at `idx` is handled, given the backoff left by the serials before it. */
  function Handle(c: Cycle, backoff: map<string, real>, idx: nat): Handled
    requires WellFormed(c) && idx < |c.inverters|
  {
    var sn := c.inverters[idx];
    var prev := Lookup(c.previous, sn);
    if Restricted(c, sn) then CarryOver(prev)
    else
      var skipUntil := SkipUntil(c, backoff, sn);
      if c.now < skipUntil then
        Handled(StickyRecord(prev, RateLimitSkip(skipUntil)), Unchanged,
                Some(CooldownActive(skipUntil - c.now)), StickyListing(prev), Pace(idx))
      else Classify(c, idx, prev, c.responses[idx], Pace(idx))
  }

  function ChangeBackoff(backoff: map<string, real>, sn: string, change: BackoffChange): map<string, real> {
    match change
    case Unchanged => backoff
    case StampedAt(t) => backoff[sn := t]
    case Cleared => backoff - {sn}
  }

  /** Folds the handling of `sn` into the pass. */
  function Apply(p: Pass, sn: string, h: Handled): Pass {
    match h
    case AuthAbort(pause) => p.(sleeps := p.sleeps + pause, authFailed := true)
    case Handled(record, change, rateLimit, unauthorized, pause) =>
      Pass(
        p.results[sn := record],
        ChangeBackoff(p.backoff, sn, change),
        if rateLimit.Some? then p.rateLimited + [sn] else p.rateLimited,
        if rateLimit.Some? then p.rateLimitedDetails[sn := rateLimit.value] else p.rateLimitedDetails,
        if unauthorized.Some? then p.unauthorized + [sn] else p.unauthorized,
        if unauthorized.Some? then p.unauthorizedDetails[sn := unauthorized.value] else p.unauthorizedDetails,
        p.sleeps + pause,
        p.authFailed)
  }

  /** The pass after the first `k` serials; an auth failure stops it. */
  function RunTo(c: Cycle, k: nat): Pass
    requires WellFormed(c) && k <= |c.inverters|
    decreases k, 0
  {
    if k == 0 then Start(c) else StepAt(c, k - 1)
  }

  /** The pass after the serial at `idx`: unchanged once authentication has failed, otherwise that serial applied. */
  function StepAt(c: Cycle, idx: nat): Pass
    requires WellFormed(c) && idx < |c.inverters|
    decreases idx, 2
  {
    var p := RunTo(c, idx);
    if p.authFailed then p else Apply(p, c.inverters[idx], HandleAt(c, idx))
  }

  /** How the serial at `idx` is handled in the cycle, given the backoff left by the serials before it. */
  function HandleAt(c: Cycle, idx: nat): Handled
    requires WellFormed(c) && idx < |c.inverters|
    decreases idx, 1
  {
    Handle(c, RunTo(c, idx).backoff, idx)
  }

  /** Some published record is a non-empty, error-free dict. */
  predicate AnyGood(results: map<string, Record>) {
    exists sn :: sn in results && IsGoodData(results[sn])
  }

  datatype Outcome = Published(data: map<string, Record>) | AuthFailed

  /** The dict-valued entries of a seeding map. */
  function DictPayloads(m: map<string, Record>): map<string, Record> {
    map k | k in m && IsDict(m[k]) :: m[k]
  }

  class SolaxCoordinator {
    const inverters: seq<string>
    /** The scan interval in seconds. */
    const interval: real
    var data: map<string, Record>
    /** `_last_rate_limit_{sn}` for every serial that has one. */
    var backoff: map<string, real>
    var rateLimitedInverters: seq<string>
    var rateLimitedDetails: map<string, RateLimitDetail>
    var unauthorizedInverters: seq<string>
    var unauthorizedDetails: map<string, UnauthorizedDetail>
    /** Casefolded serials of the restricted first refresh, if one is pending. */
    var initialRefreshInverters: Option<set<string>>
    var lastSuccessfulUpdate: Option<real>
    var lastUpdateAttempt: Option<real>
    var lastRateLimitAt: Option<real>

    constructor (inverters: seq<string>, scanInterval: nat, initialData: map<string, Record>,
                 initialRefresh: Option<seq<string>>)
      ensures this.inverters == inverters && interval == scanInterval as real
      ensures data == DictPayloads(initialData)
      ensures initialRefreshInverters == if initialRefresh.Some? then Some(Serials.FoldSet(initialRefresh.value)) else None
      ensures backoff == map[]
      ensures rateLimitedInverters == [] && rateLimitedDetails == map[]
      ensures unauthorizedInverters == [] && unauthorizedDetails == map[]
      ensures lastSuccessfulUpdate == None && lastUpdateAttempt == None && lastRateLimitAt == None
    {
      this.inverters := inverters;
      interval := scanInterval as real;
      var seeded: map<string, Record> := map[];
      var todo := initialData.Keys;
      while todo != {}
        invariant todo <= initialData.Keys
        invariant seeded == map k | k in initialData.Keys - todo && IsDict(initialData[k]) :: initialData[k]
        decreases todo
      {
        var serial :| serial in todo;
        if IsDict(initialData[serial]) {
          seeded := seeded[serial := initialData[serial]];
        }
        todo := todo - {serial};
      }
      data := seeded;
      backoff := map[];
      rateLimitedInverters, rateLimitedDetails := [], map[];
      unauthorizedInverters, unauthorizedDetails := [], map[];
      lastSuccessfulUpdate, lastUpdateAttempt, lastRateLimitAt := None, None, None;
      initialRefreshInverters := if initialRefresh.Some? then Some(Serials.FoldSet(initialRefresh.value)) else None;
    }

    /** What the next cycle reads from this coordinator. */
    function CycleFor(responses: seq<Response>, now: real): Cycle
      reads this
    {
      Cycle(inverters, responses, data, initialRefreshInverters, backoff, now, interval)
    }

    /** One cycle: `_async_update_data` with one fetch result per serial, the loop clock `now` and the wall clock `wallNow`. */
    method UpdateData(responses: seq<Response>, now: real, wallNow: real)
      returns (outcome: Outcome, sleeps: seq<real>)
      requires |responses| == |inverters|
      modifies this
      ensures var p := RunTo(old(CycleFor(responses, now)), |inverters|);
        && sleeps == p.sleeps
        && backoff == p.backoff
        && rateLimitedInverters == p.rateLimited && rateLimitedDetails == p.rateLimitedDetails
        && unauthorizedInverters == p.unauthorized && unauthorizedDetails == p.unauthorizedDetails
        && (outcome.AuthFailed? <==> p.authFailed)
        && (p.authFailed ==>
              data == old(data) && initialRefreshInverters == old(initialRefreshInverters)
              && lastSuccessfulUpdate == old(lastSuccessfulUpdate))
        && (!p.authFailed ==>
              outcome == Published(p.results) && data == p.results && initialRefreshInverters == None
              && lastSuccessfulUpdate == (if AnyGood(p.results) then Some(wallNow) else old(lastSuccessfulUpdate)))
      ensures lastUpdateAttempt == Some(wallNow)
      ensures lastRateLimitAt == if |rateLimitedInverters| > 0 then Some(wallNow) else old(lastRateLimitAt)
    {
      var p := RunCycle(CycleFor(responses, now));
      RecordStatus(p, wallNow);
      sleeps := p.sleeps;
      if p.authFailed {
        outcome := AuthFailed;
      } else {
        Publish(p.results, wallNow);
        outcome := Published(p.results);
      }
    }

    /** Writes the backoff and the status lists a pass rebuilt, whether or not it completed. */
    method RecordStatus(p: Pass, wallNow: real)
      modifies this
      ensures backoff == p.backoff
      ensures rateLimitedInverters == p.rateLimited && rateLimitedDetails == p.rateLimitedDetails
      ensures unauthorizedInverters == p.unauthorized && unauthorizedDetails == p.unauthorizedDetails
      ensures lastUpdateAttempt == Some(wallNow)
      ensures lastRateLimitAt == if |p.rateLimited| > 0 then Some(wallNow) else old(lastRateLimitAt)
      ensures data == old(data) && initialRefreshInverters == old(initialRefreshInverters)
      ensures lastSuccessfulUpdate == old(lastSuccessfulUpdate)
    {
      var rateLimitAt := if |p.rateLimited| > 0 then Some(wallNow) else lastRateLimitAt;
      lastUpdateAttempt, backoff, rateLimitedInverters, rateLimitedDetails,
        unauthorizedInverters, unauthorizedDetails, lastRateLimitAt :=
        Some(wallNow), p.backoff, p.rateLimited, p.rateLimitedDetails,
        p.unauthorized, p.unauthorizedDetails, rateLimitAt;
    }

    /** Publishes the records of a completed pass and ends any restricted first refresh. */
    method Publish(results: map<string, Record>, wallNow: real)
      modifies this
      ensures data == results && initialRefreshInverters == None
      ensures lastSuccessfulUpdate == if AnyGood(results) then Some(wallNow) else old(lastSuccessfulUpdate)
      ensures backoff == old(backoff) && lastUpdateAttempt == old(lastUpdateAttempt) && lastRateLimitAt == old(lastRateLimitAt)
      ensures rateLimitedInverters == old(rateLimitedInverters) && rateLimitedDetails == old(rateLimitedDetails)
      ensures unauthorizedInverters == old(unauthorizedInverters) && unauthorizedDetails == old(unauthorizedDetails)
    {
      if AnyGood(results) {
        lastSuccessfulUpdate := Some(wallNow);
      }
      initialRefreshInverters, data := None, results;
    }
  }

  /** The loop over the serials, stopping at an auth failure. */
  method RunCycle(c: Cycle) returns (p: Pass)
    requires WellFormed(c)
    ensures p == RunTo(c, |c.inverters|)
  {
    p := Start(c);
    var idx := 0;
    while idx < |c.inverters| && !p.authFailed
      invariant 0 <= idx <= |c.inverters|
      invariant p == RunTo(c, idx)
    {
      var q := StepSerial(c, p, idx);
      RunToNext(c, idx, p, q);
      p, idx := q, idx + 1;
    }
    if p.authFailed {
      AbortPersists(c, idx, |c.inverters|);
    }
  }

  /** The body of the loop over the serials, on the pass state it updates. */
  method StepSerial(c: Cycle, p: Pass, idx: nat) returns (q: Pass)
    requires WellFormed(c) && idx < |c.inverters|
    ensures q == Apply(p, c.inverters[idx], Handle(c, p.backoff, idx))
  {
    var sn := c.inverters[idx];
    var prev := Lookup(c.previous, sn);
    if c.refresh.Some? && Text.Fold(sn) !in c.refresh.value {
      q := CarrySerial(p, sn, prev);
      return;
    }
    var pace := if idx > 0 then [PacingDelay(idx)] else [];
    var skipUntil := LastRateLimit(p.backoff, sn) + Cooldown(c.interval);
    if c.now < skipUntil {
      q := SkipSerial(p, sn, prev, skipUntil, c.now, pace);
    } else {
      q := FetchSerial(c, p, idx, prev, c.responses[idx], pace);
    }
  }

  /** A serial outside the restricted refresh. */
  method CarrySerial(p: Pass, sn: string, prev: Record) returns (q: Pass)
    ensures q == Apply(p, sn, CarryOver(prev))
  {
    q := p;
    if IsDict(prev) {
      q := q.(results := q.results[sn := prev]);
      if IsUnauthorizedMark(prev) {
        q := q.(unauthorized := q.unauthorized + [sn], unauthorizedDetails := q.unauthorizedDetails[sn := StickyDetail(prev)]);
      } else if IsRateLimitMark(prev) {
        var detail := CarriedFromPreflight(CodeFieldOr(prev, Null), ExceptionField(prev));
        q := q.(rateLimited := q.rateLimited + [sn], rateLimitedDetails := q.rateLimitedDetails[sn := detail]);
      }
    } else {
      q := q.(results := q.results[sn := Data(map[])]);
    }
  }

  /** A serial still inside its backoff window, after the pause `pace`. */
  method SkipSerial(p: Pass, sn: string, prev: Record, skipUntil: real, now: real, pace: seq<real>) returns (q: Pass)
    ensures q == Apply(p, sn, Handled(StickyRecord(prev, RateLimitSkip(skipUntil)), Unchanged,
                                      Some(CooldownActive(skipUntil - now)), StickyListing(prev), pace))
  {
    q := p.(sleeps := p.sleeps + pace);
    q := KeepSticky(q, sn, prev, RateLimitSkip(skipUntil));
    q := q.(rateLimited := q.rateLimited + [sn], rateLimitedDetails := q.rateLimitedDetails[sn := CooldownActive(skipUntil - now)]);
  }

  /** A fetched serial, after the pause `pace`. */
  method FetchSerial(c: Cycle, p: Pass, idx: nat, prev: Record, resp: Response, pace: seq<real>) returns (q: Pass)
    requires idx < |c.inverters|
    ensures q == Apply(p, c.inverters[idx], Classify(c, idx, prev, resp, pace))
  {
    if resp.NotADict? {
      q := p.(sleeps := p.sleeps + pace, results := p.results[c.inverters[idx] := NoData]);
    } else if resp.Dict? && IsRateLimitedResponse(resp) {
      q := Throttle(c, p, idx, prev, resp, pace);
    } else {
      q := Settle(c, p, idx, resp, pace);
    }
  }

  /** A dict or transport failure that is not throttled: abort on 1001, mark 1003, record a failure, or store the result. */
  method Settle(c: Cycle, p: Pass, idx: nat, resp: Response, pace: seq<real>) returns (q: Pass)
    requires idx < |c.inverters| && !resp.NotADict? && !(resp.Dict? && IsRateLimitedResponse(resp))
    ensures forall prev :: q == Apply(p, c.inverters[idx], Classify(c, idx, prev, resp, pace))
  {
    var sn := c.inverters[idx];
    q := p.(sleeps := p.sleeps + pace);
    if CodeOf(resp) == Some(1001) {
      q := q.(authFailed := true);
    } else if CodeOf(resp) == Some(1003) {
      q := q.(results := q.results[sn := DataUnauthorized(ExceptionOf(resp), resp)]);
      var detail := UnauthorizedDetail(Int(1003), OfStr(ExceptionOf(resp)));
      q := q.(unauthorized := q.unauthorized + [sn], unauthorizedDetails := q.unauthorizedDetails[sn := detail]);
    } else if IsFailure(resp) {
      q := q.(results := q.results[sn := Error(CodeOf(resp), ExceptionOf(resp), resp)]);
    } else {
      var result := ResultOf(resp);
      if result.Some? && result.value != map[] {
        q := q.(results := q.results[sn := Data(Clean(result.value))], backoff := q.backoff - {sn});
      } else {
        q := q.(results := q.results[sn := Data(map[])]);
      }
    }
  }

  /** A throttled response: stamp the backoff, apply the sticky rule, list the serial, pause unless last. */
  method Throttle(c: Cycle, p: Pass, idx: nat, prev: Record, resp: Response, pace: seq<real>) returns (q: Pass)
    requires idx < |c.inverters| && resp.Dict? && IsRateLimitedResponse(resp)
    ensures q == Apply(p, c.inverters[idx], Classify(c, idx, prev, resp, pace))
  {
    var sn := c.inverters[idx];
    var cooldown := Cooldown(c.interval);
    ThrottledApply(c, idx, p, prev, resp, pace);
    q := p.(sleeps := p.sleeps + pace, backoff := p.backoff[sn := c.now]);
    q := KeepSticky(q, sn, prev, RateLimit(CodeOf(resp), ExceptionOf(resp), c.now + cooldown));
    var detail := ApiRateLimit(CodeOf(resp), ExceptionOf(resp), cooldown);
    q := q.(rateLimited := q.rateLimited + [sn], rateLimitedDetails := q.rateLimitedDetails[sn := detail]);
    if idx < |c.inverters| - 1 {
      q := q.(sleeps := q.sleeps + [RateLimitPause]);
    }
  }

  /** The pass a throttled response leaves, field by field. */
  lemma ThrottledApply(c: Cycle, idx: nat, p: Pass, prev: Record, resp: Response, pace: seq<real>)
    requires idx < |c.inverters| && resp.Dict? && IsRateLimitedResponse(resp)
    ensures var sn := c.inverters[idx];
      var cooldown := Cooldown(c.interval);
      var listing := StickyListing(prev);
      Apply(p, sn, Classify(c, idx, prev, resp, pace)) ==
        p.(results := p.results[sn := StickyRecord(prev, RateLimit(CodeOf(resp), ExceptionOf(resp), c.now + cooldown))],
           backoff := p.backoff[sn := c.now],
           rateLimited := p.rateLimited + [sn],
           rateLimitedDetails := p.rateLimitedDetails[sn := ApiRateLimit(CodeOf(resp), ExceptionOf(resp), cooldown)],
           unauthorized := if listing.Some? then p.unauthorized + [sn] else p.unauthorized,
           unauthorizedDetails := if listing.Some? then p.unauthorizedDetails[sn := listing.value] else p.unauthorizedDetails,
           sleeps := p.sleeps + pace + if idx + 1 < |c.inverters| then [RateLimitPause] else [])
  {
  }

  /** The sticky rule for a throttled or cooling-down serial. */
  method KeepSticky(p: Pass, sn: string, prev: Record, placeholder: Record) returns (q: Pass)
    ensures q == p.(results := p.results[sn := StickyRecord(prev, placeholder)],
                    unauthorized := if StickyListing(prev).Some? then p.unauthorized + [sn] else p.unauthorized,
                    unauthorizedDetails := if StickyListing(prev).Some? then p.unauthorizedDetails[sn := StickyDetail(prev)] else p.unauthorizedDetails)
  {
    q := p;
    if IsDict(prev) && IsUnauthorizedMark(prev) {
      q := q.(results := q.results[sn := prev]);
      q := q.(unauthorized := q.unauthorized + [sn], unauthorizedDetails := q.unauthorizedDetails[sn := StickyDetail(prev)]);
    } else if IsDict(prev) && IsErrorFree(prev) {
      q := q.(results := q.results[sn := prev]);
    } else {
      q := q.(results := q.results[sn := placeholder]);
    }
  }

  /** The state after one more serial of a pass that has not failed. */
  lemma {:induction false} RunToNext(c: Cycle, k: nat, p: Pass, q: Pass)
    requires WellFormed(c) && k < |c.inverters|
    requires p == RunTo(c, k) && !p.authFailed && q == Apply(p, c.inverters[k], Handle(c, p.backoff, k))
    ensures q == RunTo(c, k + 1)
  {
    assert HandleAt(c, k) == Handle(c, p.backoff, k);
    assert RunTo(c, k + 1) == StepAt(c, k);
  }

  /** Once the cycle has failed authentication, nothing after it runs. */
  lemma {:induction false} AbortPersists(c: Cycle, k: nat, n: nat)
    requires WellFormed(c) && k <= n <= |c.inverters|
    requires RunTo(c, k).authFailed
    ensures RunTo(c, n) == RunTo(c, k)
    decreases n - k
  {
    if k < n {
      assert RunTo(c, k + 1) == RunTo(c, k);
      AbortPersists(c, k + 1, n);
    }
  }
}
