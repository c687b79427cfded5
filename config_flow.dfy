/**
  The setup flow and the options flow: editing the serial list, the finish checks,
  the preflight hand-off of the first setup, and the reload delta and notice lists
  an options change computes.
 */
module ConfigFlow {
  import opened Values
  import opened Records
  import opened Responses
  import Text
  import Serials
  import Preflight
  import Notices
  import Coordinator
  import Handoff

  const DefaultSystemName := "Solax System"
  const DuplicateInverter := "duplicate_inverter"
  const NoInverters := "no_inverters"
  const InvalidToken := "invalid_token"
  const NoSystemName := "no_system_name"
  const AckRateLimitError := "acknowledge_rate_limit"
  const AckInvalidSerialError := "acknowledge_invalid_serial"
  const AlreadyConfigured := "already_configured"

  /** Where a flow step leads. */
  datatype Step =
    | UserForm(error: Option<string>)
    | AddInverterForm(error: Option<string>)
    | ManageForm(error: Option<string>)
    | InvalidSerialNotice(details: string, error: Option<string>)
    | RateLimitNotice(inverters: string, error: Option<string>)
    | CreateEntry(data: Handoff.EntryData)
    | OptionsSaved
    | Abort(reason: string)

  // ---------------------------------------------------------------------------
  // Editing the serial list

  /** The "serial" field of the add-inverter and manage-inverters steps: the new list and the error, if any. */
  function AddSerial(serials: seq<string>, input: string): (seq<string>, Option<string>) {
    var serial := Serials.NormalizeSerial(input);
    if serial == "" then (serials, None)
    else if Serials.SerialExists(serial, serials) then (serials, Some(DuplicateInverter))
    else (serials + [serial], None)
  }

  /** The add field of both flows: a new serial is appended, a duplicate is reported. */
  method AddSerialField(serials: seq<string>, input: string) returns (r: seq<string>, error: Option<string>)
    requires Serials.IsDeduped(serials)
    ensures (r, error) == AddSerial(serials, input)
    ensures Serials.IsDeduped(r)
  {
    AddSerialIsDedupe(serials, input);
    r, error := serials, None;
    var serial := Serials.NormalizeSerial(input);
    if serial != "" && !Serials.SerialExists(serial, serials) {
      r := serials + [serial];
    } else if serial != "" {
      error := Some(DuplicateInverter);
    }
  }

  /**
    On a deduplicated list, adding a serial is deduplicating the list with the input
    appended: a duplicate (by casefold) leaves the list as it was and is reported.
   */
  lemma AddSerialIsDedupe(serials: seq<string>, input: string)
    requires Serials.IsDeduped(serials)
    ensures var (r, err) := AddSerial(serials, input);
      && r == Serials.Dedupe(serials + [input])
      && Serials.IsDeduped(r)
      && (err == Some(DuplicateInverter) <==>
            Serials.NormalizeSerial(input) != "" && Text.Fold(Serials.NormalizeSerial(input)) in Serials.FoldSet(serials))
      && (err.Some? ==> err == Some(DuplicateInverter) && r == serials)
  {
    Serials.DedupeOfDeduped(serials);
    Serials.DedupeSnoc(serials, input);
    Serials.SerialExistsIff(Serials.NormalizeSerial(input), serials);
    Serials.DedupeValid(serials + [input]);
  }

  /** `list.remove(x)` guarded by `x in list`: the first occurrence is dropped. */
  function RemoveFirst(xs: seq<string>, x: string): (r: seq<string>)
    ensures forall y :: y in r ==> y in xs
    ensures x !in xs ==> r == xs
    ensures x in xs ==> |r| == |xs| - 1
    decreases |xs|
  {
    if |xs| == 0 then []
    else if xs[0] == x then xs[1..]
    else [xs[0]] + RemoveFirst(xs[1..], x)
  }

  /** Exactly one occurrence of `x` is dropped and every other serial is kept as often as before. */
  lemma {:induction false} RemoveFirstCount(xs: seq<string>, x: string)
    ensures multiset(RemoveFirst(xs, x)) == multiset(xs) - multiset{x}
    decreases |xs|
  {
    if |xs| > 0 {
      assert xs == [xs[0]] + xs[1..];
      RemoveFirstCount(xs[1..], x);
    }
  }

  /** A deduplicated list stays deduplicated without its first entry. */
  lemma TailDeduped(xs: seq<string>)
    requires Serials.IsDeduped(xs) && |xs| > 0
    ensures Serials.IsDeduped(xs[1..])
    ensures forall y :: y in xs[1..] ==> Text.Fold(y) != Text.Fold(xs[0])
  {
    var tail := xs[1..];
    forall i, j | 0 <= i < j < |tail|
      ensures Text.Fold(tail[i]) != Text.Fold(tail[j])
    {
      assert tail[i] == xs[i + 1] && tail[j] == xs[j + 1];
    }
    forall y | y in tail
      ensures Text.Fold(y) != Text.Fold(xs[0])
    {
      var k :| 0 <= k < |tail| && tail[k] == y;
      assert xs[k + 1] == y;
    }
  }

  /** A serial put in front of a deduplicated list whose casefolds it does not share keeps it deduplicated. */
  lemma ConsDeduped(y: string, rest: seq<string>)
    requires Serials.IsDeduped(rest) && y != "" && Text.IsStripped(y)
    requires forall z :: z in rest ==> Text.Fold(z) != Text.Fold(y)
    ensures Serials.IsDeduped([y] + rest)
  {
    var r := [y] + rest;
    forall i, j | 0 <= i < j < |r|
      ensures Text.Fold(r[i]) != Text.Fold(r[j])
    {
      assert r[j] == rest[j - 1];
      if i > 0 {
        assert r[i] == rest[i - 1];
      } else {
        assert r[j] in rest;
      }
    }
  }

  /** Removing from a deduplicated list keeps it deduplicated, and the serial is gone. */
  lemma {:induction false} RemoveKeepsDeduped(xs: seq<string>, x: string)
    requires Serials.IsDeduped(xs)
    ensures Serials.IsDeduped(RemoveFirst(xs, x))
    ensures x !in RemoveFirst(xs, x)
    decreases |xs|
  {
    if |xs| > 0 {
      TailDeduped(xs);
      if xs[0] != x {
        RemoveKeepsDeduped(xs[1..], x);
        ConsDeduped(xs[0], RemoveFirst(xs[1..], x));
      }
    }
  }

  // ---------------------------------------------------------------------------
  // The reload delta and the notice lists of an options change

  /** `added_inverters`: the serials of the new list whose casefold the entry's old list did not have. */
  function AddedInverters(newSerials: seq<string>, oldSerials: seq<string>): seq<string> {
    var oldKeys := Serials.FoldSet(Serials.Dedupe(oldSerials));
    Serials.SelectByFold(newSerials, oldKeys, false)
  }

  /** A serial is added iff it is in the new list and no non-blank entry of the old list casefolds like it. */
  lemma AddedInvertersIff(newSerials: seq<string>, oldSerials: seq<string>)
    ensures forall sn :: sn in AddedInverters(newSerials, oldSerials) <==>
      sn in newSerials && Text.Fold(sn) !in Serials.ServedFolds(oldSerials)
    ensures |AddedInverters(newSerials, oldSerials)| <= |newSerials|
  {
    Serials.DedupeKeys(oldSerials);
  }

  /** Nothing is added when the old list already serves every casefold of the new one. */
  lemma NothingAddedWithoutNewKeys(newSerials: seq<string>, oldSerials: seq<string>)
    requires forall sn :: sn in newSerials ==> Text.Fold(sn) in Serials.ServedFolds(oldSerials)
    ensures AddedInverters(newSerials, oldSerials) == []
  {
    Serials.DedupeKeys(oldSerials);
    Serials.SelectNone(newSerials, Serials.FoldSet(Serials.Dedupe(oldSerials)), false);
  }

  /** `token_changed`: the new token differs from the entry's stored token, stripped. */
  function TokenChanged(token: string, entryToken: string): bool {
    token != Text.Strip(entryToken)
  }

  /** The serials of the invalid-serial notice. */
  function InvalidNoticeInverters(tokenChanged: bool, added: seq<string>, unauthorized: seq<string>): seq<string> {
    if tokenChanged then unauthorized
    else
      var addedKeys := Serials.FoldSet(added);
      Serials.SelectByFold(unauthorized, addedKeys, true)
  }

  /**
    `{sn: observed_details.get(sn, {})}`: the details of the listed serials. A serial
    without a detail is left out; the notice text reads a missing detail and an
    empty one alike (code 1003, reason "Data Unauthorized").
   */
  function InvalidNoticeDetails(serials: seq<string>, details: map<string, UnauthorizedDetail>): map<string, UnauthorizedDetail> {
    map sn | sn in serials && sn in details :: details[sn]
  }

  /** The serials of the rate-limit notice. */
  function RateNoticeInverters(tokenChanged: bool, added: seq<string>, invalid: seq<string>, rateLimited: seq<string>): seq<string> {
    var invalidKeys := Serials.FoldSet(invalid);
    if tokenChanged then Serials.SelectByFold(rateLimited, invalidKeys, false)
    else
      var addedKeys := Serials.FoldSet(added);
      Serials.SelectByFold(Serials.SelectByFold(rateLimited, addedKeys, true), invalidKeys, false)
  }

  /**
    The invalid-serial notice lists observed unauthorized serials: all of them after a
    token change, otherwise exactly the added ones (by casefold).
   */
  lemma InvalidNoticeFacts(tokenChanged: bool, added: seq<string>, unauthorized: seq<string>)
    ensures var invalid := InvalidNoticeInverters(tokenChanged, added, unauthorized);
      && (tokenChanged ==> invalid == unauthorized)
      && (forall sn :: sn in invalid <==>
            sn in unauthorized && (tokenChanged || Serials.SerialExists(sn, added)))
  {
    forall sn {
      Serials.SerialExistsIff(sn, added);
    }
  }

  /**
    The rate-limit notice lists observed rate-limited serials that are not on the
    invalid notice (not even up to case), and without a token change only added ones.
   */
  lemma RateNoticeFacts(tokenChanged: bool, added: seq<string>, unauthorized: seq<string>, rateLimited: seq<string>)
    ensures var invalid := InvalidNoticeInverters(tokenChanged, added, unauthorized);
      var rate := RateNoticeInverters(tokenChanged, added, invalid, rateLimited);
      && (forall sn :: sn in rate ==> sn in rateLimited && !Serials.SerialExists(sn, invalid) && sn !in invalid)
      && (forall sn :: sn in rate && !tokenChanged ==> Serials.SerialExists(sn, added))
      && (forall sn :: (sn in rateLimited && !Serials.SerialExists(sn, invalid)
                         && (tokenChanged || Serials.SerialExists(sn, added))) ==> sn in rate)
  {
    var invalid := InvalidNoticeInverters(tokenChanged, added, unauthorized);
    forall sn {
      Serials.SerialExistsIff(sn, added);
    }
    forall sn {
      Serials.SerialExistsIff(sn, invalid);
    }
  }

  /** The restricted details give every listed serial the same notice entry as the observed details. */
  lemma InvalidNoticeDetailsAgree(serials: seq<string>, details: map<string, UnauthorizedDetail>)
    ensures forall sn :: sn in serials ==>
      Notices.InvalidSerialEntry(sn, InvalidNoticeDetails(serials, details)) == Notices.InvalidSerialEntry(sn, details)
  {
  }

  /** `", ".join(serials) or "Unknown"`. */
  function NoticeList(serials: seq<string>): string {
    var joined := Text.Join(serials, ", ");
    if joined == "" then Notices.UnknownDetails else joined
  }

  // ---------------------------------------------------------------------------
  // Finish checks of the options flow

  /**
    The error left by the finish checks: each failed check overwrites the one before
    (`prior` is the add-serial error), and a changed token is checked with the cloud last.
   */
  function FinishError(prior: Option<string>, token: string, systemName: string, inverters: seq<string>,
                       flowToken: string, tokenAccepted: bool): Option<string>
  {
    var e1 := if token == "" then Some(InvalidToken) else prior;
    var e2 := if systemName == "" then Some(NoSystemName) else e1;
    var e3 := if inverters == [] then Some(NoInverters) else e2;
    if e3.None? && token != flowToken && !tokenAccepted then Some(InvalidToken) else e3
  }

  /** The last failed check wins; the options are saved only when every check passes. */
  lemma FinishErrorCases(prior: Option<string>, token: string, systemName: string, inverters: seq<string>,
                         flowToken: string, tokenAccepted: bool)
    ensures var e := FinishError(prior, token, systemName, inverters, flowToken, tokenAccepted);
      && (inverters == [] ==> e == Some(NoInverters))
      && (inverters != [] && systemName == "" ==> e == Some(NoSystemName))
      && (inverters != [] && systemName != "" && token == "" ==> e == Some(InvalidToken))
      && (e.None? <==> prior.None? && token != "" && systemName != "" && inverters != []
                       && (token == flowToken || tokenAccepted))
  {
  }

  /** The finish checks of the manage-inverters step, in the order the form runs them. */
  method FinishChecks(prior: Option<string>, token: string, systemName: string, inverters: seq<string>,
                      flowToken: string, tokenAccepted: bool) returns (error: Option<string>)
    ensures error == FinishError(prior, token, systemName, inverters, flowToken, tokenAccepted)
  {
    error := prior;
    if token == "" {
      error := Some(InvalidToken);
    }
    if systemName == "" {
      error := Some(NoSystemName);
    }
    if inverters == [] {
      error := Some(NoInverters);
    }
    if error.None? && token != flowToken && !tokenAccepted {
      error := Some(InvalidToken);
    }
  }

  // ---------------------------------------------------------------------------
  // The setup flow

  /** The token, system name and scan interval a flow holds (`_token`, `_system_name`, `_scan_interval`). */
  datatype Settings = Settings(token: string, systemName: string, scanInterval: nat)

  /** What the user step submits; absent optional fields fall back to their defaults. */
  datatype UserInput = UserInput(token: string, systemName: Option<string>, scanInterval: Option<nat>)

  /** `async_step_import`: the entry a YAML configuration creates, or the reason it is refused. */
  datatype ImportConfig = ImportConfig(token: Option<string>, inverters: seq<string>, scanInterval: Option<nat>,
                                       systemName: Option<string>, entityPrefix: Option<string>)

  function ImportEntry(config: ImportConfig, alreadyConfigured: bool): (step: Step)
    ensures step.CreateEntry? ==>
      && !alreadyConfigured && step.data.token != ""
      && Serials.IsDeduped(step.data.inverters) && step.data.inverters != []
    ensures step.Abort? <==> alreadyConfigured || config.token.None? || config.token == Some("")
                             || Serials.Dedupe(config.inverters) == []
    // the first failing check gives the reason: an existing entry, then the token, then the serials
    ensures alreadyConfigured ==> step == Abort(AlreadyConfigured)
    ensures !alreadyConfigured && (config.token.None? || config.token == Some("")) ==> step == Abort(InvalidToken)
    ensures (!alreadyConfigured && config.token.Some? && config.token.value != ""
             && Serials.Dedupe(config.inverters) == []) ==> step == Abort(NoInverters)
    // the created entry: the imported token and deduplicated serials, each missing setting at its default
    ensures step.CreateEntry? ==>
      var name := if config.systemName.Some? then config.systemName.value else DefaultSystemName;
      && step.data.token == config.token.value
      && step.data.inverters == Serials.Dedupe(config.inverters)
      && step.data.scanInterval == (if config.scanInterval.None? then Handoff.DefaultScanInterval else config.scanInterval.value)
      && step.data.systemName == name
      && step.data.entityPrefix == (if config.entityPrefix.None? then Serials.Slugify(name) else config.entityPrefix.value)
  {
    if alreadyConfigured then Abort(AlreadyConfigured)
    else if config.token.None? || config.token.value == "" then Abort(InvalidToken)
    else
      var inverters := Serials.Dedupe(config.inverters);
      Serials.DedupeValid(config.inverters);
      if inverters == [] then Abort(NoInverters)
      else
        var name := if config.systemName.Some? then config.systemName.value else DefaultSystemName;
        CreateEntry(Handoff.EntryData(
          config.token.value, inverters,
          if config.scanInterval.Some? then config.scanInterval.value else Handoff.DefaultScanInterval,
          name,
          if config.entityPrefix.Some? then config.entityPrefix.value else Serials.Slugify(name)))
  }

  /** The cloud's answer for each serial, in order. */
  function Replies(serials: seq<string>, reply: string -> Response): (rs: seq<Response>)
    ensures |rs| == |serials|
  {
    seq(|serials|, i requires 0 <= i < |serials| => reply(serials[i]))
  }

  /** `SolaxFlowHandler`: the first setup of the integration. */
  class SetupFlow {
    var inverters: seq<string>
    var settings: Settings
    var pendingEntryData: Option<Handoff.EntryData>
    var rateLimitNoticeInverters: seq<string>
    var initialSetupState: Option<Preflight.Tally>

    /** The serial list is deduplicated throughout the flow. */
    predicate Valid()
      reads this
    {
      Serials.IsDeduped(inverters)
    }

    constructor ()
      ensures Valid()
      ensures inverters == [] && settings == Settings("", DefaultSystemName, Handoff.DefaultScanInterval)
      ensures pendingEntryData == None && rateLimitNoticeInverters == [] && initialSetupState == None
    {
      inverters := [];
      settings := Settings("", DefaultSystemName, Handoff.DefaultScanInterval);
      pendingEntryData := None;
      rateLimitNoticeInverters := [];
      initialSetupState := None;
    }

    /** The entry data the flow would create now. */
    function EntryNow(): Handoff.EntryData
      reads this
    {
      Handoff.EntryData(settings.token, inverters, settings.scanInterval, settings.systemName, Serials.Slugify(settings.systemName))
    }

    /**
      `async_step_user` with a submitted form; `tokenAccepted` is the cloud's answer to the
      token test. The stripped name is kept even when the step fails.
     */
    method User(input: UserInput, tokenAccepted: bool, alreadyConfigured: bool) returns (step: Step)
      modifies this
      ensures alreadyConfigured ==> step == Abort(AlreadyConfigured) && unchanged(this)
      ensures !alreadyConfigured ==>
        var t := Text.Strip(input.token);
        var name := Text.Strip(if input.systemName.Some? then input.systemName.value else DefaultSystemName);
        var scan := if input.scanInterval.Some? then input.scanInterval.value else Handoff.DefaultScanInterval;
        var err := if name == "" then Some(NoSystemName) else if t == "" || !tokenAccepted then Some(InvalidToken) else None;
        && inverters == old(inverters) && pendingEntryData == old(pendingEntryData)
        && rateLimitNoticeInverters == old(rateLimitNoticeInverters) && initialSetupState == old(initialSetupState)
        && (err.Some? ==> step == UserForm(err) && settings == old(settings).(systemName := name))
        && (err.None? ==> step == AddInverterForm(None) && settings == Settings(t, name, scan))
    {
      if alreadyConfigured {
        return Abort(AlreadyConfigured);
      }
      var error: Option<string> := None;
      var t := Text.Strip(input.token);
      if t == "" {
        error := Some(InvalidToken);
      }
      if t != "" && error.None? && !tokenAccepted {
        error := Some(InvalidToken);
      }
      var name := Text.Strip(if input.systemName.Some? then input.systemName.value else DefaultSystemName);
      if name == "" {
        error := Some(NoSystemName);
      }
      if error.None? {
        settings := Settings(t, name, if input.scanInterval.Some? then input.scanInterval.value else Handoff.DefaultScanInterval);
        return AddInverterForm(None);
      }
      settings := settings.(systemName := name);
      step := UserForm(error);
    }

    /** `_stash_initial_setup_state`: only a classified preflight is kept for the entry's first setup. */
    method Stash(runtime: Handoff.Runtime, data: Handoff.EntryData)
      modifies runtime
      ensures runtime.reloadStates == old(runtime.reloadStates)
      ensures runtime.pendingInitialSetup ==
        if initialSetupState.Some? then Some(Handoff.PendingSetup(Handoff.BuildInitialSetupMatch(data), initialSetupState.value))
        else old(runtime.pendingInitialSetup)
    {
      if initialSetupState.Some? {
        runtime.pendingInitialSetup := Some(Handoff.PendingSetup(Handoff.BuildInitialSetupMatch(data), initialSetupState.value));
      }
    }

    /**
      `async_step_add_inverter` with a submitted form. On finish the preflight asks the
      cloud once per serial (`reply`) at time `now`; a refused token sends the user back,
      rate-limited serials lead to the rate-limit notice, and otherwise the entry is
      created with the classified preflight stashed for its first setup.
     */
    method AddInverter(serialInput: string, finish: bool, runtime: Handoff.Runtime, reply: string -> Response, now: real)
      returns (step: Step)
      requires Valid()
      modifies this, runtime
      ensures Valid()
      ensures var (added, addError) := AddSerial(old(inverters), serialInput);
        && inverters == added && settings == old(settings)
        && runtime.reloadStates == old(runtime.reloadStates)
        && (addError.Some? || !finish || added == [] ==>
              && step == AddInverterForm(if addError.None? && finish then Some(NoInverters) else addError)
              && unchanged(runtime)
              && pendingEntryData == old(pendingEntryData) && rateLimitNoticeInverters == old(rateLimitNoticeInverters)
              && initialSetupState == old(initialSetupState))
        && (addError.None? && finish && added != [] ==>
              var data := Handoff.EntryData(settings.token, added, settings.scanInterval, settings.systemName,
                                            Serials.Slugify(settings.systemName));
              var outcome := Preflight.Run(added, Replies(added, reply), now, settings.scanInterval);
              && pendingEntryData == Some(data)
              && initialSetupState == (if outcome.Classified? then Some(outcome.tally) else None)
              && rateLimitNoticeInverters == (if outcome.Classified? then outcome.tally.rateLimited else [])
              && (outcome.TokenInvalid? ==> step == AddInverterForm(Some(InvalidToken)) && unchanged(runtime))
              && (!outcome.TokenInvalid? && rateLimitNoticeInverters != [] ==>
                    step == RateLimitNotice(NoticeList(rateLimitNoticeInverters), None) && unchanged(runtime))
              && (!outcome.TokenInvalid? && rateLimitNoticeInverters == [] ==>
                    step == CreateEntry(data)
                    && runtime.pendingInitialSetup ==
                         if outcome.Classified? then Some(Handoff.PendingSetup(Handoff.BuildInitialSetupMatch(data), outcome.tally))
                         else old(runtime.pendingInitialSetup)))
    {
      var added, error := AddSerialField(inverters, serialInput);
      inverters := added;
      if !finish || error.Some? {
        return AddInverterForm(error);
      }
      if inverters == [] {
        return AddInverterForm(Some(NoInverters));
      }
      var data := Handoff.EntryData(settings.token, inverters, settings.scanInterval, settings.systemName,
                                    Serials.Slugify(settings.systemName));
      var outcome := Preflight.ClassifyPreflight(inverters, Replies(inverters, reply), now, settings.scanInterval);
      var state := if outcome.Classified? then Some(outcome.tally) else None;
      var notice := if outcome.Classified? then outcome.tally.rateLimited else [];
      pendingEntryData, initialSetupState, rateLimitNoticeInverters := Some(data), state, notice;
      if outcome.TokenInvalid? {
        return AddInverterForm(Some(InvalidToken));
      }
      if notice != [] {
        return RateLimitNotice(NoticeList(notice), None);
      }
      Stash(runtime, data);
      step := CreateEntry(data);
    }

    /** `async_step_rate_limit_notice` of the setup flow with a submitted form. */
    method AcknowledgeRateLimit(acknowledged: bool, runtime: Handoff.Runtime) returns (step: Step)
      modifies this, runtime
      ensures inverters == old(inverters) && settings == old(settings) && initialSetupState == old(initialSetupState)
      ensures runtime.reloadStates == old(runtime.reloadStates)
      ensures !acknowledged ==>
        step == RateLimitNotice(NoticeList(old(rateLimitNoticeInverters)), Some(AckRateLimitError))
        && unchanged(this) && unchanged(runtime)
      ensures acknowledged ==>
        var data := if old(pendingEntryData).Some? then old(pendingEntryData).value else old(EntryNow());
        && step == CreateEntry(data)
        && rateLimitNoticeInverters == [] && pendingEntryData == None
        && runtime.pendingInitialSetup ==
             if initialSetupState.Some? then Some(Handoff.PendingSetup(Handoff.BuildInitialSetupMatch(data), initialSetupState.value))
             else old(runtime.pendingInitialSetup)
    {
      if !acknowledged {
        return RateLimitNotice(NoticeList(rateLimitNoticeInverters), Some(AckRateLimitError));
      }
      var data := if pendingEntryData.Some? then pendingEntryData.value else EntryNow();
      Stash(runtime, data);
      rateLimitNoticeInverters, pendingEntryData := [], None;
      step := CreateEntry(data);
    }
  }

  // ---------------------------------------------------------------------------
  // The options flow

  /** What the manage-inverters step submits; absent fields keep the flow's current values. */
  datatype ManageInput = ManageInput(
    token: Option<string>,
    systemName: Option<string>,
    scanInterval: Option<nat>,
    serial: string,
    removeSerial: string,
    finish: bool)

  /** What the reloaded coordinator reports after its first refresh (empty lists if there is none). */
  datatype Observed = Observed(
    rateLimited: seq<string>,
    unauthorized: seq<string>,
    unauthorizedDetails: map<string, UnauthorizedDetail>)

  /** The settings and serials a submitted manage-inverters form leaves in the flow, and its error. */
  datatype Submission = Submission(settings: Settings, inverters: seq<string>, error: Option<string>)

  /** The flow's settings after a submission: absent fields keep the current values; the token and name are stripped. */
  function SubmittedSettings(input: ManageInput, current: Settings): (r: Settings)
    ensures Text.IsStripped(r.token) && Text.IsStripped(r.systemName)
    ensures input.token.None? && Text.IsStripped(current.token) ==> r.token == current.token
    ensures input.scanInterval.None? ==> r.scanInterval == current.scanInterval
  {
    Settings(Text.Strip(if input.token.Some? then input.token.value else current.token),
             Text.Strip(if input.systemName.Some? then input.systemName.value else current.systemName),
             if input.scanInterval.Some? then input.scanInterval.value else current.scanInterval)
  }

  /**
    A submission against the flow's current values: the serial is added and the selected
    one removed, and on finish the finish checks run.
   */
  function Submitted(input: ManageInput, inverters: seq<string>, current: Settings, tokenAccepted: bool): (sub: Submission)
    requires Serials.IsDeduped(inverters)
    ensures Serials.IsDeduped(sub.inverters)
    ensures sub.settings == SubmittedSettings(input, current)
    ensures input.finish && sub.error.None? ==>
      && sub.settings.token != "" && sub.settings.systemName != "" && sub.inverters != []
      && (sub.settings.token == current.token || tokenAccepted)
    ensures !input.finish ==> sub.error == AddSerial(inverters, input.serial).1
  {
    var next := SubmittedSettings(input, current);
    var (added, addError) := AddSerial(inverters, input.serial);
    AddSerialIsDedupe(inverters, input.serial);
    var edited := if input.removeSerial != "" then RemoveFirst(added, input.removeSerial) else added;
    RemoveKeepsDeduped(added, input.removeSerial);
    FinishErrorCases(addError, next.token, next.systemName, edited, current.token, tokenAccepted);
    Submission(next, edited,
               if input.finish then FinishError(addError, next.token, next.systemName, edited, current.token, tokenAccepted)
               else addError)
  }

  /**
    What the options flow keeps of its last save: `_added_inverters`, `_token_changed`,
    and the serials (with details) of the invalid-serial and rate-limit notices.
   */
  datatype Delta = Delta(
    added: seq<string>,
    changed: bool,
    invalid: seq<string>,
    details: map<string, UnauthorizedDetail>,
    rate: seq<string>)

  /** What a save derives from the old entry and from what the reloaded coordinator observed. */
  function DeltaOf(newToken: string, newInverters: seq<string>, previous: Handoff.EntryData, observed: Observed): Delta {
    var added := AddedInverters(newInverters, previous.inverters);
    var changed := TokenChanged(newToken, previous.token);
    var invalid := InvalidNoticeInverters(changed, added, observed.unauthorized);
    Delta(added, changed, invalid, InvalidNoticeDetails(invalid, observed.unauthorizedDetails),
          RateNoticeInverters(changed, added, invalid, observed.rateLimited))
  }

  /** `previous_data`: the dict payloads of the current coordinator's data, if there is a coordinator. */
  function PreviousData(currentData: Option<map<string, Record>>): map<string, Record> {
    if currentData.Some? then Coordinator.DictPayloads(currentData.value) else map[]
  }

  /** Where a save leads: the invalid-serial notice first, then the rate-limit notice if enabled. */
  function NextStep(d: Delta, enabled: bool): Step {
    if d.invalid != [] then InvalidSerialNotice(Notices.InvalidSerialDetailsText(d.invalid, d.details), None)
    else if enabled && d.rate != [] then RateLimitNotice(NoticeList(d.rate), None)
    else OptionsSaved
  }

  /** The notice lists and the next step of a save. */
  method SaveNotices(newToken: string, inverters: seq<string>, previous: Handoff.EntryData, observed: Observed, enabled: bool)
    returns (d: Delta, step: Step)
    ensures d == DeltaOf(newToken, inverters, previous, observed)
    ensures step == NextStep(d, enabled)
  {
    d := DeltaOf(newToken, inverters, previous, observed);
    if d.invalid != [] {
      var text := Notices.FormatInvalidSerialDetails(d.invalid, d.details);
      return d, InvalidSerialNotice(text, None);
    }
    if enabled && d.rate != [] {
      return d, RateLimitNotice(NoticeList(d.rate), None);
    }
    step := OptionsSaved;
  }

  /** `SolaxOptionsFlowHandler`: changing the token, name, scan interval and serials of an entry. */
  class OptionsFlow {
    /** The config entry's data. */
    var entry: Handoff.EntryData
    var inverters: seq<string>
    var settings: Settings
    var delta: Delta
    var showRateLimitAfterInvalid: bool

    predicate Valid()
      reads this
    {
      Serials.IsDeduped(inverters)
    }

    constructor (entry: Handoff.EntryData)
      ensures Valid()
      ensures this.entry == entry && inverters == Serials.Dedupe(entry.inverters)
      ensures settings == Settings(entry.token, entry.systemName, entry.scanInterval)
      ensures delta == Delta([], false, [], map[], []) && !showRateLimitAfterInvalid
    {
      var unique := Serials.DedupeSerials(entry.inverters);
      this.entry := entry;
      inverters := unique;
      settings := Settings(entry.token, entry.systemName, entry.scanInterval);
      delta := Delta([], false, [], map[], []);
      showRateLimitAfterInvalid := false;
    }

    /** The add and remove fields of the manage-inverters step. */
    method Edit(serialInput: string, removeSerial: string) returns (error: Option<string>)
      requires Valid()
      modifies this
      ensures Valid()
      ensures var (added, addError) := AddSerial(old(inverters), serialInput);
        && error == addError
        && inverters == (if removeSerial != "" then RemoveFirst(added, removeSerial) else added)
      ensures entry == old(entry) && settings == old(settings) && delta == old(delta)
      ensures showRateLimitAfterInvalid == old(showRateLimitAfterInvalid)
    {
      var added;
      added, error := AddSerialField(inverters, serialInput);
      if removeSerial != "" {
        RemoveKeepsDeduped(added, removeSerial);
        added := RemoveFirst(added, removeSerial);
      }
      inverters := added;
    }

    /**
      The save of a finished manage-inverters step: the reload state for `entryId` is written
      (the dict payloads of the current coordinator's data, the added serials, whether the
      token changed), the entry is updated with its entity prefix kept, and the notice lists
      are derived from what the reloaded coordinator observed.
     */
    method Save(next: Settings, runtime: Handoff.Runtime, entryId: string,
                currentData: Option<map<string, Record>>, notificationsEnabled: bool, observed: Observed)
      returns (step: Step)
      modifies this, runtime
      ensures var d := DeltaOf(next.token, old(inverters), old(entry), observed);
        && inverters == old(inverters) && settings == next
        && entry == Handoff.EntryData(next.token, old(inverters), next.scanInterval, next.systemName, old(entry).entityPrefix)
        && delta == d && showRateLimitAfterInvalid == (notificationsEnabled && d.rate != [])
        && runtime.reloadStates == old(runtime.reloadStates)[entryId := Handoff.ReloadState(PreviousData(currentData), d.added, d.changed)]
        && runtime.pendingInitialSetup == old(runtime.pendingInitialSetup)
        && step == NextStep(d, notificationsEnabled)
    {
      var d;
      d, step := SaveNotices(next.token, inverters, entry, observed, notificationsEnabled);
      runtime.StoreReloadState(entryId, Handoff.ReloadState(PreviousData(currentData), d.added, d.changed));
      Commit(next, d, notificationsEnabled && d.rate != []);
    }

    /** The field writes that end a save. */
    method Commit(next: Settings, d: Delta, show: bool)
      modifies this
      ensures inverters == old(inverters) && settings == next && delta == d && showRateLimitAfterInvalid == show
      ensures entry == Handoff.EntryData(next.token, inverters, next.scanInterval, next.systemName, old(entry).entityPrefix)
    {
      settings, entry := next, Handoff.EntryData(next.token, inverters, next.scanInterval, next.systemName, entry.entityPrefix);
      delta, showRateLimitAfterInvalid := d, show;
    }

    /**
      `async_step_manage_inverters` with a submitted form. `tokenAccepted` is the cloud's
      answer to the token test, asked only when the token differs from the flow's.
     */
    method ManageInverters(input: ManageInput, tokenAccepted: bool, runtime: Handoff.Runtime, entryId: string,
                           currentData: Option<map<string, Record>>, notificationsEnabled: bool, observed: Observed)
      returns (step: Step)
      requires Valid()
      modifies this, runtime
      ensures Valid()
      ensures var sub := Submitted(input, old(inverters), old(settings), tokenAccepted);
        && inverters == sub.inverters && settings == sub.settings
        && (sub.error.Some? || !input.finish ==>
              && step == ManageForm(sub.error) && unchanged(runtime)
              && entry == old(entry) && delta == old(delta) && showRateLimitAfterInvalid == old(showRateLimitAfterInvalid))
        && (sub.error.None? && input.finish ==>
              var d := DeltaOf(sub.settings.token, sub.inverters, old(entry), observed);
              && entry == Handoff.EntryData(sub.settings.token, sub.inverters, sub.settings.scanInterval,
                                            sub.settings.systemName, old(entry).entityPrefix)
              && delta == d && showRateLimitAfterInvalid == (notificationsEnabled && d.rate != [])
              && runtime.reloadStates == old(runtime.reloadStates)[entryId := Handoff.ReloadState(PreviousData(currentData), d.added, d.changed)]
              && runtime.pendingInitialSetup == old(runtime.pendingInitialSetup)
              && step == NextStep(d, notificationsEnabled))
    {
      var next := SubmittedSettings(input, settings);
      var flowToken := settings.token;
      var error := Edit(input.serial, input.removeSerial);
      if input.finish {
        error := FinishChecks(error, next.token, next.systemName, inverters, flowToken, tokenAccepted);
        if error.None? {
          step := Save(next, runtime, entryId, currentData, notificationsEnabled, observed);
          return;
        }
      }
      settings := next;
      step := ManageForm(error);
    }

    /** `async_step_invalid_serial_notice` with a submitted form. */
    method AcknowledgeInvalidSerial(acknowledged: bool) returns (step: Step)
      modifies this
      ensures !acknowledged ==>
        && unchanged(this)
        && step == InvalidSerialNotice(Notices.InvalidSerialDetailsText(delta.invalid, delta.details), Some(AckInvalidSerialError))
      ensures acknowledged ==>
        && delta == old(delta).(invalid := [], details := map[])
        && !showRateLimitAfterInvalid
        && step == (if old(showRateLimitAfterInvalid) then RateLimitNotice(NoticeList(delta.rate), None) else OptionsSaved)
      ensures entry == old(entry) && inverters == old(inverters) && settings == old(settings)
    {
      if !acknowledged {
        var details := Notices.FormatInvalidSerialDetails(delta.invalid, delta.details);
        return InvalidSerialNotice(details, Some(AckInvalidSerialError));
      }
      var show := showRateLimitAfterInvalid;
      delta, showRateLimitAfterInvalid := delta.(invalid := [], details := map[]), false;
      step := if show then RateLimitNotice(NoticeList(delta.rate), None) else OptionsSaved;
    }

    /** `async_step_rate_limit_notice` of the options flow with a submitted form. */
    method AcknowledgeRateLimit(acknowledged: bool) returns (step: Step)
      modifies this
      ensures !acknowledged ==> unchanged(this) && step == RateLimitNotice(NoticeList(delta.rate), Some(AckRateLimitError))
      ensures acknowledged ==> delta == old(delta).(rate := []) && step == OptionsSaved
      ensures entry == old(entry) && inverters == old(inverters) && settings == old(settings)
      ensures showRateLimitAfterInvalid == old(showRateLimitAfterInvalid)
    {
      if !acknowledged {
        return RateLimitNotice(NoticeList(delta.rate), Some(AckRateLimitError));
      }
      delta := delta.(rate := []);
      step := OptionsSaved;
    }
  }
}
