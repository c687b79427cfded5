# SolaX Cloud API integration: a Dafny model

This project models the core of a Home Assistant integration that polls the SolaX
Cloud API for the realtime data of one or more solar inverters, and proves properties
of that model. The integration has two generations: the main one (`solax_cloud_api`)
and a legacy multi-inverter one (`solax_multi`). The model covers:

- **The polling cycle** of both coordinators. Each cycle walks the configured serials
  in order. It classifies every cloud reply as throttled, unauthorised (code 1003),
  failed or successful. It keeps a per-serial rate-limit backoff stamp and skips a
  serial while its cool-down of 55% of the scan interval runs. In the main
  integration an unauthorised state outlives throttling and good data is carried
  forward. The cycle rebuilds the rate-limited and unauthorised lists and publishes a
  new snapshot only when it completes; code 1001 (and 1003 in the legacy integration)
  aborts the cycle and leaves the published data as it was. The specification is a
  set of functions (`Handle`, `Apply`, `RunTo`). The coordinator is a class whose
  `UpdateData` method is proved to reach the state those functions describe.
- **Serial handling** in the config flow: slugifying a system name, normalising,
  finding and deduplicating serials by casefold.
- **The setup preflight**, which classifies one reply per serial before the first
  setup. A refused token stops it at once.
- **The setup flow and the options flow** as classes: adding and removing serials,
  the finish checks with their error precedence, the reload delta of an options
  change (added serials, token change) and the two notice lists derived from what the
  reloaded coordinator observed.
- **The hand-off in `async_setup_entry`**, which consumes an options reload state, or
  else a matching pending preflight state, to seed the new coordinator.
- **The text of the persistent notifications** and of the invalid-serial notice.
- **The sensor platforms** of both integrations: which entities a setup creates, the
  field-sensor state and availability rules, the per-inverter DC total, the system
  totals and the active-inverter count. The totals model Python's `total += value`
  exactly: an addend that is not a number makes the sum raise.
- **The translation-key guard script**: its key normaliser, the key-format check,
  the per-file check and the comparison of every language file with `en.json`.

Values are modelled as parsed JSON (`Values.Value`) with Python's truthiness and
`str()`. The records a coordinator publishes are a datatype with one variant per dict
shape the code writes (`Records.Record`), read through a dict view (`Keys`, `Get`)
just as the sensors and notifications read them. The cloud's replies, the clock, the
token test and what a reloaded coordinator observed are parameters.

## Model

| member | source | states |
|---|---|---|
| Responses.ContainsAnyIff | custom_components/solax_cloud_api/coordinator.py:35 | the marker search holds exactly when one of the markers occurs in the text |
| Responses.RateLimitedResponseCases | custom_components/solax_cloud_api/coordinator.py:17-35 | a non-dict or a transport failure is never throttled, codes 3 and 104 always are, any other code is throttled exactly when the lower-cased exception contains one of the six markers, and on a dict the coordinator's test agrees with the config flow's |
| Responses.CleanProperties | custom_components/solax_cloud_api/coordinator.py:257-261 | the cleaned result holds exactly the entries that are not None, with their values, and cleaning twice changes nothing |
| Records.FieldsAgree | custom_components/solax_cloud_api/coordinator.py:116-133 | the record accessors read a record exactly as the dict view does: `.get("error")`, `.get("exception")`, `.get("code", default)`, truthiness, and the unauthorized and rate-limit marks |
| Records.DictView | custom_components/solax_cloud_api/coordinator.py:150-162 | a marked record is a dict that is not error-free, a 1003 record rebuilds the detail with code 1003, an error record carries no mark, and None is neither truthy nor in error |
| Coordinator.PacingDelayBounds | custom_components/solax_cloud_api/coordinator.py:139-142 | the pause before the serial at position i ≥ 1 is at least 1.5 s, never shrinks with the position, stays below 5 s before position 8 and is exactly 5 s from position 8 on |
| Coordinator.SolaxCoordinator.constructor | custom_components/solax_cloud_api/coordinator.py:39-72 | the coordinator keeps only the dict-valued seed payloads, stores the casefolded restricted-refresh set (or none), and starts with no backoff, empty status lists and no timestamps |
| Coordinator.SolaxCoordinator.UpdateData | custom_components/solax_cloud_api/coordinator.py:99-285 | one cycle ends in exactly the state of the specified pass: backoff, both status lists with their details and the pauses taken; a 1001 abort leaves the data, the refresh set and the last-success time untouched, a completed pass publishes its records, ends the restricted refresh and stamps the last-success time only when some record is good data; the attempt time is always stamped and the rate-limit time whenever a serial was rate limited |
| Coordinator.SolaxCoordinator.RecordStatus | custom_components/solax_cloud_api/coordinator.py:101-105 | writes the backoff and the rebuilt status lists of a pass and the attempt and rate-limit times, and changes nothing else |
| Coordinator.SolaxCoordinator.Publish | custom_components/solax_cloud_api/coordinator.py:268-285 | publishes the records, clears the restricted refresh, stamps the last-success time only when some record is non-empty error-free data, and changes nothing else |
| Coordinator.RunCycle | custom_components/solax_cloud_api/coordinator.py:111-266 | the loop over the serials ends in the specified pass after all serials, stopping at an auth failure |
| Coordinator.StepSerial | custom_components/solax_cloud_api/coordinator.py:111-172 | one turn of the loop applies the specified handling of that serial: carry-over outside the restricted refresh, skip inside the backoff window, otherwise the classified response |
| Coordinator.CarrySerial | custom_components/solax_cloud_api/coordinator.py:112-136 | a serial outside the restricted refresh carries its previous dict (or `{}`) and is re-listed as unauthorized or rate limited by the previous record's error |
| Coordinator.SkipSerial | custom_components/solax_cloud_api/coordinator.py:144-169 | a serial inside its backoff window gets the sticky record or the `rate_limit_skip` placeholder and a `cooldown_active` listing, after the pacing pause |
| Coordinator.FetchSerial | custom_components/solax_cloud_api/coordinator.py:172-266 | a fetched response is handled as the classification specifies: a non-dict stores None, a throttled one goes to the throttle branch, anything else is settled |
| Coordinator.Settle | custom_components/solax_cloud_api/coordinator.py:228-266 | 1001 aborts, 1003 stores the unauthorized record and listing, an unsuccessful or nonzero code stores the error record, success stores the cleaned result and clears the backoff only when the result is non-empty |
| Coordinator.Throttle | custom_components/solax_cloud_api/coordinator.py:188-226 | a throttled response stamps the backoff with the cycle time, applies the sticky rule, lists the serial as `api_rate_limit` and pauses 5 s unless it is the last serial |
| Coordinator.ThrottledApply | custom_components/solax_cloud_api/coordinator.py:188-226 | the pass after a throttled response, field by field |
| Coordinator.KeepSticky | custom_components/solax_cloud_api/coordinator.py:195-205 | the sticky rule: an unauthorized previous record stays and keeps its listing, error-free data is carried, otherwise the placeholder is stored |
| Coordinator.AbortPersists | custom_components/solax_cloud_api/coordinator.py:228-230 | once the cycle has raised on 1001, no later serial changes the pass |
| CoordinatorFacts.ThrottledNeverFatal | custom_components/solax_cloud_api/coordinator.py:188-230 | the throttle test runs before the 1001 and 1003 checks, so a throttled response never aborts: it stamps the backoff, lists an `api_rate_limit` detail with the code, exception and 55% window, and stores the sticky record |
| CoordinatorFacts.AuthAbortIff | custom_components/solax_cloud_api/coordinator.py:228-230 | a serial aborts the cycle exactly when it is fetched and its dict answer carries code 1001 without throttling |
| CoordinatorFacts.TransportFailureIsError | custom_components/solax_cloud_api/coordinator.py:252-255 | a transport failure becomes the generic error record whose `error` is True and whose code and exception are None |
| CoordinatorFacts.DataUnauthorizedResponse | custom_components/solax_cloud_api/coordinator.py:232-250 | code 1003 stores a `data_unauthorized` record and lists the serial with code 1003 and the response's exception, the same detail the sticky rule later rebuilds from that record |
| CoordinatorFacts.FailureIsError | custom_components/solax_cloud_api/coordinator.py:252-255 | any other unsuccessful or nonzero-code dict becomes the error record carrying its code and exception, and it is not error-free |
| CoordinatorFacts.SuccessStoresResult | custom_components/solax_cloud_api/coordinator.py:257-266 | a successful response stores exactly the result entries that are not None, clears the backoff exactly when the result is non-empty, and lists the serial nowhere |
| CoordinatorFacts.SkipRule | custom_components/solax_cloud_api/coordinator.py:144-169 | a serial is reported as cooling down exactly when the loop time is before its last rate limit (0 when it has none) plus 55% of the interval, and its response is then never looked at |
| CoordinatorFacts.ClassifyNeverCools | custom_components/solax_cloud_api/coordinator.py:172-266 | a fetched response is never listed as `cooldown_active` |
| CoordinatorFacts.StickyPrecedence | custom_components/solax_cloud_api/coordinator.py:150-162 | an unauthorized previous record wins and keeps its listing, error-free previous data is carried, anything else gives way to the placeholder |
| CoordinatorFacts.RestrictedCarriesForward | custom_components/solax_cloud_api/coordinator.py:112-136 | a serial outside the restricted refresh is neither fetched nor paced: whatever its response and backoff, it carries its previous dict or `{}` and is listed exactly by the previous record's error |
| CoordinatorFacts.PacingRule | custom_components/solax_cloud_api/coordinator.py:139-142 | a serial that is not restricted waits `min(1 + idx/2, 5)` s unless it is the first, and waits another 5 s exactly when its fetched response is throttled and a serial follows |
| CoordinatorFacts.ClassifySleeps | custom_components/solax_cloud_api/coordinator.py:222-225 | a fetched response adds the 5 s pause exactly when it is throttled and a serial follows |
| CoordinatorFacts.ResultsCover | custom_components/solax_cloud_api/coordinator.py:111-266 | a pass that has not failed holds a record for exactly the serials handled so far |
| CoordinatorFacts.RateLimitedListConsistent | custom_components/solax_cloud_api/coordinator.py:102-103 | the rate-limited list names only handled serials, is no longer than the number handled, and a serial has a detail exactly when it is listed |
| CoordinatorFacts.UnauthorizedListConsistent | custom_components/solax_cloud_api/coordinator.py:104-105 | the same for the unauthorized list and its details |
| CoordinatorFacts.BackoffFrame | custom_components/solax_cloud_api/coordinator.py:145-146 | handling a run of serials leaves the backoff entry of every other serial as it was |
| CoordinatorFacts.StampSurvives | custom_components/solax_cloud_api/coordinator.py:194 | with distinct serials, a stamp written while handling one serial is still there when the pass ends |
| CoordinatorFacts.ThrottleStampsBackoff | custom_components/solax_cloud_api/coordinator.py:194 | a serial throttled in a completed pass leaves its backoff stamped with the cycle time |
| CoordinatorFacts.CoolingSerialSkipped | custom_components/solax_cloud_api/coordinator.py:145-169 | with distinct serials and no restricted refresh, a serial whose stored backoff is t is skipped in a cycle starting before t plus 55% of the interval, whatever the serials before it answer |
| CoordinatorFacts.ThrottleThenSkip | custom_components/solax_cloud_api/coordinator.py:145-194 | the backoff round trip: a serial throttled in one completed cycle is skipped, without a fetch, in a next cycle that starts within 55% of the interval |
| MultiCoordinator.SolaxCoordinator.constructor | custom_components/solax_multi/coordinator.py:16-25 | the legacy coordinator starts with no data and no backoff attributes |
| MultiCoordinator.SolaxCoordinator.UpdateData | custom_components/solax_multi/coordinator.py:52-145 | one legacy cycle ends in the specified pass: the backoff written during the pass stays even when 1003 aborts it, `data` is replaced only by a completed pass, which also reports the updated and rate-limited counts |
| MultiCoordinator.RunCycle | custom_components/solax_multi/coordinator.py:60-131 | the loop over the serials ends in the specified pass, stopping at a 1003 |
| MultiCoordinator.StepSerial | custom_components/solax_multi/coordinator.py:60-77 | one turn of the loop: pace, then the skip placeholder inside the backoff window, otherwise the classified response |
| MultiCoordinator.FetchSerial | custom_components/solax_multi/coordinator.py:77-131 | a fetched response is handled as the classification specifies: none for a non-dict, 104 stamps and records `rate_limit` and pauses unless last, 1003 aborts, other failures get the error record, success the cleaned result |
| MultiCoordinator.AbortPersists | custom_components/solax_multi/coordinator.py:113-115 | once a 1003 has aborted the pass, no later serial changes it |
| MultiCoordinator.OnlyCode104Throttles | custom_components/solax_multi/coordinator.py:93-111 | a fetched serial stamps its backoff and gets a `rate_limit` record exactly when its code is 104, so code 3 and throttling texts are not rate limits here; the 104 record and pauses in full |
| MultiCoordinator.UnauthorizedAbortsIff | custom_components/solax_multi/coordinator.py:113-115 | a serial aborts the legacy cycle exactly when it is fetched and answers a dict with code 1003 |
| MultiCoordinator.SkipAlwaysPlaceholder | custom_components/solax_multi/coordinator.py:67-74 | a serial gets the skip placeholder exactly when it is inside its backoff window, with no carry-forward, whatever it would have answered |
| MultiCoordinator.FailureIsError | custom_components/solax_multi/coordinator.py:117-120 | 1001, a transport failure and any other failure that is neither 104 nor 1003 become the generic error record |
| MultiCoordinator.SuccessStoresResult | custom_components/solax_multi/coordinator.py:122-131 | success stores the cleaned result and clears the backoff when the result is non-empty, and otherwise stores `{}` and keeps the backoff |
| MultiCoordinator.CountedRateLimitRecords | custom_components/solax_multi/coordinator.py:133-134 | the summary counts `rate_limit` records as rate limited, never the skip placeholders, and never a record it counts as updated |
| MultiCoordinator.SummaryCounts | custom_components/solax_multi/coordinator.py:133-134 | the updated and rate-limited counts add up to at most the number of records |
| MultiCoordinator.ResultsCover | custom_components/solax_multi/coordinator.py:60-131 | a pass that has not aborted holds a record for exactly the serials handled so far |
| MultiCoordinator.BackoffFrame | custom_components/solax_multi/coordinator.py:68-69 | handling a run of serials leaves the backoff of every other serial as it was |
| MultiCoordinator.ThrottleStampsBackoff | custom_components/solax_multi/coordinator.py:99 | with distinct serials, a 104 in a completed pass leaves the serial's backoff at the cycle time |
| MultiCoordinator.CoolingSerialSkipped | custom_components/solax_multi/coordinator.py:67-74 | with distinct serials, a serial whose backoff is t gets the placeholder in a cycle starting before t plus 55% of the interval |
| MultiCoordinator.ThrottleThenSkip | custom_components/solax_multi/coordinator.py:67-111 | the legacy backoff round trip: a 104 in one completed cycle makes the next cycle within 55% of the interval skip that serial |
| Serials.Slugify | solax_cloud_api/config_flow.py:27-28 | the slug is as long as the name, has no space, hyphen or uppercase letter, and maps each character as lower-casing with spaces and hyphens turned into underscores |
| Serials.SlugifyIdempotent | solax_cloud_api/config_flow.py:27-28 | slugifying a slug changes nothing |
| Serials.NormalizeSerial | solax_cloud_api/config_flow.py:30-31 | the normalised serial is no longer than the input, has no whitespace at either end, and a serial already trimmed is kept |
| Serials.NormalizeSerialRemovesEdgeSpace | solax_cloud_api/config_flow.py:30-31 | the normalised serial is a contiguous part of the input, and everything cut before and after it is whitespace |
| Serials.SelectByFold | solax_cloud_api/config_flow.py:33-35 | the serials whose casefold is (or is not) in the given set, and only those |
| Serials.SelectAppend | solax_cloud_api/config_flow.py:33-35 | the selection keeps the input order (it distributes over concatenation) |
| Serials.SelectNone | solax_cloud_api/config_flow.py:33-35 | when no serial qualifies the selection is empty |
| Serials.SerialExistsIff | solax_cloud_api/config_flow.py:33-35 | a serial exists in a list exactly when its casefold is among the list's casefolds |
| Serials.DedupeSerials | solax_cloud_api/config_flow.py:37-49 | the loop with its `seen` set returns the specified deduplication, and the result is normalised, non-empty and free of case-insensitive repeats |
| Serials.DedupeSnoc | solax_cloud_api/config_flow.py:40-48 | one more input serial is kept, normalised, unless it is blank or its casefold is already kept |
| Serials.DedupeValid | solax_cloud_api/config_flow.py:37-49 | every kept serial is non-empty and stripped, and no two kept serials are equal up to case |
| Serials.DedupeKeys | solax_cloud_api/config_flow.py:37-49 | the kept casefolds are exactly those of the non-blank normalised inputs, and every kept entry is the normalisation of some input |
| Serials.DedupePrefix | solax_cloud_api/config_flow.py:37-49 | first occurrences keep their order: deduplicating a longer list only appends to the shorter list's result |
| Serials.DedupeOfDeduped | solax_cloud_api/config_flow.py:37-49 | a list that is already deduplicated comes back unchanged |
| Serials.DedupeIdempotent | solax_cloud_api/config_flow.py:37-49 | deduplicating twice is deduplicating once |
| Text.Strip | solax_cloud_api/config_flow.py:30-31 | the stripped text is no longer than the input, has no whitespace at either end, and a text with none is returned as it is |
| Text.StripRemovesEdgeSpace | solax_cloud_api/config_flow.py:30-31 | the stripped text is the input with some whitespace cut from the front and some from the back, and nothing else removed |
| Text.TrimSpaceStartDropsSpace | solax_cloud_api/config_flow.py:30-31 | the characters removed from before the kept suffix are all whitespace |
| Text.TrimSpaceEndDropsSpace | solax_cloud_api/config_flow.py:30-31 | the characters removed from after the kept prefix are all whitespace |
| Text.StripIdempotentSpace | solax_cloud_api/config_flow.py:30-31 | stripping twice is stripping once |
| Text.FoldIsLower | solax_cloud_api/config_flow.py:33-35 | on the characters modelled, casefolding a serial maps it exactly as lower-casing does |
| Preflight.ClassifyCases | solax_cloud_api/config_flow.py:184-238 | a reply stops the preflight as failed exactly when it is not an object and as token-invalid exactly when it refuses the token; it is throttled exactly when, past the token test, it matches the throttling test, and then records a `rate_limit` entry ending 55% of the scan interval later; 1003 marks it unauthorized; a transport failure records its error object; anything else records the error or the cleaned result |
| Preflight.Verdicts | solax_cloud_api/config_flow.py:159-238 | one verdict per reply, each the classification of that reply on its own |
| Preflight.ClassifyPreflight | solax_cloud_api/config_flow.py:139-250 | the loop returns exactly the specified outcome, returning as soon as a reply stops it |
| Preflight.PassAdvance | solax_cloud_api/config_flow.py:159-238 | one more serial of a pass that has not stopped applies that serial's verdict, and a verdict that stops the pass is the final outcome |
| Preflight.ClassifyOne | solax_cloud_api/config_flow.py:163-238 | one turn of the loop applies the specified verdict of that reply |
| Preflight.PassStays | solax_cloud_api/config_flow.py:188-191 | once the pass has stopped, later serials change nothing |
| Preflight.PassStopIff | solax_cloud_api/config_flow.py:188-241 | the pass is token-invalid (or failed) exactly when some verdict is that stop and no earlier verdict stops, and it completes exactly when no verdict stops |
| Preflight.TokenInvalidIff | solax_cloud_api/config_flow.py:188-241 | the preflight returns `token_invalid` exactly when some reply refuses the token and no earlier reply stopped it, among the modelled replies gives up with None exactly when the first stopping reply is not an object, and completes exactly when no reply stops it |
| Preflight.PassConsistent | solax_cloud_api/config_flow.py:147-238 | a completed pass has a record for exactly the serials handled, lists only handled serials, and has a detail for exactly the listed serials |
| Preflight.ApplyConsistent | solax_cloud_api/config_flow.py:193-238 | handling one more serial keeps the tally consistent |
| Preflight.PassRecords | solax_cloud_api/config_flow.py:193-238 | with distinct serials, every handled serial holds the record its own verdict stores and is listed exactly by its verdict |
| Preflight.RunRecords | solax_cloud_api/config_flow.py:139-250 | with distinct serials, a completed preflight holds for each serial the record its own reply yields, lists it as rate limited exactly when that reply was throttled and as invalid exactly when it answered 1003, never on both lists |
| ConfigFlow.AddSerialField | solax_cloud_api/config_flow.py:319-325 | the add field appends the normalised serial unless it is blank or already listed up to casefold, reports `duplicate_inverter` for a listed one, and keeps the list deduplicated |
| ConfigFlow.AddSerialIsDedupe | solax_cloud_api/config_flow.py:491-497 | on a deduplicated list, adding a serial gives the same list as deduplicating the list with the input appended; the error is `duplicate_inverter` exactly when the normalised input is non-blank and its casefold is already served, and then the list is unchanged |
| ConfigFlow.RemoveFirst | solax_cloud_api/config_flow.py:499-503 | removal only drops entries, leaves a list without the serial as it is, and otherwise shortens it by one |
| ConfigFlow.RemoveFirstCount | solax_cloud_api/config_flow.py:502-503 | removal drops exactly one occurrence of the serial and keeps every other entry as often as before |
| ConfigFlow.RemoveKeepsDeduped | solax_cloud_api/config_flow.py:499-503 | removing from a deduplicated list keeps it deduplicated, and the removed serial is no longer listed |
| ConfigFlow.AddedInvertersIff | solax_cloud_api/config_flow.py:529-535 | a serial counts as added exactly when it is on the new list and no non-blank serial of the entry's old list has its casefold |
| ConfigFlow.NothingAddedWithoutNewKeys | solax_cloud_api/config_flow.py:529-535 | when the old list already serves every casefold of the new one, nothing counts as added |
| ConfigFlow.InvalidNoticeFacts | solax_cloud_api/config_flow.py:597-605 | after a token change the invalid-serial notice lists every observed unauthorised serial; otherwise it lists exactly those whose casefold matches an added serial |
| ConfigFlow.RateNoticeFacts | solax_cloud_api/config_flow.py:611-627 | the rate-limit notice lists exactly the observed rate-limited serials that are not on the invalid-serial notice up to casefold and, without a token change, were added |
| ConfigFlow.InvalidNoticeDetailsAgree | solax_cloud_api/config_flow.py:606-609 | the details kept for the notice give every listed serial the same notice entry as the observed details |
| ConfigFlow.FinishErrorCases | solax_cloud_api/config_flow.py:505-519 | of the finish checks the last failing one wins (no inverters over no system name over an empty token), and the save goes ahead exactly when there was no add error, every field is filled, and the token is unchanged or accepted by the cloud |
| ConfigFlow.FinishChecks | solax_cloud_api/config_flow.py:505-519 | the checks, run in the form's order, leave exactly the specified error |
| ConfigFlow.ImportEntry | solax_cloud_api/config_flow.py:421-454 | an import is refused exactly when an entry exists, the token is missing or empty, or no serial survives deduplication, with the first failing check (existing entry, then token, then serials) as the reason; a created entry has the imported token, the deduplicated serials, the imported interval or 120, the imported name or "Solax System", and the imported prefix or the slug of the name |
| ConfigFlow.SetupFlow.constructor | solax_cloud_api/config_flow.py:256-264 | a new setup flow starts with no inverters, the default name and scan interval, and nothing pending |
| ConfigFlow.SetupFlow.User | solax_cloud_api/config_flow.py:274-299 | an existing entry aborts the step; otherwise an empty name gives `no_system_name`, else an empty or refused token gives `invalid_token`; the stripped name is kept always and the token and scan interval only on success, which moves on to the add-inverter step |
| ConfigFlow.SetupFlow.Stash | solax_cloud_api/config_flow.py:266-272 | only a classified preflight is stored, with the match built from the entry data; nothing else in the runtime changes |
| ConfigFlow.SetupFlow.AddInverter | solax_cloud_api/config_flow.py:315-366 | the serial is added as the add field does; without finish, with an error or with no inverters the form is shown again with that error and nothing is stored; otherwise the preflight runs on the list, a refused token shows `invalid_token`, rate-limited serials lead to the rate-limit notice, and else the entry is created with the classified preflight stashed |
| ConfigFlow.SetupFlow.AcknowledgeRateLimit | solax_cloud_api/config_flow.py:387-406 | without acknowledgement the notice is shown again with its error and nothing changes; with it the pending entry (or the current settings) is created, the preflight is stashed, and the notice list and pending entry are cleared |
| ConfigFlow.SubmittedSettings | solax_cloud_api/config_flow.py:486-489 | the submitted token and name are stripped, and absent fields keep the flow's current values |
| ConfigFlow.Submitted | solax_cloud_api/config_flow.py:486-519 | a submission keeps the serial list deduplicated; a finished one without error has a token, a name and inverters, with the token unchanged or accepted; an unfinished one reports only the add error |
| ConfigFlow.SaveNotices | solax_cloud_api/config_flow.py:597-636 | a save derives the added serials, the token change and both notice lists from the old entry and what the reloaded coordinator observed, and goes to the invalid-serial notice first, then the rate-limit notice when enabled, else finishes |
| ConfigFlow.OptionsFlow.constructor | solax_cloud_api/config_flow.py:463-474 | the options flow starts from the entry's deduplicated serials and its token, name and scan interval, with empty notice lists |
| ConfigFlow.OptionsFlow.Edit | solax_cloud_api/config_flow.py:491-503 | the add field runs first and the selected serial is removed after it; the list stays deduplicated and nothing else changes |
| ConfigFlow.OptionsFlow.Save | solax_cloud_api/config_flow.py:521-636 | the reload state for the entry holds the dict payloads of the current data, the added serials and the token change; the entry gets the new token, serials, name and scan interval with its entity prefix kept; the next step is the one the notice lists give |
| ConfigFlow.OptionsFlow.ManageInverters | solax_cloud_api/config_flow.py:480-640 | the submitted settings and edited list are kept in the flow; a failing or unfinished submission shows the form with its error and touches nothing else, and a passing one saves as above |
| ConfigFlow.OptionsFlow.AcknowledgeInvalidSerial | solax_cloud_api/config_flow.py:667-681 | without acknowledgement the notice is shown again with its error; with it the invalid list and details are cleared and the rate-limit notice follows exactly when a save asked for it |
| ConfigFlow.OptionsFlow.AcknowledgeRateLimit | solax_cloud_api/config_flow.py:695-705 | without acknowledgement the notice is shown again with its error and nothing changes; with it the rate list is cleared and the options are saved |
| Notices.BuildRateLimitLines | custom_components/solax_cloud_api/__init__.py:58-64 | the detail loop of the rate-limit notification builds exactly the specified lines, in list order |
| Notices.RateLimitLinesCover | custom_components/solax_cloud_api/__init__.py:58-64 | there are at most as many lines as listed serials; every line is the line of a listed serial that has a code or a truthy reason, and every such serial has its line |
| Notices.NoLineWithoutDetail | custom_components/solax_cloud_api/__init__.py:59-63 | a serial without a detail, or whose detail is only a local cool-down, gets no line; a throttled reply that carried a code always gets one |
| Notices.RateLimitNotification | custom_components/solax_cloud_api/__init__.py:37-76 | the notification is dismissed exactly when notifications are switched off or no inverter is rate limited, and created otherwise |
| Notices.UnauthorizedFields | custom_components/solax_cloud_api/__init__.py:90-93 | the code and reason read for a serial, defaulting to 1003 and "Data Unauthorized" when the serial has no detail |
| Notices.BuildInvalidSerialLines | custom_components/solax_cloud_api/__init__.py:89-94 | the loop builds one line per listed serial, in order, each from that serial's code and reason |
| Notices.InvalidSerialLines | custom_components/solax_cloud_api/__init__.py:89-94 | there is exactly one line per listed serial |
| Notices.MissingDetailDefaults | custom_components/solax_cloud_api/__init__.py:91-93 | a serial without a detail is reported as code 1003 with reason "Data Unauthorized"; a detail with a falsy exception keeps its code but takes the default reason |
| Notices.InvalidSerialNotification | custom_components/solax_cloud_api/__init__.py:79-107 | the notification is dismissed exactly when no serial is unauthorized |
| Notices.FormatInvalidSerialDetails | solax_cloud_api/config_flow.py:61-70 | the formatter returns exactly the specified text |
| Notices.InvalidSerialDetailsText | solax_cloud_api/config_flow.py:61-70 | the text is the placeholder "Unknown" exactly when no serial is listed |
| Notices.UnknownIffEmpty | solax_cloud_api/config_flow.py:69-70 | the entries of a non-empty list never join to the placeholder, because every entry is longer than it |
| Handoff.BuildInitialSetupMatchShape | solax_cloud_api/config_flow.py:81-87 | the match key holds the stripped token and the deduplicated serial list with the entry's scan interval and name, and building it again from itself gives the same key |
| Handoff.Runtime.StoreReloadState | solax_cloud_api/config_flow.py:552-556 | the reload state is stored under the entry's id, replacing any earlier one, and the pending first-setup state is kept |
| SetupEntry.MatchIff | custom_components/solax_cloud_api/__init__.py:125-135 | a pending state matches an entry exactly when the stripped tokens agree and both serial lists serve the same casefolds |
| SetupEntry.MatchIgnoresOrder | custom_components/solax_cloud_api/__init__.py:125-135 | reordering or repeating the entry's serials does not change whether it matches |
| SetupEntry.MatchOwnEntry | solax_cloud_api/config_flow.py:266-272 | the state the setup flow stashes for an entry always matches that entry |
| SetupEntry.TokenChangePollsAll | custom_components/solax_cloud_api/__init__.py:160-164 | after an options change that changed the token nothing is seeded and the first refresh polls every serial |
| SetupEntry.ReloadSeedFacts | custom_components/solax_cloud_api/__init__.py:164-173 | a reload seed holds exactly the cached dict payloads of still-configured serials, unchanged, and the first refresh is restricted to exactly the added serials that are still configured |
| SetupEntry.PreflightSeedCovers | custom_components/solax_cloud_api/__init__.py:180-194 | a preflight seed holds only dict payloads of configured serials from the preflight, and each configured serial is left to the first refresh exactly when it was not seeded |
| SetupEntry.SeedPayloads | custom_components/solax_cloud_api/__init__.py:165-168 | the loop keeps exactly the dict payloads whose serial's casefold is configured |
| SetupEntry.ComputeSeed | custom_components/solax_cloud_api/__init__.py:153-194 | the serial list is the deduplicated entry list, and the seed is the reload seed when a reload state was popped, the preflight seed when the pending state matches, and empty otherwise |
| SetupEntry.SetupEntry | custom_components/solax_cloud_api/__init__.py:149-203 | the entry's reload state is consumed; without one a matching pending state is consumed and any other is kept; the coordinator gets the deduplicated serials, the scan interval, the seeded dict payloads and the casefolds of the restricted first refresh |
| Readings.AddValue | custom_components/solax_cloud_api/sensor.py:421 | a sum that has raised stays raised |
| Readings.Plus | custom_components/solax_cloud_api/sensor.py:428 | adding a partial total gives a number exactly when both sides are numbers |
| Readings.SumPresentRaisesIff | custom_components/solax_cloud_api/sensor.py:309-313 | the sum of the values that are not None is never None, and raises exactly when one of them is not a number |
| Readings.SumNothingPresent | custom_components/solax_cloud_api/sensor.py:309-313 | with no value present the sum is 0 |
| Readings.SumPresentAppend | custom_components/solax_cloud_api/sensor.py:309-313 | summing two runs of keys is adding their two sums |
| Readings.SumChannels | custom_components/solax_cloud_api/sensor.py:423-427 | the DC loop over `powerdc1`..`powerdc4` returns exactly the sum of the channels that are not None |
| Readings.SumRaisesStays | custom_components/solax_cloud_api/sensor.py:309-313 | once the running sum has raised the whole sum raises, so the loop may stop there |
| Sensors.PresentFields | custom_components/solax_cloud_api/sensor.py:32-35 | the available fields are exactly the result fields the record holds with a value that is not None, in order |
| Sensors.AvailableFieldsIff | custom_components/solax_cloud_api/sensor.py:29-35 | a field gets a sensor exactly when it is a result field and either the serial has no record or its record holds a value for it |
| Sensors.FieldSensorsMembers | custom_components/solax_cloud_api/sensor.py:38-42 | the field loop creates one sensor of this serial per listed field and nothing else |
| Sensors.AddFieldSensors | custom_components/solax_cloud_api/sensor.py:38-42 | the inner loop appends exactly one field sensor per field, in order |
| Sensors.AddInverterEntities | custom_components/solax_cloud_api/sensor.py:26-51 | one turn of the serial loop appends the field sensors, then the efficiency sensor, then the DC-total sensor of that serial |
| Sensors.SetupEntities | custom_components/solax_cloud_api/sensor.py:14-60 | setup fails exactly when the system name is missing, and otherwise creates exactly the specified entity list |
| Sensors.PerInverterMembers | custom_components/solax_cloud_api/sensor.py:26-51 | the serial loop creates a field sensor for exactly the available fields of each serial, one efficiency and one DC-total sensor per serial, and no total |
| Sensors.EntitiesMembers | custom_components/solax_cloud_api/sensor.py:26-59 | the setup creates the per-serial sensors as above and the system totals exactly when some serial has a non-empty record |
| Sensors.SystemTotalsMembers | custom_components/solax_cloud_api/sensor.py:54-59 | the totals block creates one sensor of every metric and only totals |
| Sensors.FieldSensorAgreement | custom_components/solax_cloud_api/sensor.py:106-162 | without a record a field sensor is unavailable and a numeric one reads 0; an error record makes it unavailable with state None; for mapped and numeric fields availability is exactly a state other than None; an available mapped field reads its text, any other its raw value |
| Sensors.ComputedSensorState | custom_components/solax_cloud_api/sensor.py:302-322 | the DC-total state loop returns exactly the specified state: 0 without a record, 0 or None by `acpower` when no DC key is there, else the channel sum |
| Sensors.ComputedStateIsSum | custom_components/solax_cloud_api/sensor.py:302-322 | a record with a DC key reads the sum of its channels that are not None, which raises exactly when one of them is not a number |
| Sensors.ActiveCount | custom_components/solax_cloud_api/sensor.py:364-370 | no more serials are counted active than are configured |
| Sensors.CountActiveInverters | custom_components/solax_cloud_api/sensor.py:364-370 | the counting loop returns exactly the number of serials whose record is error-free with an `acpower` value |
| Sensors.ActiveCountFacts | custom_components/solax_cloud_api/sensor.py:364-370 | a serial counts as active exactly when its `acpower` field sensor is available; all are counted exactly when every serial is active and none exactly when none is |
| Sensors.SystemTotalAvailable | custom_components/solax_cloud_api/sensor.py:372-388 | a total is available exactly when some serial's non-empty record, error or not, reports its metric |
| Sensors.SystemTotalState | custom_components/solax_cloud_api/sensor.py:406-430 | the totals loop returns exactly the specified sum over the error-free records, stopping once the sum raises |
| Sensors.SystemSumRaisesStays | custom_components/solax_cloud_api/sensor.py:406-430 | once a partial total has raised the whole total raises |
| Sensors.TotalIsSumOfFieldSensors | custom_components/solax_cloud_api/sensor.py:406-421 | the ac and yield totals equal the sum of the states of the available per-serial sensors of that field |
| Sensors.DcTotalIsSumOfInverterTotals | custom_components/solax_cloud_api/sensor.py:422-428 | the DC total equals the sum of the available per-serial DC-total sensors, a None state counting as nothing |
| MultiSensors.FieldSensorAgreement | custom_components/solax_multi/sensor.py:102-137 | without a record a field sensor is available with no state; an error record makes it unavailable with no state; on a record it is available exactly when it has a state, a numeric field showing its raw value and a status field its table text or `Unknown (...)` |
| MultiSensors.ComputedSensorState | custom_components/solax_multi/sensor.py:230-240 | the DC-total state is None without a record and otherwise exactly the sum of the DC values that are not None |
| MultiSensors.DcValues | custom_components/solax_multi/sensor.py:48 | the creation rule reads one value per DC channel |
| MultiSensors.CreatedDcTotalFacts | custom_components/solax_multi/sensor.py:46-53 | a DC-total sensor is created exactly for a record on which it is available; its state is then always a sum, which raises exactly when some present DC value is not a number |
| MultiSensors.SetupAsWrittenRaises | custom_components/solax_multi/sensor.py:36-51 | the setup as written fails whenever the first serial has a field sensor to create, because the name it passes is not bound yet |
| MultiSensors.SetupAsWrittenRaisesWithoutData | custom_components/solax_multi/sensor.py:28-42 | in particular it fails whenever the first serial has no record on the first refresh and there are result fields |
| MultiSensors.SetupEntities | custom_components/solax_multi/sensor.py:14-60 | the setup with the name bound before the field loop always completes with exactly the specified entity list |
| MultiSensors.AddInverterEntities | custom_components/solax_multi/sensor.py:25-53 | one turn of the serial loop appends the field sensors, then a DC-total sensor exactly when the record has some DC value |
| MultiSensors.PerInverterMembers | custom_components/solax_multi/sensor.py:25-53 | every serial gets a field sensor for exactly its available fields and a DC-total sensor exactly under the creation rule, and there is no efficiency sensor |
| MultiSensors.EntitiesTotals | custom_components/solax_multi/sensor.py:56-60 | the four totals are created exactly when some serial has a non-empty record, and there is never an efficiency total |
| MultiSensors.SystemTotalState | custom_components/solax_multi/sensor.py:313-339 | the totals loop returns exactly the specified sum over every dict record, error or not, stopping once the sum raises |
| MultiSensors.SystemSumRaisesStays | custom_components/solax_multi/sensor.py:313-339 | once a partial total has raised the whole total raises |
| MultiSensors.SameTotalsWithoutErrors | custom_components/solax_multi/sensor.py:316-319 | without error records the legacy totals equal the main integration's |
| MultiSensors.ErrorRecordCounts | custom_components/solax_multi/sensor.py:316-323 | an error record still adds its value to the legacy total where the main integration adds nothing |
| MultiSensors.DcTotalIsSumOfInverterTotals | custom_components/solax_multi/sensor.py:324-330 | the system DC total equals the sum of the per-serial DC-total states over the serials with a record |
| TranslationKeys.SplitCamel | scripts/check_translation_keys.py:37 | the camel-case split keeps a non-empty key non-empty and its first character unchanged |
| TranslationKeys.SplitCamelLeavesNone | scripts/check_translation_keys.py:37 | after the split no lower-case letter or digit is followed by an upper-case letter |
| TranslationKeys.CollapseWords | scripts/check_translation_keys.py:38 | after collapsing, every character is a letter, a digit, `_` or `-` |
| TranslationKeys.CollapseRun | scripts/check_translation_keys.py:38 | a maximal run of other characters between two word characters becomes exactly one `_` |
| TranslationKeys.StripEdges | scripts/check_translation_keys.py:39 | the result neither starts nor ends with `_` or `-`, and a key that did neither is left as it is |
| TranslationKeys.NormalizeShape | scripts/check_translation_keys.py:36-39 | a normalised key uses only lower-case letters, digits, `_` and `-` and neither starts nor ends with `_` or `-` |
| TranslationKeys.NormalizedIsValid | scripts/check_translation_keys.py:17-39 | every non-empty normalised key passes the key-format check |
| TranslationKeys.NormalizeIdempotent | scripts/check_translation_keys.py:36-39 | normalising a normalised key changes nothing |
| TranslationKeys.NormalizeNonEmpty | scripts/check_translation_keys.py:36-39 | a key that starts with a letter or digit never normalises to the empty string |
| TranslationKeys.NormalizeCamelPair | scripts/check_translation_keys.py:36-39 | a lower-case word followed by an upper-case word normalises to the two words joined by `_` in lower case |
| TranslationKeys.StartLowerValid | scripts/check_translation_keys.py:57-58 | keys that start with a lower-case letter all normalise to valid keys |
| TranslationKeys.ExpectedKeysValid | scripts/check_translation_keys.py:52-59 | when every result field starts with a lower-case letter, every expected sensor key is a valid key, so a file holding exactly the expected keys has no format issue |
| TranslationKeys.ResultFieldKeysValid | scripts/check_translation_keys.py:20-33 | with the result fields of the main integration and the extra sensor keys, every expected key is valid |
| TranslationKeys.LessTransitive | scripts/check_translation_keys.py:71 | the code-point order of strings that `sorted` uses is transitive |
| TranslationKeys.LessTotal | scripts/check_translation_keys.py:71 | any two different strings are ordered one way or the other |
| TranslationKeys.Insert | scripts/check_translation_keys.py:71 | inserting into a strictly sorted list keeps it strictly sorted and adds exactly the new key |
| TranslationKeys.ListsUnique | scripts/check_translation_keys.py:71 | a set of keys has only one strictly sorted listing |
| TranslationKeys.SortedKeys | scripts/check_translation_keys.py:71 | the sorted listing holds exactly the keys of the set, in strictly increasing order |
| TranslationKeys.SortKeys | scripts/check_translation_keys.py:71-83 | sorting a key set by insertion yields exactly its one strictly sorted listing |
| TranslationKeys.BaselineKeys | scripts/check_translation_keys.py:116-120 | the baseline key set exists exactly when some file is named `en.json` |
| TranslationKeys.FileIssuesEmpty | scripts/check_translation_keys.py:62-94 | a file has no issue exactly when its sensors are an object, every key has a valid format, every expected key is there and the switch name is set |
| TranslationKeys.FileIssuesReport | scripts/check_translation_keys.py:62-94 | a file whose sensors are not an object yields exactly one issue and no keys; every issue names its file, and the key lists it reports are the sorted invalid keys and the sorted missing expected keys |
| TranslationKeys.CheckTranslationFile | scripts/check_translation_keys.py:62-94 | the file check returns exactly the specified issues in order and the file's key set (empty when the sensors are not an object) |
| TranslationKeys.AllFileIssuesEmpty | scripts/check_translation_keys.py:111-114 | the first loop reports nothing exactly when every file is clean |
| TranslationKeys.LanguageIssueEmpty | scripts/check_translation_keys.py:122-135 | a file adds no comparison issue exactly when it is the baseline or has exactly the baseline's keys |
| TranslationKeys.LanguageIssuesEmpty | scripts/check_translation_keys.py:122-135 | the comparison loop reports nothing exactly when every file other than the baseline has the baseline's keys |
| TranslationKeys.GuardPassesIff | scripts/check_translation_keys.py:101-147 | the guard exits with 0 exactly when there is a file, every file is clean, `en.json` exists, and every other file has exactly its key set |
| TranslationKeys.CheckAllFiles | scripts/check_translation_keys.py:111-120 | the first loop collects exactly the file issues in order, records each file's key set by name, and finds the baseline key set |
| TranslationKeys.RecordKeys | scripts/check_translation_keys.py:114 | recording one more file's key set keeps the map of key sets faithful to the files read so far |
| TranslationKeys.CompareAll | scripts/check_translation_keys.py:122-135 | the comparison loop reports exactly the specified missing and extra key issues, in file order |
| TranslationKeys.CompareWithBaseline | scripts/check_translation_keys.py:123-135 | one comparison skips the baseline and otherwise reports the sorted missing keys, then the sorted extra keys |
| TranslationKeys.RunGuard | scripts/check_translation_keys.py:101-147 | the exit status and the reported issues are exactly the specified ones, failing with no issue listed when there is no file |

## Left out

- Preflight.TokenInvalidIff: the whole preflight runs under a 20-second limit that also covers the 0.2 s pauses between serials, and it returns None when that limit expires or when any other exception escapes the loop; neither the clock nor those exceptions are modelled, so these two None results are not covered.
- HTTP and JSON parsing: the aiohttp session, the per-request timeouts, `_fetch_one` and `_test_api_connection` in both flows. Each reply is a parameter of one of the three shapes a fetch returns, and the token test is a boolean parameter.
- Real waiting and the event-loop clock: the cycle time is a parameter, and the pacing pauses are computed as values, not slept.
- The Home Assistant framework: coordinator scheduling and listeners, config-entry update, reload and unload, the persistent-notification calls (the model computes the body, or None where the notification is dismissed), service registration, entity registry, unique ids, device info and logging.
- Form rendering in both flows: schemas, placeholders and acknowledge labels. A step is modelled from the form's submitted values onwards.
- custom_components/solax_cloud_api/config_flow.py, an older UI-only flow, is not part of this model; neither is custom_components/solax_cloud_api/switch.py, a thin wrapper over an entry option.
- custom_components/solax_multi/const.py is not part of this model: the legacy integration's result fields, numeric fields and status tables are parameters of `MultiSensors`.
- The inverter and system efficiency sensors: floating-point division and `round(..., 1)`. The model creates these entities but does not compute their state or availability, so `Sensors.SystemTotalState` and `Sensors.SystemSum` require a metric other than system efficiency.
- The rounding of `retry_in_seconds` in the rate-limit details.
- Floating point in general: numbers are Dafny reals, so there is no rounding and no overflow. `str()` of a non-integral float is rendered with up to 17 decimal digits, not with Python's shortest round-trip repr.
- `str.lower()` and `str.casefold()` are modelled on ASCII letters only; every other character is kept as it is. `str.strip()` uses Python's full whitespace set.
- The mapped extra state attributes of the legacy field sensors.
- The guard script's file discovery, file reading and JSON loading. Each language file is given as its name, its `entity.sensor` key set (or none when that is not an object) and the switch name. The AttributeError Python raises when `entity` or an intermediate value is not an object is not modelled, and neither is the printed message text.
- TranslationKeys.RunGuard: takes `RESULT_FIELDS` as a parameter instead of reading it from const.py, so the TypeError raised when it is not a list is not modelled.
- TranslationKeys.RunGuard: requires distinct file names, which files listed from one directory always have.
- The regular expressions of the guard script are replaced by explicit character predicates over ASCII.
- ConfigFlow.OptionsFlow.Save: the entity prefix is kept from the entry's data. The fallback the code uses when an entry has no stored prefix (the slug of its stored name) is not modelled, because an entry created by either flow always has a prefix.
- ConfigFlow.InvalidNoticeDetails: leaves out listed serials that have no observed detail, where the code stores an empty dict for them. `ConfigFlow.InvalidNoticeDetailsAgree` proves that the notice text is the same either way.

## Findings

| source | as written | input that shows it | evidently intended | confidence | as-written member | corrected member |
|---|---|---|---|---|---|---|
| custom_components/solax_multi/sensor.py:42 | the field-sensor constructor is passed `human_name`, a local of `async_setup_entry` that is first assigned at line 51, when a DC-total sensor is created, so building the first field sensor raises UnboundLocalError | a configured serial list whose first serial has no record on the first refresh (then every result field gets a sensor), or whose first record has any result field with a value | bind a name for the field sensor before the field loop, so that setup creates the field sensors, the DC-total sensors and the totals | not executed | MultiSensors.SetupAsWrittenRaises | MultiSensors.SetupEntities |
