/**
  The hand-off in `async_setup_entry`: a new coordinator is seeded either from the
  reload state an options change left for this entry (consumed once), or from the
  pending first-setup preflight when it matches the entry (consumed once), or not at all.
 */
module SetupEntry {
  import opened Values
  import opened Records
  import Text
  import Serials
  import Preflight
  import Coordinator
  import Handoff

  /** `_matches_pending_initial_setup`: equal stripped tokens and equal casefold sets of the deduplicated serials. */
  predicate MatchesPendingInitialSetup(entry: Handoff.EntryData, pending: Handoff.PendingSetup) {
    && Text.Strip(entry.token) == Text.Strip(pending.matchKey.token)
    && Serials.FoldSet(Serials.Dedupe(entry.inverters)) == Serials.FoldSet(Serials.Dedupe(pending.matchKey.inverters))
  }

  /** The match, stated without the deduplication: same stripped token, same served casefolds. */
  lemma MatchIff(entry: Handoff.EntryData, pending: Handoff.PendingSetup)
    ensures MatchesPendingInitialSetup(entry, pending) <==>
      Text.Strip(entry.token) == Text.Strip(pending.matchKey.token)
      && Serials.ServedFolds(entry.inverters) == Serials.ServedFolds(pending.matchKey.inverters)
  {
    Serials.DedupeKeys(entry.inverters);
    Serials.DedupeKeys(pending.matchKey.inverters);
  }

  /** Order and repetition of the entry's serials do not matter to the match. */
  lemma MatchIgnoresOrder(entry: Handoff.EntryData, other: seq<string>, pending: Handoff.PendingSetup)
    requires forall s :: s in other <==> s in entry.inverters
    ensures MatchesPendingInitialSetup(entry, pending) <==>
      MatchesPendingInitialSetup(entry.(inverters := other), pending)
  {
    MatchIff(entry, pending);
    MatchIff(entry.(inverters := other), pending);
    assert Serials.ServedFolds(other) == Serials.ServedFolds(entry.inverters);
  }

  /** The state the config flow stashes for an entry matches that entry. */
  lemma MatchOwnEntry(entry: Handoff.EntryData, state: Preflight.Tally)
    ensures MatchesPendingInitialSetup(entry, Handoff.PendingSetup(Handoff.BuildInitialSetupMatch(entry), state))
  {
    Text.StripIdempotentSpace(entry.token);
    Serials.DedupeIdempotent(entry.inverters);
  }

  /** What the coordinator is built with. */
  datatype Seed = Seed(initialData: map<string, Record>, initialRefresh: Option<seq<string>>)

  /** The dict payloads of `cached` whose serial's casefold is configured. */
  function SeededPayloads(cached: map<string, Record>, configured: set<string>): map<string, Record> {
    map k | k in cached && Text.Fold(k) in configured && IsDict(cached[k]) :: cached[k]
  }

  /** The casefolds of a map's serials. */
  function KeyFolds(m: map<string, Record>): set<string> {
    set k | k in m :: Text.Fold(k)
  }

  /** Seeding from a reload state. */
  function ReloadSeed(inverters: seq<string>, reload: Handoff.ReloadState): Seed {
    if reload.tokenChanged then Seed(map[], None)
    else
      var configured := Serials.FoldSet(inverters);
      Seed(SeededPayloads(reload.data, configured),
           Some(Serials.SelectByFold(reload.addedInverters, configured, true)))
  }

  /** Seeding from a matching preflight state. */
  function PreflightSeed(inverters: seq<string>, state: Preflight.Tally): Seed {
    var initialData := SeededPayloads(state.data, Serials.FoldSet(inverters));
    var known := KeyFolds(initialData);
    Seed(initialData, Some(Serials.SelectByFold(inverters, known, false)))
  }

  /** Which seed the entry gets from the runtime store as it was found. */
  function SeedFor(entry: Handoff.EntryData, reload: Option<Handoff.ReloadState>, pending: Option<Handoff.PendingSetup>): Seed {
    var inverters := Serials.Dedupe(entry.inverters);
    if reload.Some? then ReloadSeed(inverters, reload.value)
    else if pending.Some? && MatchesPendingInitialSetup(entry, pending.value) then PreflightSeed(inverters, pending.value.state)
    else Seed(map[], None)
  }

  /** After a token change nothing is seeded and the first refresh is not restricted: every serial is polled. */
  lemma TokenChangePollsAll(entry: Handoff.EntryData, reload: Handoff.ReloadState, pending: Option<Handoff.PendingSetup>)
    requires reload.tokenChanged
    ensures SeedFor(entry, Some(reload), pending) == Seed(map[], None)
  {
  }

  /**
    Seeding from a reload state keeps only dict payloads of still-configured serials,
    and restricts the first refresh to the added serials that are still configured.
   */
  lemma ReloadSeedFacts(inverters: seq<string>, reload: Handoff.ReloadState)
    requires !reload.tokenChanged
    ensures var s := ReloadSeed(inverters, reload);
      && (forall k :: k in s.initialData <==>
            k in reload.data && Serials.SerialExists(k, inverters) && IsDict(reload.data[k]))
      && (forall k :: k in s.initialData ==> s.initialData[k] == reload.data[k])
      && s.initialRefresh.Some?
      && (forall sn :: sn in s.initialRefresh.value <==> sn in reload.addedInverters && Serials.SerialExists(sn, inverters))
  {
    forall k {
      Serials.SerialExistsIff(k, inverters);
    }
  }

  /**
    With a preflight seed every configured serial is either seeded from the preflight
    data or left to the first refresh, never both.
   */
  lemma PreflightSeedCovers(inverters: seq<string>, state: Preflight.Tally)
    requires Serials.IsDeduped(inverters)
    ensures var s := PreflightSeed(inverters, state);
      && s.initialRefresh.Some?
      && (forall k :: k in s.initialData ==> k in state.data && Serials.SerialExists(k, inverters) && IsDict(state.data[k]))
      && (forall sn :: sn in inverters ==>
            (Text.Fold(sn) in Serials.FoldSet(s.initialRefresh.value) <==> Text.Fold(sn) !in KeyFolds(s.initialData)))
  {
    var s := PreflightSeed(inverters, state);
    var known := KeyFolds(s.initialData);
    var refresh := s.initialRefresh.value;
    forall k | k in s.initialData
      ensures Serials.SerialExists(k, inverters)
    {
      Serials.SerialExistsIff(k, inverters);
    }
    forall sn | sn in inverters
      ensures Text.Fold(sn) in Serials.FoldSet(refresh) <==> Text.Fold(sn) !in known
    {
      if Text.Fold(sn) in Serials.FoldSet(refresh) {
        var r :| r in refresh && Text.Fold(r) == Text.Fold(sn);
        assert r in inverters && Text.Fold(r) !in known;
      }
      if Text.Fold(sn) !in known {
        assert sn in refresh;
      }
    }
  }

  /** The loop filling `initial_data` from a cached map. */
  method SeedPayloads(cached: map<string, Record>, configured: set<string>) returns (seeded: map<string, Record>)
    ensures seeded == SeededPayloads(cached, configured)
  {
    seeded := map[];
    var todo := cached.Keys;
    while todo != {}
      invariant todo <= cached.Keys
      invariant seeded == map k | k in cached.Keys - todo && Text.Fold(k) in configured && IsDict(cached[k]) :: cached[k]
      decreases todo
    {
      var serial :| serial in todo;
      if Text.Fold(serial) in configured && IsDict(cached[serial]) {
        seeded := seeded[serial := cached[serial]];
      }
      todo := todo - {serial};
    }
  }

  /** The serial list and the seed `async_setup_entry` computes from the states it popped. */
  method ComputeSeed(entry: Handoff.EntryData, reload: Option<Handoff.ReloadState>, pending: Option<Handoff.PendingSetup>)
    returns (inverters: seq<string>, seed: Seed)
    ensures inverters == Serials.Dedupe(entry.inverters)
    ensures seed == SeedFor(entry, reload, pending)
  {
    inverters := Serials.DedupeSerials(entry.inverters);
    seed := Seed(map[], None);
    if reload.Some? {
      if !reload.value.tokenChanged {
        var configured := Serials.FoldSet(inverters);
        var initialData := SeedPayloads(reload.value.data, configured);
        seed := Seed(initialData, Some(Serials.SelectByFold(reload.value.addedInverters, configured, true)));
      }
    } else if pending.Some? && MatchesPendingInitialSetup(entry, pending.value) {
      var initialData := SeedPayloads(pending.value.state.data, Serials.FoldSet(inverters));
      var known := KeyFolds(initialData);
      seed := Seed(initialData, Some(Serials.SelectByFold(inverters, known, false)));
    }
  }

  /**
    `async_setup_entry` up to the construction of the coordinator: the entry's reload
    state is popped; without one, a matching pending first-setup state is popped.
   */
  method SetupEntry(runtime: Handoff.Runtime, entryId: string, entry: Handoff.EntryData)
    returns (coordinator: Coordinator.SolaxCoordinator)
    modifies runtime
    ensures runtime.reloadStates == old(runtime.reloadStates) - {entryId}
    ensures runtime.pendingInitialSetup ==
      if entryId !in old(runtime.reloadStates) && old(runtime.pendingInitialSetup).Some?
         && MatchesPendingInitialSetup(entry, old(runtime.pendingInitialSetup).value)
      then None else old(runtime.pendingInitialSetup)
    ensures fresh(coordinator)
    ensures var seed := SeedFor(entry,
                                if entryId in old(runtime.reloadStates) then Some(old(runtime.reloadStates)[entryId]) else None,
                                old(runtime.pendingInitialSetup));
      && coordinator.inverters == Serials.Dedupe(entry.inverters)
      && coordinator.interval == entry.scanInterval as real
      && coordinator.data == Coordinator.DictPayloads(seed.initialData)
      && coordinator.initialRefreshInverters ==
           if seed.initialRefresh.Some? then Some(Serials.FoldSet(seed.initialRefresh.value)) else None
  {
    var reload: Option<Handoff.ReloadState> := None;
    var pending := runtime.pendingInitialSetup;
    if entryId in runtime.reloadStates {
      reload := Some(runtime.reloadStates[entryId]);
      runtime.reloadStates := runtime.reloadStates - {entryId};
    } else if pending.Some? && MatchesPendingInitialSetup(entry, pending.value) {
      runtime.pendingInitialSetup := None;
    }
    var inverters, seed := ComputeSeed(entry, reload, pending);
    coordinator := new Coordinator.SolaxCoordinator(inverters, entry.scanInterval, seed.initialData, seed.initialRefresh);
  }
}
