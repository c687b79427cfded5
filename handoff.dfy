/**
  What the config and options flows leave behind for `async_setup_entry`: the
  entry data, the key a pending first-setup state is matched by, the reload
  state of an options change, and the shared runtime store holding them.
 */
module Handoff {
  import opened Values
  import opened Records
  import Text
  import Serials
  import Preflight

  const DefaultScanInterval: nat := 120

  /** The five keys a config entry's data holds. */
  datatype EntryData = EntryData(
    token: string,
    inverters: seq<string>,
    scanInterval: nat,
    systemName: string,
    entityPrefix: string)

  /** The `match` part of the pending first-setup state. */
  datatype SetupMatch = SetupMatch(token: string, inverters: seq<string>, scanInterval: nat, systemName: string)

  /** `{"match": ..., "state": ...}`: the preflight result kept from the config flow for the first setup. */
  datatype PendingSetup = PendingSetup(matchKey: SetupMatch, state: Preflight.Tally)

  /** `{"data": ..., "added_inverters": ..., "token_changed": ...}` written by the options flow before a reload. */
  datatype ReloadState = ReloadState(data: map<string, Record>, addedInverters: seq<string>, tokenChanged: bool)

  /** `_build_initial_setup_match`. */
  function BuildInitialSetupMatch(entry: EntryData): SetupMatch {
    SetupMatch(Text.Strip(entry.token), Serials.Dedupe(entry.inverters), entry.scanInterval, entry.systemName)
  }

  /** The match key holds a stripped token and a deduplicated serial list, and rebuilding it changes nothing. */
  lemma BuildInitialSetupMatchShape(entry: EntryData)
    ensures var m := BuildInitialSetupMatch(entry);
      && Text.IsStripped(m.token)
      && Serials.IsDeduped(m.inverters)
      && m.scanInterval == entry.scanInterval && m.systemName == entry.systemName
      && BuildInitialSetupMatch(EntryData(m.token, m.inverters, m.scanInterval, m.systemName, entry.entityPrefix)) == m
  {
    var m := BuildInitialSetupMatch(entry);
    Serials.DedupeValid(entry.inverters);
    Serials.DedupeIdempotent(entry.inverters);
    Text.StripIdempotentSpace(entry.token);
  }

  /**
    `hass.data[RUNTIME_RELOAD_STATE]`: the reload states by entry id and the pending
    first-setup state (kept under its own key of the same dictionary).
   */
  class Runtime {
    var reloadStates: map<string, ReloadState>
    var pendingInitialSetup: Option<PendingSetup>

    constructor ()
      ensures reloadStates == map[] && pendingInitialSetup == None
    {
      reloadStates := map[];
      pendingInitialSetup := None;
    }

    /** `hass.data[RUNTIME_RELOAD_STATE][entry_id] = state`. */
    method StoreReloadState(entryId: string, state: ReloadState)
      modifies this
      ensures reloadStates == old(reloadStates)[entryId := state]
      ensures pendingInitialSetup == old(pendingInitialSetup)
    {
      reloadStates := reloadStates[entryId := state];
    }
  }
}
