/** What the services keep in the shared vault, and under which names. */
module Storage {
  import opened Prelude
  import JobQueueSpec
  import TokenSpec
  import OAuthSpec

  datatype OwnerToken = OwnerToken(
    owner: string, accessToken: string, scopes: seq<string>, tokenType: string, updatedAt: int)

  datatype Value =
    | JobState(snapshot: JobQueueSpec.Snapshot)
    | SigningState(ring: TokenSpec.Ring)
    | RefreshState(sessions: TokenSpec.Sessions)
    | OAuthState(pending: OAuthSpec.Pending)
    | OwnerState(token: OwnerToken)

  type Entries = map<string, Value>

  const JOB_KEY := "background_job_queue_state"
  const SIGNING_KEY := "jwt_signing_state"
  const REFRESH_KEY := "refresh_sessions"
  const OAUTH_STATE_PREFIX := "github_oauth_state::"
  const OWNER_PREFIX := "oauth::"

  function OAuthStateKey(state: string): string {
    OAUTH_STATE_PREFIX + state
  }

  function OwnerKey(provider: string, owner: string): string {
    OWNER_PREFIX + Lower(provider) + "::" + Lower(owner)
  }

  /** The five key spaces are pairwise disjoint, whatever state, provider or owner
      is used, and different states have different keys. */
  lemma KeySpacesAreDisjoint(state: string, other: string, provider: string, owner: string)
    ensures var fixed := {JOB_KEY, SIGNING_KEY, REFRESH_KEY};
            && fixed == {"background_job_queue_state", "jwt_signing_state", "refresh_sessions"} && |fixed| == 3
            && OAuthStateKey(state) == "github_oauth_state::" + state
            && OwnerKey(provider, owner) == "oauth::" + Lower(provider) + "::" + Lower(owner)
            && OAuthStateKey(state) !in fixed && OwnerKey(provider, owner) !in fixed
            && OAuthStateKey(state) != OwnerKey(provider, owner)
            && (OAuthStateKey(state) == OAuthStateKey(other) <==> state == other)
  {
    assert JOB_KEY[0] == 'b' && SIGNING_KEY[0] == 'j' && REFRESH_KEY[0] == 'r';
    assert OAuthStateKey(state)[0] == 'g' && OwnerKey(provider, owner)[0] == 'o';
    var fixed := {JOB_KEY, SIGNING_KEY, REFRESH_KEY};
    assert fixed - {JOB_KEY} == {SIGNING_KEY, REFRESH_KEY};
    assert fixed - {JOB_KEY} - {SIGNING_KEY} == {REFRESH_KEY};
    assert OAuthStateKey(state)[|OAUTH_STATE_PREFIX|..] == state;
    assert OAuthStateKey(other)[|OAUTH_STATE_PREFIX|..] == other;
  }

  // ---- Each service's own part of the entries ----

  function SavedJobs(m: Entries): JobQueueSpec.Snapshot {
    if JOB_KEY in m && m[JOB_KEY].JobState? then m[JOB_KEY].snapshot else JobQueueSpec.EMPTY
  }

  function SavedRing(m: Entries): Option<TokenSpec.Ring> {
    if SIGNING_KEY in m && m[SIGNING_KEY].SigningState? then Some(m[SIGNING_KEY].ring) else None
  }

  function SavedSessions(m: Entries): TokenSpec.Sessions {
    if REFRESH_KEY in m && m[REFRESH_KEY].RefreshState? then m[REFRESH_KEY].sessions else map[]
  }

  function SavedState(m: Entries, state: string): Option<OAuthSpec.Pending> {
    var k := OAuthStateKey(state);
    if k in m && m[k].OAuthState? then Some(m[k].pending) else None
  }

  ghost function StateNames(m: Entries): set<string> {
    set k | k in m && OAUTH_STATE_PREFIX <= k && m[k].OAuthState? :: k[|OAUTH_STATE_PREFIX|..]
  }

  ghost function SavedStates(m: Entries): OAuthSpec.Store {
    map state | state in StateNames(m) && SavedState(m, state).Some? :: SavedState(m, state).value
  }

  /** The store of OAuth states is read off the prefixed entries, one by one. */
  lemma SavedStatesLookup(m: Entries, state: string)
    ensures OAuthSpec.Lookup(SavedStates(m), state) == SavedState(m, state)
  {
    var k := OAuthStateKey(state);
    assert k[|OAUTH_STATE_PREFIX|..] == state;
    if k in m && m[k].OAuthState? {
      assert state in StateNames(m);
    }
  }

  lemma SavedStatesEqual(m: Entries, store: OAuthSpec.Store)
    requires forall state :: SavedState(m, state) == OAuthSpec.Lookup(store, state)
    ensures SavedStates(m) == store
  {
    forall state ensures (state in SavedStates(m) <==> state in store)
                      && (state in store ==> SavedStates(m)[state] == store[state]) {
      SavedStatesLookup(m, state);
      assert SavedState(m, state) == OAuthSpec.Lookup(store, state);
    }
  }

  lemma SettingAState(m: Entries, state: string, pending: OAuthSpec.Pending)
    ensures SavedStates(m[OAuthStateKey(state) := OAuthState(pending)]) == SavedStates(m)[state := pending]
  {
    var m' := m[OAuthStateKey(state) := OAuthState(pending)];
    forall other ensures SavedState(m', other) == OAuthSpec.Lookup(SavedStates(m)[state := pending], other) {
      SavedStatesLookup(m, other);
      KeySpacesAreDisjoint(state, other, "", "");
    }
    SavedStatesEqual(m', SavedStates(m)[state := pending]);
  }

  lemma DeletingAState(m: Entries, state: string)
    ensures SavedStates(m - {OAuthStateKey(state)}) == SavedStates(m) - {state}
  {
    var m' := m - {OAuthStateKey(state)};
    forall other ensures SavedState(m', other) == OAuthSpec.Lookup(SavedStates(m) - {state}, other) {
      SavedStatesLookup(m, other);
      KeySpacesAreDisjoint(state, other, "", "");
    }
    SavedStatesEqual(m', SavedStates(m) - {state});
  }

  // ---- What a service leaves alone when it writes under its own keys ----

  datatype Views = Views(
    jobs: JobQueueSpec.Snapshot, ring: Option<TokenSpec.Ring>, sessions: TokenSpec.Sessions, states: OAuthSpec.Store)

  ghost function ViewsOf(m: Entries): Views {
    Views(SavedJobs(m), SavedRing(m), SavedSessions(m), SavedStates(m))
  }

  ghost function BesidesJobs(m: Entries): (Entries, Views) {
    (m - {JOB_KEY}, ViewsOf(m).(jobs := JobQueueSpec.EMPTY))
  }

  ghost function BesidesTokens(m: Entries): (Entries, Views) {
    (m - {SIGNING_KEY, REFRESH_KEY}, ViewsOf(m).(ring := None, sessions := map[]))
  }

  ghost function BesidesState(m: Entries, state: string): (Entries, Views) {
    (m - {OAuthStateKey(state)}, ViewsOf(m).(states := SavedStates(m) - {state}))
  }

  ghost function BesidesOwner(m: Entries, provider: string, owner: string): (Entries, Views) {
    (m - {OwnerKey(provider, owner)}, ViewsOf(m))
  }

  lemma EntryIsKept(m: Entries, m': Entries, keys: set<string>, k: string)
    requires m' - keys == m - keys && k !in keys
    ensures k in m <==> k in m'
    ensures k in m ==> m'[k] == m[k]
  {
    assert k in m <==> k in m - keys;
    assert k in m' <==> k in m' - keys;
  }

  lemma StatesAreKept(m: Entries, m': Entries, keys: set<string>)
    requires m' - keys == m - keys && forall state :: OAuthStateKey(state) !in keys
    ensures SavedStates(m') == SavedStates(m)
  {
    forall state ensures SavedState(m', state) == OAuthSpec.Lookup(SavedStates(m), state) {
      SavedStatesLookup(m, state);
      EntryIsKept(m, m', keys, OAuthStateKey(state));
    }
    SavedStatesEqual(m', SavedStates(m));
  }

  lemma FixedKeysAreNoStates(keys: set<string>, provider: string, owner: string)
    requires keys <= {JOB_KEY, SIGNING_KEY, REFRESH_KEY, OwnerKey(provider, owner)}
    ensures forall state :: OAuthStateKey(state) !in keys
  {
    forall state ensures OAuthStateKey(state) !in keys {
      KeySpacesAreDisjoint(state, state, provider, owner);
    }
  }

  lemma JobKeyIsPrivate(m: Entries, m': Entries)
    requires m' - {JOB_KEY} == m - {JOB_KEY}
    ensures BesidesJobs(m') == BesidesJobs(m)
  {
    KeySpacesAreDisjoint("", "", "", "");
    FixedKeysAreNoStates({JOB_KEY}, "", "");
    StatesAreKept(m, m', {JOB_KEY});
    EntryIsKept(m, m', {JOB_KEY}, SIGNING_KEY);
    EntryIsKept(m, m', {JOB_KEY}, REFRESH_KEY);
  }

  lemma TokenKeysArePrivate(m: Entries, m': Entries)
    requires m' - {SIGNING_KEY, REFRESH_KEY} == m - {SIGNING_KEY, REFRESH_KEY}
    ensures BesidesTokens(m') == BesidesTokens(m)
  {
    KeySpacesAreDisjoint("", "", "", "");
    FixedKeysAreNoStates({SIGNING_KEY, REFRESH_KEY}, "", "");
    StatesAreKept(m, m', {SIGNING_KEY, REFRESH_KEY});
    EntryIsKept(m, m', {SIGNING_KEY, REFRESH_KEY}, JOB_KEY);
  }

  lemma FixedEntriesAreKept(m: Entries, m': Entries, k: string)
    requires m' - {k} == m - {k} && k !in {JOB_KEY, SIGNING_KEY, REFRESH_KEY}
    ensures SavedJobs(m') == SavedJobs(m) && SavedRing(m') == SavedRing(m) && SavedSessions(m') == SavedSessions(m)
  {
    EntryIsKept(m, m', {k}, JOB_KEY);
    EntryIsKept(m, m', {k}, SIGNING_KEY);
    EntryIsKept(m, m', {k}, REFRESH_KEY);
  }

  lemma StateKeyIsPrivate(m: Entries, m': Entries, state: string)
    requires m' - {OAuthStateKey(state)} == m - {OAuthStateKey(state)}
    ensures BesidesState(m', state) == BesidesState(m, state)
  {
    KeySpacesAreDisjoint(state, state, "", "");
    FixedEntriesAreKept(m, m', OAuthStateKey(state));
    DeletingAState(m, state);
    DeletingAState(m', state);
  }

  lemma OwnerKeyIsPrivate(m: Entries, m': Entries, provider: string, owner: string)
    requires m' - {OwnerKey(provider, owner)} == m - {OwnerKey(provider, owner)}
    ensures BesidesOwner(m', provider, owner) == BesidesOwner(m, provider, owner)
  {
    var key := OwnerKey(provider, owner);
    KeySpacesAreDisjoint("", "", provider, owner);
    FixedKeysAreNoStates({key}, provider, owner);
    StatesAreKept(m, m', {key});
    FixedEntriesAreKept(m, m', key);
  }
}
