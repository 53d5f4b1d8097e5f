/** The services together on one vault: whatever the others do in between, each
    behaves as if it had the vault to itself. */
module Platform {
  import opened Prelude
  import opened Vault
  import opened Storage
  import J = JobQueueSpec
  import Own = JobQueueOwnership
  import T = TokenSpec
  import O = OAuthSpec

  datatype Config = Config(masterKey: string, retryBase: nat, tokens: T.Config, oauth: O.Config)

  /** The saved parts of `jobs` and `tokens` are not used: the vault has them. */
  datatype State = State(disk: Disk<Value>, jobs: J.State, tokens: T.State)

  datatype Event =
    | Jobs(job: J.Event)
    | Tokens(token: T.Event)
    | OAuth(oauth: O.Event)
    | StoreOwner(provider: string, owner: string, record: Value)
    | RotateMaster(masterKey: string)
    | ProcessRestart

  function Entries(s: State): Storage.Entries {
    match Read(s.disk)
    case Ok(data) => data
    case VaultError => map[]
  }

  function JobsView(s: State): J.State {
    s.jobs.(saved := SavedJobs(Entries(s)))
  }

  function TokensView(s: State): T.State {
    s.tokens.(savedRing := SavedRing(Entries(s)), sessions := SavedSessions(Entries(s)))
  }

  function JobsStep(c: Config, s: State, e: J.Event): State {
    var t := J.Step(c.retryBase, JobsView(s), e);
    var kept := t.saved == SavedJobs(Entries(s));
    s.(jobs := t, disk := if kept then s.disk else Apply(s.disk, Set(JOB_KEY, JobState(t.saved))))
  }

  function PutRing(d: Disk<Value>, before: Option<T.Ring>, after: Option<T.Ring>): Disk<Value> {
    if after == before || after.None? then d else Apply(d, Set(SIGNING_KEY, SigningState(after.value)))
  }

  function PutSessions(d: Disk<Value>, before: T.Sessions, after: T.Sessions): Disk<Value> {
    if after == before then d else Apply(d, Set(REFRESH_KEY, RefreshState(after)))
  }

  function TokensStep(c: Config, s: State, e: T.Event): State {
    var v := TokensView(s);
    var t := T.Step(c.tokens, v, e).1;
    s.(tokens := t, disk := PutSessions(PutRing(s.disk, v.savedRing, t.savedRing), v.sessions, t.sessions))
  }

  function OAuthStep(c: Config, s: State, e: O.Event): State {
    if !c.oauth.ready then s
    else
      match e
      case Begin(state, uri, _, _) =>
        if O.Resolved(c.oauth, uri) == "" then s
        else s.(disk := Apply(s.disk, Set(OAuthStateKey(state), OAuthState(O.NewPending(c.oauth, e)))))
      case Callback(state, _, _) => s.(disk := Apply(s.disk, Delete(OAuthStateKey(state))))
  }

  function Step(c: Config, s: State, e: Event): State {
    match e
    case Jobs(job) => JobsStep(c, s, job)
    case Tokens(token) => TokensStep(c, s, token)
    case OAuth(oauth) => OAuthStep(c, s, oauth)
    case StoreOwner(provider, owner, record) => s.(disk := Apply(s.disk, Set(OwnerKey(provider, owner), record)))
    case RotateMaster(masterKey) => s.(disk := Apply(s.disk, Op.RotateMasterKey(masterKey)))
    case ProcessRestart => JobsStep(c, TokensStep(c, s, T.Restart), J.Crash)
  }

  /** A first start on a vault file that does not exist yet. */
  function Init(c: Config, clock: real): State {
    var key := Derived(c.masterKey);
    var tokens := T.Boot(c.tokens, None, map[], 0, clock);
    State(Disk(Sealed(key, map[SIGNING_KEY := SigningState(tokens.ring)]), key), J.Boot(J.EMPTY, clock), tokens)
  }

  function Run(c: Config, clock: real, evs: seq<Event>): State {
    if evs == [] then Init(c, clock) else Step(c, Run(c, clock, evs[..|evs|-1]), evs[|evs|-1])
  }

  // ---- What each service sees of a run ----

  function JobEvents(evs: seq<Event>): seq<J.Event> {
    if evs == [] then []
    else
      var earlier := JobEvents(evs[..|evs|-1]);
      match evs[|evs|-1]
      case Jobs(job) => earlier + [job]
      case ProcessRestart => earlier + [J.Crash]
      case _ => earlier
  }

  function TokenEvents(evs: seq<Event>): seq<T.Event> {
    if evs == [] then []
    else
      var earlier := TokenEvents(evs[..|evs|-1]);
      match evs[|evs|-1]
      case Tokens(token) => earlier + [token]
      case ProcessRestart => earlier + [T.Restart]
      case _ => earlier
  }

  function OAuthEvents(evs: seq<Event>): seq<O.Event> {
    if evs == [] then []
    else
      var earlier := OAuthEvents(evs[..|evs|-1]);
      match evs[|evs|-1]
      case OAuth(oauth) => earlier + [oauth]
      case _ => earlier
  }

  // ---- Non-interference, step by step ----

  lemma JobsStepIsLocal(c: Config, s: State, e: J.Event)
    requires Read(s.disk).Ok?
    ensures var t := JobsStep(c, s, e);
            && Read(t.disk).Ok? && t.tokens == s.tokens
            && BesidesJobs(Entries(t)) == BesidesJobs(Entries(s))
            && JobsView(t) == J.Step(c.retryBase, JobsView(s), e)
            && TokensView(t) == TokensView(s)
            && SavedStates(Entries(t)) == SavedStates(Entries(s))
  {
    var t := JobsStep(c, s, e);
    assert Entries(t) - {JOB_KEY} == Entries(s) - {JOB_KEY};
    JobKeyIsPrivate(Entries(s), Entries(t));
  }

  lemma TokensStepIsLocal(c: Config, s: State, e: T.Event)
    requires Read(s.disk).Ok? && SavedRing(Entries(s)).Some?
    ensures var t := TokensStep(c, s, e);
            && Read(t.disk).Ok? && t.jobs == s.jobs
            && BesidesTokens(Entries(t)) == BesidesTokens(Entries(s))
            && SavedRing(Entries(t)).Some?
            && TokensView(t) == T.Step(c.tokens, TokensView(s), e).1
            && JobsView(t) == JobsView(s)
            && SavedStates(Entries(t)) == SavedStates(Entries(s))
  {
    var t := TokensStep(c, s, e);
    var v := TokensView(s);
    var after := T.Step(c.tokens, v, e).1;
    assert after.savedRing.Some?;
    var mid := PutRing(s.disk, v.savedRing, after.savedRing);
    assert Read(mid).Ok?;
    assert Entries(t) - {SIGNING_KEY, REFRESH_KEY} == Entries(s) - {SIGNING_KEY, REFRESH_KEY};
    TokenKeysArePrivate(Entries(s), Entries(t));
  }

  lemma OAuthStepIsLocal(c: Config, s: State, e: O.Event)
    requires Read(s.disk).Ok?
    ensures var t := OAuthStep(c, s, e);
            && Read(t.disk).Ok? && t.jobs == s.jobs && t.tokens == s.tokens
            && BesidesState(Entries(t), e.state) == BesidesState(Entries(s), e.state)
            && SavedStates(Entries(t)) == O.Step(c.oauth, SavedStates(Entries(s)), e).1
            && JobsView(t) == JobsView(s) && TokensView(t) == TokensView(s)
  {
    var t := OAuthStep(c, s, e);
    var key := OAuthStateKey(e.state);
    assert Entries(t) - {key} == Entries(s) - {key};
    StateKeyIsPrivate(Entries(s), Entries(t), e.state);
    if e.Begin? {
      SettingAState(Entries(s), e.state, O.NewPending(c.oauth, e));
    } else {
      DeletingAState(Entries(s), e.state);
      if key !in Entries(s) { assert Entries(s) - {key} == Entries(s); }
    }
  }

  lemma OwnerStepIsLocal(c: Config, s: State, provider: string, owner: string, record: Value)
    requires Read(s.disk).Ok?
    ensures var t := Step(c, s, StoreOwner(provider, owner, record));
            && Read(t.disk).Ok? && t.jobs == s.jobs && t.tokens == s.tokens
            && BesidesOwner(Entries(t), provider, owner) == BesidesOwner(Entries(s), provider, owner)
            && SavedStates(Entries(t)) == SavedStates(Entries(s))
            && JobsView(t) == JobsView(s) && TokensView(t) == TokensView(s)
  {
    var t := Step(c, s, StoreOwner(provider, owner, record));
    var key := OwnerKey(provider, owner);
    assert Entries(t) - {key} == Entries(s) - {key};
    OwnerKeyIsPrivate(Entries(s), Entries(t), provider, owner);
  }

  lemma RestartIsLocal(c: Config, s: State)
    requires Read(s.disk).Ok? && SavedRing(Entries(s)).Some?
    ensures var t := Step(c, s, ProcessRestart);
            && Read(t.disk).Ok? && SavedRing(Entries(t)).Some?
            && JobsView(t) == J.Step(c.retryBase, JobsView(s), J.Crash)
            && TokensView(t) == T.Step(c.tokens, TokensView(s), T.Restart).1
            && SavedStates(Entries(t)) == SavedStates(Entries(s))
  {
    TokensStepIsLocal(c, s, T.Restart);
    JobsStepIsLocal(c, TokensStep(c, s, T.Restart), J.Crash);
  }

  lemma MasterKeyIsLocal(c: Config, s: State, masterKey: string)
    requires Read(s.disk).Ok?
    ensures var t := Step(c, s, RotateMaster(masterKey));
            && Read(t.disk).Ok? && Entries(t) == Entries(s)
            && JobsView(t) == JobsView(s) && TokensView(t) == TokensView(s)
  {
  }

  lemma InitIsFresh(c: Config, clock: real)
    ensures var s := Init(c, clock);
            && Read(s.disk).Ok? && SavedRing(Entries(s)).Some?
            && JobsView(s) == J.Boot(J.EMPTY, clock)
            && TokensView(s) == T.Boot(c.tokens, None, map[], 0, clock)
            && SavedStates(Entries(s)) == map[]
  {
    var s := Init(c, clock);
    KeySpacesAreDisjoint("", "", "", "");
    Own.ReloadTwiceIsOnce(J.EMPTY);
    assert J.Missing(J.EMPTY) == {};
    forall state ensures SavedState(Entries(s), state) == None {
      KeySpacesAreDisjoint(state, state, "", "");
    }
    SavedStatesEqual(Entries(s), map[]);
  }

  lemma JobRunSnoc(base: nat, clock: real, xs: seq<J.Event>, x: J.Event)
    ensures J.Run(base, clock, xs + [x]) == J.Step(base, J.Run(base, clock, xs), x)
  {
    assert (xs + [x])[..|xs|] == xs;
  }

  lemma TokenRunSnoc(c: T.Config, clock: real, xs: seq<T.Event>, x: T.Event)
    ensures T.Run(c, clock, xs + [x]) == T.Step(c, T.Run(c, clock, xs), x).1
  {
    assert (xs + [x])[..|xs|] == xs;
  }

  lemma OAuthRunSnoc(c: O.Config, xs: seq<O.Event>, x: O.Event)
    ensures O.Run(c, xs + [x]) == O.Step(c, O.Run(c, xs), x).1
  {
    assert (xs + [x])[..|xs|] == xs;
  }

  /** Over every interleaving of the queue, the token service, the OAuth flow,
      stored owner tokens, master-key rotations and process restarts, each
      service is in the state its own events alone would have left it in. */
  lemma {:induction false} ServicesDoNotInterfere(c: Config, clock: real, evs: seq<Event>)
    ensures var s := Run(c, clock, evs);
            && Read(s.disk).Ok? && SavedRing(Entries(s)).Some?
            && JobsView(s) == J.Run(c.retryBase, clock, JobEvents(evs))
            && TokensView(s) == T.Run(c.tokens, clock, TokenEvents(evs))
            && SavedStates(Entries(s)) == O.Run(c.oauth, OAuthEvents(evs))
  {
    hide JobsView, TokensView, SavedRing, SavedStates, Entries;
    if evs == [] {
      InitIsFresh(c, clock);
    } else {
      var n := |evs| - 1;
      ServicesDoNotInterfere(c, clock, evs[..n]);
      var s := Run(c, clock, evs[..n]);
      var jobs, tokens, oauths := JobEvents(evs[..n]), TokenEvents(evs[..n]), OAuthEvents(evs[..n]);
      match evs[n]
      case Jobs(job) =>
        JobsStepIsLocal(c, s, job);
        JobRunSnoc(c.retryBase, clock, jobs, job);
      case Tokens(token) =>
        TokensStepIsLocal(c, s, token);
        TokenRunSnoc(c.tokens, clock, tokens, token);
      case OAuth(oauth) =>
        OAuthStepIsLocal(c, s, oauth);
        OAuthRunSnoc(c.oauth, oauths, oauth);
      case StoreOwner(provider, owner, record) => OwnerStepIsLocal(c, s, provider, owner, record);
      case RotateMaster(masterKey) => MasterKeyIsLocal(c, s, masterKey);
      case ProcessRestart =>
        RestartIsLocal(c, s);
        TokenRunSnoc(c.tokens, clock, tokens, T.Restart);
        JobRunSnoc(c.retryBase, clock, jobs, J.Crash);
    }
  }
}
