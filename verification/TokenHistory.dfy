/** The stored refresh sessions against the full history of a run: which tokens
    were minted, which were spent, and by which login. */
module TokenHistory {
  import opened Prelude
  import opened TokenSpec
  import opened TokenRing

  // ---- History ----

  /** Every refresh token handed out so far, with the position in the run of the
      login it descends from. */
  function Lineage(c: Config, clock: real, evs: seq<Event>): map<Token, nat> {
    if evs == [] then map[]
    else
      var n := |evs| - 1;
      var earlier := Lineage(c, clock, evs[..n]);
      match LastOutcome(c, clock, evs)
      case Pair(_, refresh) =>
        if evs[n].Refresh? && evs[n].token in earlier
        then earlier[refresh := earlier[evs[n].token]]
        else earlier[refresh := n]
      case _ => earlier
  }

  function Minted(c: Config, clock: real, evs: seq<Event>): set<Token> {
    Lineage(c, clock, evs).Keys
  }

  /** `e`, taken in `s`, removes the session of a live token for good. */
  predicate Spends(s: State, e: Event, t: Token) {
    match e
    case Refresh(u, decodeAt, loadAt, _, _) => u == t && TakeSession(s, u, decodeAt, loadAt).0.Nothing?
    case RefreshCut(u, decodeAt, loadAt) => u == t && TakeSession(s, u, decodeAt, loadAt).0.Nothing?
    case _ => false
  }

  function Spent(c: Config, clock: real, evs: seq<Event>): set<Token> {
    if evs == [] then {}
    else
      var n := |evs| - 1;
      var e := evs[n];
      var earlier := Spent(c, clock, evs[..n]);
      if (e.Refresh? || e.RefreshCut?) && Spends(Run(c, clock, evs[..n]), e, e.token) then earlier + {e.token}
      else earlier
  }

  // ---- The store holds what the history says, under any clock ----

  predicate IsRefreshToken(t: Token, serial: nat) {
    t.Signed? && t.claims.typ == "refresh" && t.claims.role in ROLES && t.claims.jti < serial
  }

  /** The tokens that a load at `now` does not drop. */
  function Survivors(tokens: set<Token>, now: real): set<Token> {
    set t | t in tokens && t.Signed? && t.claims.exp > Trunc(now)
  }

  predicate Loads(s: State, t: Token, decodeAt: real) {
    Decode(Accepted(s.ring), t, "refresh", decodeAt).Valid?
  }

  /** The tokens that survive every load which `e`, taken in `s`, makes. */
  function Pruned(tokens: set<Token>, s: State, e: Event, o: Outcome): set<Token> {
    match e
    case Issue(_, _, _, later) => if o.Pair? then Survivors(tokens, later) else tokens
    case Refresh(t, decodeAt, loadAt, _, later) =>
      var loaded := if Loads(s, t, decodeAt) then Survivors(tokens, loadAt) else tokens;
      if o.Pair? then Survivors(loaded, later) else loaded
    case RefreshCut(t, decodeAt, loadAt) => if Loads(s, t, decodeAt) then Survivors(tokens, loadAt) else tokens
    case _ => tokens
  }

  /** The refresh tokens handed out whose expiry was still ahead at every load of
      the sessions since. */
  function Unpruned(c: Config, clock: real, evs: seq<Event>): set<Token> {
    if evs == [] then {}
    else
      var n := |evs| - 1;
      var o := LastOutcome(c, clock, evs);
      var kept := Pruned(Unpruned(c, clock, evs[..n]), Run(c, clock, evs[..n]), evs[n], o);
      if o.Pair? then kept + {o.refresh} else kept
  }

  ghost predicate StoreExact(s: State, minted: set<Token>, unpruned: set<Token>, spent: set<Token>) {
    && (forall t :: t in minted ==> IsRefreshToken(t, s.serial))
    && unpruned <= minted && spent <= minted
    && (forall d :: d in s.sessions <==> d.of in unpruned && d.of !in spent)
    && (forall d :: d in s.sessions ==> d.of.Signed? && s.sessions[d] == SessionOf(d.of))
  }

  lemma LoadIsExact(s: State, minted: set<Token>, unpruned: set<Token>, spent: set<Token>, now: real)
    requires StoreExact(s, minted, unpruned, spent)
    ensures var loaded := s.(sessions := Unexpired(s.sessions, now), clock := now);
            StoreExact(loaded, minted, Survivors(unpruned, now), spent)
  {
  }

  /** A session is taken exactly for a token that decodes, is stored, and
      survives the load. */
  lemma TakeIsExact(s: State, minted: set<Token>, unpruned: set<Token>, spent: set<Token>, t: Token,
      decodeAt: real, loadAt: real)
    requires StoreExact(s, minted, unpruned, spent)
    ensures var (o, s') := TakeSession(s, t, decodeAt, loadAt);
            var kept := if Loads(s, t, decodeAt) then Survivors(unpruned, loadAt) else unpruned;
            && StoreExact(s', minted, kept, if o.Nothing? then spent + {t} else spent)
            && s'.ring == s.ring && s'.serial == s.serial
            && (o.Nothing? <==> Loads(s, t, decodeAt) && t in Survivors(unpruned, loadAt) && t !in spent)
  {
    LoadIsExact(s, minted, unpruned, spent, loadAt);
  }

  lemma IssueIsExact(c: Config, s: State, minted: set<Token>, unpruned: set<Token>, spent: set<Token>,
      subject: string, role: string, now: real, later: real)
    requires StoreExact(s, minted, unpruned, spent)
    ensures var (o, s') := IssuePair(c, s, subject, role, now, later);
            && (o.Pair? <==> role in ROLES)
            && (!o.Pair? ==> StoreExact(s', minted, unpruned, spent))
            && (o.Pair? ==>
                  && o.refresh !in minted
                  && StoreExact(s', minted + {o.refresh}, Survivors(unpruned, later) + {o.refresh}, spent))
  {
    LoadIsExact(s, minted, unpruned, spent, later);
  }

  /** What a refresh event does to the store and to the history. */
  lemma RefreshIsExact(c: Config, s: State, minted: set<Token>, unpruned: set<Token>, spent: set<Token>, e: Event)
    requires e.Refresh? && StoreExact(s, minted, unpruned, spent)
    ensures var (o, s') := Step(c, s, e);
            var kept := Pruned(unpruned, s, e, o);
            && (o.Pair? <==> Spends(s, e, e.token))
            && (o.Pair? <==> Loads(s, e.token, e.decodeAt) && e.token in Survivors(unpruned, e.loadAt)
                             && e.token !in spent)
            && (!o.Pair? ==> StoreExact(s', minted, kept, spent))
            && (o.Pair? ==>
                  && o.refresh !in minted
                  && StoreExact(s', minted + {o.refresh}, kept + {o.refresh}, spent + {e.token}))
  {
    TakeIsExact(s, minted, unpruned, spent, e.token, e.decodeAt, e.loadAt);
    var (o, s') := TakeSession(s, e.token, e.decodeAt, e.loadAt);
    if o.Nothing? {
      IssueIsExact(c, s', minted, Survivors(unpruned, e.loadAt), spent + {e.token},
                   e.token.claims.sub, e.token.claims.role, e.now, e.later);
    }
  }

  lemma StepIsExact(c: Config, clock: real, evs: seq<Event>)
    requires evs != []
    requires var before := evs[..|evs|-1];
             StoreExact(Run(c, clock, before), Minted(c, clock, before),
                        Unpruned(c, clock, before), Spent(c, clock, before))
    ensures StoreExact(Run(c, clock, evs), Minted(c, clock, evs), Unpruned(c, clock, evs), Spent(c, clock, evs))
  {
    var n := |evs| - 1;
    var s, minted := Run(c, clock, evs[..n]), Minted(c, clock, evs[..n]);
    var unpruned, spent := Unpruned(c, clock, evs[..n]), Spent(c, clock, evs[..n]);
    var o := LastOutcome(c, clock, evs);
    assert Minted(c, clock, evs) == if o.Pair? then minted + {o.refresh} else minted;
    match evs[n]
    case Issue(subject, role, now, later) =>
      IssueIsExact(c, s, minted, unpruned, spent, subject, role, now, later);
    case Refresh(_, _, _, _, _) =>
      RefreshIsExact(c, s, minted, unpruned, spent, evs[n]);
    case RefreshCut(t, decodeAt, loadAt) =>
      TakeIsExact(s, minted, unpruned, spent, t, decodeAt, loadAt);
    case _ =>
  }

  lemma {:induction false} RunIsExact(c: Config, clock: real, evs: seq<Event>)
    ensures StoreExact(Run(c, clock, evs), Minted(c, clock, evs), Unpruned(c, clock, evs), Spent(c, clock, evs))
  {
    if evs != [] {
      RunIsExact(c, clock, evs[..|evs|-1]);
      StepIsExact(c, clock, evs);
    }
  }

  /** In every reachable state, however the wall clock jumped, the stored sessions
      are exactly the tokens issued, never rotated, and unexpired at each load
      since, each with its own subject, role and expiry. */
  lemma {:induction false} StoreIsUnprunedTokens(c: Config, clock: real, evs: seq<Event>, t: Token)
    ensures var sessions := Run(c, clock, evs).sessions;
            && (Sha256(t) in sessions <==> t in Unpruned(c, clock, evs) && t !in Spent(c, clock, evs))
            && (Sha256(t) in sessions ==>
                  && t in Minted(c, clock, evs) && t.Signed?
                  && sessions[Sha256(t)] == Session(t.claims.sub, t.claims.role, t.claims.exp))
  {
    RunIsExact(c, clock, evs);
  }

  /** A rotation succeeds, under any clock, exactly for a token that was issued and
      never rotated or cut off before, was unexpired at each load since and is so
      at this one, and decodes: its key is in the ring, `iat` <= decodeAt < `exp`. */
  lemma {:induction false} RotationUnderAnyClock(c: Config, clock: real, evs: seq<Event>, e: Event)
    requires e.Refresh?
    ensures var t := e.token;
            && (t in Unpruned(c, clock, evs) ==> t in Minted(c, clock, evs) && t.Signed?)
            && (LastOutcome(c, clock, evs + [e]).Pair? <==>
                  && t in Unpruned(c, clock, evs) && t !in Spent(c, clock, evs)
                  && t.Signed? && Trunc(e.loadAt) < t.claims.exp
                  && t.claims.iat as real <= e.decodeAt < t.claims.exp as real
                  && t.signer in Accepted(Run(c, clock, evs).ring))
  {
    assert (evs + [e])[..|evs|] == evs;
    RunIsExact(c, clock, evs);
    RefreshIsExact(c, Run(c, clock, evs), Minted(c, clock, evs), Unpruned(c, clock, evs), Spent(c, clock, evs), e);
  }

  /** Why a rotation is refused, under any clock: first the token itself, then its
      session; and a refused rotation issues nothing and leaves the keys alone. */
  lemma {:induction false} RotationRefused(c: Config, clock: real, evs: seq<Event>, e: Event)
    requires e.Refresh?
    ensures var o, t := LastOutcome(c, clock, evs + [e]), e.token;
            var usable := t.Signed? && t.signer in Accepted(Run(c, clock, evs).ring)
                          && t.claims.iat as real <= e.decodeAt;
            var alive := usable && e.decodeAt < t.claims.exp as real;
            && (o == Undecodable(MalformedHeader) <==> t.Garbled?)
            && (o == Undecodable(Invalid) <==> t.Signed? && !usable)
            && (o == Undecodable(Expired) <==> usable && !alive)
            && (o == Undecodable(WrongType) <==> alive && t.claims.typ != "refresh")
            && (o == NotLive <==>
                  && alive && t.claims.typ == "refresh"
                  && !(t in Unpruned(c, clock, evs) && t !in Spent(c, clock, evs) && Trunc(e.loadAt) < t.claims.exp))
            && (!o.Pair? ==> Run(c, clock, evs + [e]).serial == Run(c, clock, evs).serial
                             && Run(c, clock, evs + [e]).ring == Run(c, clock, evs).ring)
  {
    assert (evs + [e])[..|evs|] == evs;
    RunIsExact(c, clock, evs);
    var s := Run(c, clock, evs);
    TakeIsExact(s, Minted(c, clock, evs), Unpruned(c, clock, evs), Spent(c, clock, evs), e.token, e.decodeAt, e.loadAt);
    RefreshIsExact(c, s, Minted(c, clock, evs), Unpruned(c, clock, evs), Spent(c, clock, evs), e);
  }

  lemma Snoc(c: Config, clock: real, evs: seq<Event>, e: Event)
    ensures (evs + [e])[..|evs|] == evs
    ensures Run(c, clock, evs + [e]) == Step(c, Run(c, clock, evs), e).1
    ensures LastOutcome(c, clock, evs + [e]) == Step(c, Run(c, clock, evs), e).0
  {
    assert (evs + [e])[..|evs|] == evs;
  }

  lemma LoginIsMinted(c: Config, clock: real, evs: seq<Event>, e: Event)
    requires e.Issue? && e.role in ROLES
    ensures var o := LastOutcome(c, clock, evs + [e]);
            && o.Pair? && o.refresh.Signed? && o.refresh.claims.jti < Run(c, clock, evs + [e]).serial
            && o.refresh !in Minted(c, clock, evs)
            && Minted(c, clock, evs + [e]) == Minted(c, clock, evs) + {o.refresh}
            && Spent(c, clock, evs + [e]) == Spent(c, clock, evs) && Spent(c, clock, evs) <= Minted(c, clock, evs)
            && Rotations(evs + [e]) == Rotations(evs)
  {
    Snoc(c, clock, evs, e);
    RunIsExact(c, clock, evs);
  }

  lemma LateLoginDrops(c: Config, s: State, subject: string, role: string, jump: real, t: Token)
    requires role in ROLES && t.Signed? && t.claims.exp as real <= jump && t.claims.jti < s.serial
    requires Sha256(t) in s.sessions ==> s.sessions[Sha256(t)] == SessionOf(t)
    ensures Sha256(t) !in Step(c, s, Issue(subject, role, jump, jump)).1.sessions
  {
    TruncMonotone(t.claims.exp as real, jump);
    assert Trunc(t.claims.exp as real) == t.claims.exp;
  }

  lemma NotStoredIsNotLive(c: Config, s: State, t: Token, at: real)
    requires Loads(s, t, at) && Sha256(t) !in s.sessions
    ensures Step(c, s, Refresh(t, at, at, at, at)).0 == NotLive
  {
  }

  lemma LoginClaims(c: Config, s: State, subject: string, role: string, now: real)
    requires role in ROLES
    ensures var o := Step(c, s, Issue(subject, role, now, now)).0;
            && o.Pair? && o.refresh.Signed? && o.refresh.claims.iat == Trunc(now)
            && o.refresh.claims.exp == Trunc(now + (3600 * c.refreshHours) as real)
  {
  }

  /** One reading past the expiry is enough, in any run: a token that was never
      used, and decodes, is refused once another login has read such a clock. */
  lemma ClockJumpDropsSession(c: Config, clock: real, before: seq<Event>, subject: string, other: string,
      role: string, now: real, jump: real, at: real)
    requires role in ROLES
    requires Trunc(now) as real <= at < Trunc(now + (3600 * c.refreshHours) as real) as real <= jump
    ensures var evs := before + [Issue(subject, role, now, now)];
            var jumped := evs + [Issue(other, role, jump, jump)];
            LastOutcome(c, clock, evs).Pair? &&
            var token := LastOutcome(c, clock, evs).refresh;
            && token in Minted(c, clock, jumped) && token !in Spent(c, clock, jumped)
            && Loads(Run(c, clock, jumped), token, at)
            && LastOutcome(c, clock, jumped + [Refresh(token, at, at, at, at)]) == NotLive
  {
    var first, second := Issue(subject, role, now, now), Issue(other, role, jump, jump);
    var evs := before + [first];
    var jumped := evs + [second];
    Snoc(c, clock, before, first);
    Snoc(c, clock, evs, second);
    var token := LastOutcome(c, clock, evs).refresh;
    Snoc(c, clock, jumped, Refresh(token, at, at, at, at));
    hide Step, LastOutcome, Minted, Spent, Run;
    LoginIsMinted(c, clock, before, first);
    LoginIsMinted(c, clock, evs, second);
    LoginClaims(c, Run(c, clock, before), subject, role, now);
    IssuedTokenDecodes(c, clock, before, first, [second], at);
    StoreIsUnprunedTokens(c, clock, evs, token);
    LateLoginDrops(c, Run(c, clock, evs), other, role, jump, token);
    NotStoredIsNotLive(c, Run(c, clock, jumped), token, at);
  }

  // ---- The same under a clock that does not run backwards ----

  predicate TimeOk(s: State, e: Event) {
    match e
    case Issue(_, _, now, later) => s.clock <= now <= later
    case Refresh(_, decodeAt, loadAt, now, later) => s.clock <= decodeAt <= loadAt <= now <= later
    case RefreshCut(_, decodeAt, loadAt) => s.clock <= decodeAt <= loadAt
    case _ => true
  }

  ghost predicate Monotone(c: Config, clock: real, evs: seq<Event>) {
    evs == [] ||
    (Monotone(c, clock, evs[..|evs|-1]) && TimeOk(Run(c, clock, evs[..|evs|-1]), evs[|evs|-1]))
  }

  /** A live token was minted, is unspent, and has not expired at `now`. */
  predicate IsLive(minted: set<Token>, spent: set<Token>, t: Token, now: real) {
    t in minted && t !in spent && t.Signed? && t.claims.exp > Trunc(now)
  }

  lemma StepKeepsTime(c: Config, s: State, e: Event)
    requires TimeOk(s, e)
    ensures var (o, s') := Step(c, s, e);
            && s.clock <= s'.clock
            && (o.Pair? && 0.0 <= s.clock ==> o.refresh.Signed? && o.refresh.claims.iat as real <= s'.clock)
  {
  }

  lemma PrunedAtClock(c: Config, s: State, e: Event, tokens: set<Token>, t: Token)
    requires TimeOk(s, e) && t in tokens && t.Signed?
    requires t.claims.exp > Trunc(Step(c, s, e).1.clock)
    ensures t in Pruned(tokens, s, e, Step(c, s, e).0)
  {
    var clock := Step(c, s, e).1.clock;
    match e
    case Issue(_, _, _, later) =>
    case Refresh(u, decodeAt, loadAt, _, _) =>
      if Loads(s, u, decodeAt) { TruncMonotone(loadAt, clock); }
    case RefreshCut(u, decodeAt, loadAt) =>
      if Loads(s, u, decodeAt) { TruncMonotone(loadAt, clock); }
    case _ =>
  }

  /** Under such a clock nothing is pruned before it has expired. */
  lemma {:induction false} UnexpiredIsUnpruned(c: Config, clock: real, evs: seq<Event>, t: Token)
    requires Monotone(c, clock, evs)
    requires t in Minted(c, clock, evs) && t.Signed? && t.claims.exp > Trunc(Run(c, clock, evs).clock)
    ensures t in Unpruned(c, clock, evs)
  {
    if evs != [] {
      var n := |evs| - 1;
      var s := Run(c, clock, evs[..n]);
      StepKeepsTime(c, s, evs[n]);
      TruncMonotone(s.clock, Run(c, clock, evs).clock);
      if t in Minted(c, clock, evs[..n]) {
        UnexpiredIsUnpruned(c, clock, evs[..n], t);
        PrunedAtClock(c, s, evs[n], Unpruned(c, clock, evs[..n]), t);
      }
    }
  }

  /** In every reachable state the stored sessions, pruned at any later instant,
      are exactly the tokens issued, never rotated and not yet expired, each with
      its own subject, role and expiry. */
  lemma {:induction false} StoreIsLiveTokens(c: Config, clock: real, evs: seq<Event>, now: real, t: Token)
    requires Monotone(c, clock, evs) && Run(c, clock, evs).clock <= now
    ensures var live := Unexpired(Run(c, clock, evs).sessions, now);
            && (Sha256(t) in live <==> IsLive(Minted(c, clock, evs), Spent(c, clock, evs), t, now))
            && (Sha256(t) in live ==> live[Sha256(t)] == Session(t.claims.sub, t.claims.role, t.claims.exp))
  {
    RunIsExact(c, clock, evs);
    TruncMonotone(Run(c, clock, evs).clock, now);
    if IsLive(Minted(c, clock, evs), Spent(c, clock, evs), t, now) {
      UnexpiredIsUnpruned(c, clock, evs, t);
    }
  }

  /** No refresh token is from the future. */
  lemma {:induction false} MintedInPast(c: Config, clock: real, evs: seq<Event>, t: Token)
    requires 0.0 <= clock && Monotone(c, clock, evs)
    ensures 0.0 <= Run(c, clock, evs).clock
    ensures t in Minted(c, clock, evs) ==> t.Signed? && t.claims.iat as real <= Run(c, clock, evs).clock
  {
    if evs != [] {
      var n := |evs| - 1;
      MintedInPast(c, clock, evs[..n], t);
      StepKeepsTime(c, Run(c, clock, evs[..n]), evs[n]);
    }
  }

  /** A rotation succeeds exactly for a token that was issued, was never rotated
      or cut off before, has not expired when its session is loaded, and was
      signed by a key that is still in the ring. */
  lemma {:induction false} RotationSucceedsIff(c: Config, clock: real, evs: seq<Event>, e: Event)
    requires 0.0 <= clock
    requires e.Refresh? && Monotone(c, clock, evs + [e])
    ensures LastOutcome(c, clock, evs + [e]).Pair? <==>
              && e.token in Minted(c, clock, evs) && e.token !in Spent(c, clock, evs)
              && e.token.Signed? && e.loadAt < e.token.claims.exp as real
              && e.token.signer in Accepted(Run(c, clock, evs).ring)
  {
    assert (evs + [e])[..|evs|] == evs;
    RotationUnderAnyClock(c, clock, evs, e);
    MintedInPast(c, clock, evs, e.token);
    TruncMonotone(Run(c, clock, evs).clock, e.loadAt);
    var t := e.token;
    if t in Minted(c, clock, evs) && t.Signed? && e.loadAt < t.claims.exp as real {
      UnexpiredIsUnpruned(c, clock, evs, t);
    }
  }

  // ---- Single use ----

  lemma {:induction false} SpentOnlyGrows(c: Config, clock: real, before: seq<Event>, after: seq<Event>)
    ensures Spent(c, clock, before) <= Spent(c, clock, before + after)
  {
    if after == [] {
      assert before + after == before;
    } else {
      var n := |after| - 1;
      assert (before + after)[..|before + after| - 1] == before + after[..n];
      SpentOnlyGrows(c, clock, before, after[..n]);
    }
  }

  /** No token rotates twice over any run, whatever keys rotate, processes restart,
      rotations are cut off or the wall clock jumps in between. */
  lemma {:induction false} RotatesAtMostOnce(c: Config, clock: real, before: seq<Event>, first: Event,
      between: seq<Event>, second: Event)
    requires first.Refresh? && second.Refresh? && first.token == second.token
    requires LastOutcome(c, clock, before + [first]).Pair?
    ensures !LastOutcome(c, clock, before + [first] + between + [second]).Pair?
  {
    assert (before + [first])[..|before|] == before;
    assert first.token in Spent(c, clock, before + [first]);
    SpentOnlyGrows(c, clock, before + [first], between);
    RotationUnderAnyClock(c, clock, before + [first] + between, second);
  }

  // ---- Lineage ----

  ghost predicate OneLivePerLogin(lineage: map<Token, nat>, spent: set<Token>, bound: nat) {
    && (forall t :: t in lineage ==> lineage[t] < bound)
    && (forall t, u :: t in lineage && u in lineage && t !in spent && u !in spent ==>
          lineage[t] == lineage[u] ==> t == u)
  }

  lemma NewLoginKeepsOne(lineage: map<Token, nat>, spent: set<Token>, t: Token, n: nat)
    requires OneLivePerLogin(lineage, spent, n)
    ensures OneLivePerLogin(lineage[t := n], spent, n + 1)
  {
  }

  lemma RotationKeepsOne(lineage: map<Token, nat>, spent: set<Token>, t: Token, u: Token, n: nat)
    requires OneLivePerLogin(lineage, spent, n) && t in lineage && t !in spent && u !in lineage
    ensures OneLivePerLogin(lineage[u := lineage[t]], spent + {t}, n + 1)
  {
  }

  /** However often a login is refreshed, under any clock, at most one of the refresh tokens that
      descend from it is still unspent. */
  lemma {:induction false} OneTokenPerLogin(c: Config, clock: real, evs: seq<Event>)
    ensures OneLivePerLogin(Lineage(c, clock, evs), Spent(c, clock, evs), |evs|)
  {
    if evs != [] {
      var n := |evs| - 1;
      OneTokenPerLogin(c, clock, evs[..n]);
      RunIsExact(c, clock, evs[..n]);
      var lineage, spent := Lineage(c, clock, evs[..n]), Spent(c, clock, evs[..n]);
      var e, o := evs[n], LastOutcome(c, clock, evs);
      if e.Refresh? {
        RefreshIsExact(c, Run(c, clock, evs[..n]), lineage.Keys, Unpruned(c, clock, evs[..n]), spent, e);
        if o.Pair? { RotationKeepsOne(lineage, spent, e.token, o.refresh, n); }
      } else if o.Pair? {
        NewLoginKeepsOne(lineage, spent, o.refresh, n);
      }
    }
  }

  // ---- A rotation keeps the number of live sessions ----

  lemma SwapKeepsSize(live: Sessions, gone: Digest, added: Digest, session: Session)
    requires gone in live && added !in live
    ensures |(live - {gone})[added := session]| == |live|
  {
    var rest := live - {gone};
    assert live.Keys == rest.Keys + {gone};
    assert rest[added := session].Keys == rest.Keys + {added};
    assert |live| == |live.Keys| && |rest| == |rest.Keys| && |rest[added := session]| == |rest[added := session].Keys|;
  }

  lemma SwapKeepsLiveCount(sessions: Sessions, gone: Digest, added: Digest, session: Session, loadAt: real, later: real)
    requires loadAt <= later && gone in sessions && added !in sessions
    requires sessions[gone].expiresAt > Trunc(later) && session.expiresAt > Trunc(later)
    ensures var swapped := Unexpired(Unexpired(sessions, loadAt) - {gone}, later)[added := session];
            |Unexpired(swapped, later)| == |Unexpired(sessions, later)|
  {
    TruncMonotone(loadAt, later);
    var swapped := Unexpired(Unexpired(sessions, loadAt) - {gone}, later)[added := session];
    var live := Unexpired(sessions, later);
    assert Unexpired(swapped, later) == (live - {gone})[added := session];
    SwapKeepsSize(live, gone, added, session);
  }

  /** A successful rotation replaces one live session by one live session: as
      long as neither the old nor the new token expires during the call, the
      number alive when it returns is what it was without the rotation. */
  lemma {:induction false} RotationKeepsCount(c: Config, clock: real, evs: seq<Event>, e: Event)
    requires e.Refresh? && e.loadAt <= e.later
    requires LastOutcome(c, clock, evs + [e]).Pair?
    requires e.token.Signed? && e.token.claims.exp > Trunc(e.later)
    requires Trunc(e.now + (3600 * c.refreshHours) as real) > Trunc(e.later)
    ensures |Unexpired(Run(c, clock, evs + [e]).sessions, e.later)|
            == |Unexpired(Run(c, clock, evs).sessions, e.later)|
  {
    assert (evs + [e])[..|evs|] == evs;
    var s := Run(c, clock, evs);
    RunIsExact(c, clock, evs);
    RefreshIsExact(c, s, Minted(c, clock, evs), Unpruned(c, clock, evs), Spent(c, clock, evs), e);
    var added := LastOutcome(c, clock, evs + [e]).refresh;
    assert Sha256(added) !in s.sessions;
    SwapKeepsLiveCount(s.sessions, Sha256(e.token), Sha256(added), SessionOf(added), e.loadAt, e.later);
  }

  // ---- What the tokens of a pair say ----

  /** Whose pair an event asks for, and when it was made. */
  function Subject(e: Event): string {
    if e.Issue? then e.subject else if e.Refresh? && e.token.Signed? then e.token.claims.sub else ""
  }

  function Role(e: Event): string {
    if e.Issue? then e.role else if e.Refresh? && e.token.Signed? then e.token.claims.role else ""
  }

  /** A pair exists only after a login or a rotation.  Both tokens name the current
      key and are signed by it, carry the subject and role asked for or those of
      the rotated token, and last their configured time; a login works exactly for
      the three roles. */
  lemma {:induction false} PairClaims(c: Config, clock: real, evs: seq<Event>, e: Event)
    ensures var o := LastOutcome(c, clock, evs + [e]);
            var key := Run(c, clock, evs).ring.current;
            && (e.Issue? ==> (o.Pair? <==> e.role in {"viewer", "operator", "admin"}) && (o.Pair? || o == BadRole))
            && (o.Pair? ==>
                  && (e.Issue? || (e.Refresh? && e.token.Signed?))
                  && o.access.Signed? && o.refresh.Signed?
                  && o.access.kid == o.refresh.kid == Some(key.kid)
                  && o.access.signer == o.refresh.signer == key.secret
                  && o.access.claims.sub == o.refresh.claims.sub == Subject(e)
                  && o.access.claims.role == o.refresh.claims.role == Role(e)
                  && o.access.claims.typ == "access" && o.refresh.claims.typ == "refresh"
                  && o.access.claims.iat == o.refresh.claims.iat == Trunc(e.now)
                  && o.access.claims.exp == Trunc(e.now + (60 * c.accessMinutes) as real)
                  && o.refresh.claims.exp == Trunc(e.now + (3600 * c.refreshHours) as real)
                  && o.access.claims.csrf.Some? && o.refresh.claims.csrf == None)
  {
    Snoc(c, clock, evs, e);
    RunIsExact(c, clock, evs);
    if e.Refresh? {
      TakeIsExact(Run(c, clock, evs), Minted(c, clock, evs), Unpruned(c, clock, evs), Spent(c, clock, evs),
                  e.token, e.decodeAt, e.loadAt);
    }
  }

  /** However often it is rotated, a refresh token keeps the subject and the role of
      the login it descends from. */
  lemma {:induction false} LineageKeepsIdentity(c: Config, clock: real, evs: seq<Event>, t: Token)
    requires t in Lineage(c, clock, evs)
    ensures var i := Lineage(c, clock, evs)[t];
            && i < |evs| && evs[i].Issue? && t.Signed?
            && t.claims.sub == evs[i].subject && t.claims.role == evs[i].role
  {
    var n := |evs| - 1;
    var e, o := evs[n], LastOutcome(c, clock, evs);
    assert evs[..n] + [e] == evs;
    PairClaims(c, clock, evs[..n], e);
    RunIsExact(c, clock, evs[..n]);
    if o.Pair? && t == o.refresh {
      if e.Refresh? {
        RotationUnderAnyClock(c, clock, evs[..n], e);
        LineageKeepsIdentity(c, clock, evs[..n], e.token);
      }
    } else {
      LineageKeepsIdentity(c, clock, evs[..n], t);
    }
  }

  lemma LoginRoles(c: Config, clock: real, evs: seq<Event>, t: Token)
    requires t in Minted(c, clock, evs)
    ensures t.Signed? && t.claims.role in ROLES
  {
    RunIsExact(c, clock, evs);
  }

  /** An access token obtained by any number of rotations proves the identity of the
      login at their start, exactly while it lives and its key is in the ring. */
  lemma {:induction false} RotatedAccessVerifies(c: Config, clock: real, before: seq<Event>, e: Event,
      after: seq<Event>, at: real)
    requires e.Refresh? && LastOutcome(c, clock, before + [e]).Pair?
    ensures e.token in Lineage(c, clock, before)
    ensures var i := Lineage(c, clock, before)[e.token];
            var token := LastOutcome(c, clock, before + [e]).access;
            var who := Verify(Accepted(Run(c, clock, before + [e] + after).ring), token, at);
            && i < |before| && before[i].Issue?
            && (who.Some? <==> before[i].subject != "" && Rotations(after) <= c.maxPrevious
                               && Trunc(e.now) as real <= at < Trunc(e.now + (60 * c.accessMinutes) as real) as real)
            && (who.Some? ==> who.value.subject == before[i].subject && who.value.role == before[i].role)
  {
    RotationUnderAnyClock(c, clock, before, e);
    RunIsExact(c, clock, before);
    PairClaims(c, clock, before, e);
    LineageKeepsIdentity(c, clock, before, e.token);
    IssuedTokenDecodes(c, clock, before, e, after, at);
    LoginRoles(c, clock, before, e.token);
  }

  // ---- Ids are never used twice ----

  /** The identifiers that a pair brings into the world. */
  function Ids(o: Outcome): set<nat> {
    if o.Pair? && o.access.Signed? && o.refresh.Signed? && o.access.claims.csrf.Some?
    then {o.access.claims.csrf.value, o.access.claims.jti, o.refresh.claims.jti} else {}
  }

  lemma StepIds(c: Config, s: State, e: Event)
    ensures var (o, s') := Step(c, s, e);
            && s.serial <= s'.serial
            && (o.Pair? ==> |Ids(o)| == 3)
            && forall id :: id in Ids(o) ==> s.serial <= id < s'.serial
  {
  }

  lemma {:induction false} SerialGrows(c: Config, clock: real, before: seq<Event>, after: seq<Event>)
    ensures Run(c, clock, before).serial <= Run(c, clock, before + after).serial
  {
    if after == [] {
      assert before + after == before;
    } else {
      var n := |after| - 1;
      SerialGrows(c, clock, before, after[..n]);
      assert before + after == (before + after[..n]) + [after[n]];
      Snoc(c, clock, before + after[..n], after[n]);
      StepIds(c, Run(c, clock, before + after[..n]), after[n]);
    }
  }

  /** The csrf value and the two token ids of a pair differ from each other and from
      those of every other pair of the run, across restarts. */
  lemma {:induction false} IdsAreUnique(c: Config, clock: real, before: seq<Event>, first: Event,
      between: seq<Event>, second: Event)
    ensures var a := LastOutcome(c, clock, before + [first]);
            var b := LastOutcome(c, clock, before + [first] + between + [second]);
            && (a.Pair? ==> |Ids(a)| == 3)
            && Ids(a) !! Ids(b)
  {
    Snoc(c, clock, before, first);
    Snoc(c, clock, before + [first] + between, second);
    StepIds(c, Run(c, clock, before), first);
    SerialGrows(c, clock, before + [first], between);
    StepIds(c, Run(c, clock, before + [first] + between), second);
  }
}
