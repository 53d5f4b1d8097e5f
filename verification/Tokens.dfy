/** The token service as the object it is: the ring in memory, ring and sessions
    in the vault.  `serial` stands for the sources of uuids and random secrets. */
module Tokens {
  import opened Prelude
  import opened Vault
  import opened Storage
  import opened TokenSpec

  class TokenService {
    const config: Config
    const vault: LocalVault<Value>
    var ring: Ring
    var serial: nat
    ghost var clock: real

    ghost predicate Valid()
      reads this, vault
    {
      vault.Readable()
    }

    ghost function View(): State
      reads this, vault
      requires Valid()
    {
      State(ring, SavedRing(vault.Contents()), SavedSessions(vault.Contents()), serial, clock)
    }

    /** Everything in the vault that does not belong to the token service, both as
        entries and as the other services see it. */
    ghost function Others(): (Entries, Views)
      reads this, vault
      requires Valid()
    {
      BesidesTokens(vault.Contents())
    }

    constructor (config: Config, vault: LocalVault<Value>, serial: nat, ghost clock: real)
      requires vault.Readable()
      modifies vault
      ensures Valid() && this.config == config && this.vault == vault
      ensures View()
              == Boot(config, old(SavedRing(vault.Contents())), old(SavedSessions(vault.Contents())), serial, clock)
      ensures Others() == old(BesidesTokens(vault.Contents()))
    {
      this.config, this.vault, this.serial, this.clock := config, vault, serial, clock;
      ring := InitialRing(config);
      new;
      var loaded := vault.Get(SIGNING_KEY);
      if loaded.value.Some? && loaded.value.value.SigningState? {
        ring := loaded.value.value.ring;
      } else {
        ghost var before := vault.Contents();
        var _ := vault.Set(SIGNING_KEY, SigningState(ring));
        TokenKeysArePrivate(before, vault.Contents());
      }
    }

    method SaveRefreshSessions(sessions: Sessions)
      requires Valid()
      modifies vault
      ensures Valid() && SavedSessions(vault.Contents()) == sessions
      ensures SavedRing(vault.Contents()) == old(SavedRing(vault.Contents())) && Others() == old(Others())
    {
      ghost var before := vault.Contents();
      var _ := vault.Set(REFRESH_KEY, RefreshState(sessions));
      TokenKeysArePrivate(before, vault.Contents());
    }

    /** Expired sessions are dropped on every load, and the drop is saved. */
    method LoadRefreshSessions(now: real) returns (filtered: Sessions)
      requires Valid()
      modifies vault
      ensures Valid() && filtered == Unexpired(old(SavedSessions(vault.Contents())), now)
      ensures SavedSessions(vault.Contents()) == filtered
      ensures SavedRing(vault.Contents()) == old(SavedRing(vault.Contents())) && Others() == old(Others())
    {
      var raw := vault.Get(REFRESH_KEY);
      var sessions := if raw.value.Some? && raw.value.value.RefreshState? then raw.value.value.sessions else map[];
      filtered := map d | d in sessions && sessions[d].expiresAt > Trunc(now) :: sessions[d];
      if filtered != sessions {
        SaveRefreshSessions(filtered);
      }
    }

    method IssueTokenPair(subject: string, role: string, now: real, later: real) returns (o: Outcome)
      requires Valid()
      modifies this`serial, this`clock, vault
      ensures Valid() && Others() == old(Others())
      ensures (o, View()) == IssuePair(config, old(View()), subject, role, now, later)
    {
      clock := now;
      if role !in ROLES { return BadRole; }
      var accessExp := now + (60 * config.accessMinutes) as real;
      var refreshExp := now + (3600 * config.refreshHours) as real;
      var access := Signed(Some(ring.current.kid), ring.current.secret,
                           Claims(subject, role, "access", Some(serial), serial + 1, Trunc(now), Trunc(accessExp)));
      var refresh := Signed(Some(ring.current.kid), ring.current.secret,
                            Claims(subject, role, "refresh", None, serial + 2, Trunc(now), Trunc(refreshExp)));
      var sessions := LoadRefreshSessions(later);
      sessions := sessions[Sha256(refresh) := Session(subject, role, Trunc(refreshExp))];
      SaveRefreshSessions(sessions);
      serial, clock := serial + 3, later;
      o := Pair(access, refresh);
    }

    /** The hinted key first, then the others in whatever order the table yields
        them, each value once. */
    method CandidateKeys(kid: Option<Kid>) returns (candidates: seq<Secret>)
      ensures forall s :: s in candidates <==> s in Accepted(ring)
    {
      var keys := KeysById(ring);
      candidates := [];
      if kid.Some? && kid.value in keys {
        candidates := [keys[kid.value]];
      }
      var todo := keys.Keys;
      while todo != {}
        invariant todo <= keys.Keys
        invariant forall s :: s in candidates ==> s in keys.Values
        invariant forall k :: k in keys && k !in todo ==> keys[k] in candidates
        decreases |todo|
      {
        var k :| k in todo;
        if keys[k] !in candidates {
          candidates := candidates + [keys[k]];
        }
        todo := todo - {k};
      }
    }

    /** The first candidate that verifies the signature decides. */
    method DecodeToken(t: Token, typ: string, now: real) returns (r: Decoded)
      ensures r == Decode(Accepted(ring), t, typ, now)
    {
      if t.Garbled? { return MalformedHeader; }
      var candidates := CandidateKeys(t.kid);
      for i := 0 to |candidates|
        invariant forall j :: 0 <= j < i ==> candidates[j] != t.signer || now < t.claims.iat as real
      {
        assert candidates[i] in candidates;
        match JwtDecode(t, candidates[i], now)
        case BadSignature =>
        case Immature =>
        case Late => return Expired;
        case Good(claims) =>
          if claims.typ != typ { return WrongType; }
          return TokenSpec.Valid(claims);
      }
      assert t.signer !in candidates || now < t.claims.iat as real;
      r := Invalid;
    }

    method VerifyAccessToken(t: Token, now: real) returns (who: Option<AuthContext>)
      ensures who == Verify(Accepted(ring), t, now)
    {
      var payload := DecodeToken(t, "access", now);
      if !payload.Valid? { return None; }
      var claims := payload.claims;
      if claims.sub == "" || claims.role == "" || claims.csrf.None? { return None; }
      if claims.role !in ROLES { return None; }
      who := Some(AuthContext(claims.sub, claims.role, claims.csrf.value, claims.jti));
    }

    /** The session is gone from the vault before the new pair is made. */
    method RotateRefreshToken(t: Token, decodeAt: real, loadAt: real, now: real, later: real) returns (o: Outcome)
      requires Valid()
      modifies this`serial, this`clock, vault
      ensures Valid() && Others() == old(Others())
      ensures (o, View()) == Step(config, old(View()), Refresh(t, decodeAt, loadAt, now, later))
    {
      var payload := DecodeToken(t, "refresh", decodeAt);
      clock := decodeAt;
      if !payload.Valid? { return Undecodable(payload); }
      clock := loadAt;
      var sessions := LoadRefreshSessions(loadAt);
      if Sha256(t) !in sessions {
        assert sessions - {Sha256(t)} == sessions;
        return NotLive;
      }
      sessions := sessions - {Sha256(t)};
      SaveRefreshSessions(sessions);
      o := IssueTokenPair(payload.claims.sub, payload.claims.role, now, later);
    }

    method RotateSigningKey() returns (kid: Kid)
      requires Valid()
      modifies this`ring, this`serial, vault
      ensures Valid() && Others() == old(Others()) && kid == ring.current.kid
      ensures (Nothing, View()) == Step(config, old(View()), RotateKey)
    {
      var previousKeys := [ring.current] + ring.previous;
      if |previousKeys| > config.maxPrevious {
        previousKeys := previousKeys[..config.maxPrevious];
      }
      ring := Ring(Key(Uuid(serial), Random(serial + 1)), previousKeys);
      serial := serial + 2;
      ghost var before := vault.Contents();
      var _ := vault.Set(SIGNING_KEY, SigningState(ring));
      TokenKeysArePrivate(before, vault.Contents());
      kid := ring.current.kid;
    }
  }
}
