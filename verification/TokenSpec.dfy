/** The token service with ideal cryptography: a token names the secret that
    signed it, a digest names the token it was taken of, and every uuid or
    random secret is a new serial number. */
module TokenSpec {
  import opened Prelude

  datatype Secret = Configured(text: string) | Random(serial: nat)
  datatype Kid = Initial | Uuid(serial: nat) | Unknown(text: string)
  datatype Key = Key(kid: Kid, secret: Secret)
  datatype Ring = Ring(current: Key, previous: seq<Key>)

  datatype Claims = Claims(
    sub: string, role: string, typ: string, csrf: Option<nat>, jti: nat, iat: int, exp: int)

  /** `kid` is the unverified header hint; it may be absent or name anything. */
  datatype Token =
    | Garbled(text: string)
    | Signed(kid: Option<Kid>, signer: Secret, claims: Claims)

  datatype Digest = Sha256(of: Token)
  datatype Session = Session(subject: string, role: string, expiresAt: int)
  type Sessions = map<Digest, Session>

  datatype Config = Config(secret: string, accessMinutes: int, refreshHours: int, maxPrevious: nat)

  const ROLES := {"viewer", "operator", "admin"}

  // ---- Decoding ----

  datatype Decoded = Valid(claims: Claims) | MalformedHeader | Expired | WrongType | Invalid

  datatype JwtResult = BadSignature | Immature | Late | Good(claims: Claims)

  /** `jwt.decode` under one secret: the signature, then `iat`, the first instant
      of acceptance, then `exp`, the first instant of refusal. */
  function JwtDecode(t: Token, secret: Secret, now: real): JwtResult
    requires t.Signed?
  {
    if t.signer != secret then BadSignature
    else if now < t.claims.iat as real then Immature
    else if t.claims.exp as real <= now then Late
    else Good(t.claims)
  }

  /** Trying secrets one after another. */
  function TryInOrder(secrets: seq<Secret>, t: Token, typ: string, now: real): Decoded
    requires t.Signed?
  {
    if secrets == [] then Invalid
    else
      match JwtDecode(t, secrets[0], now)
      case BadSignature => TryInOrder(secrets[1..], t, typ, now)
      case Immature => TryInOrder(secrets[1..], t, typ, now)
      case Late => Expired
      case Good(claims) => if claims.typ != typ then WrongType else Valid(claims)
  }

  /** What decoding means: it depends on the set of accepted secrets alone. */
  function Decode(secrets: set<Secret>, t: Token, typ: string, now: real): Decoded {
    if t.Garbled? then MalformedHeader
    else if t.signer !in secrets || now < t.claims.iat as real then Invalid
    else if t.claims.exp as real <= now then Expired
    else if t.claims.typ != typ then WrongType
    else Valid(t.claims)
  }

  datatype AuthContext = AuthContext(subject: string, role: string, csrf: nat, tokenId: nat)

  /** What an access token proves: nothing without a subject, a known role and a
      csrf value. */
  function Verify(secrets: set<Secret>, t: Token, now: real): Option<AuthContext> {
    match Decode(secrets, t, "access", now)
    case Valid(claims) =>
      if claims.sub != "" && claims.csrf.Some? && claims.role in ROLES
      then Some(AuthContext(claims.sub, claims.role, claims.csrf.value, claims.jti))
      else None
    case _ => None
  }

  /** Exactly which tokens prove an identity, and which identity: signed under an
      accepted secret, in its lifetime, an access token, with a subject, a csrf
      value and one of the three roles. */
  lemma VerifyAccepts(secrets: set<Secret>, t: Token, now: real)
    ensures Verify(secrets, t, now).Some? <==>
              && t.Signed? && t.signer in secrets
              && t.claims.iat as real <= now < t.claims.exp as real
              && t.claims.typ == "access" && t.claims.sub != "" && t.claims.csrf.Some?
              && (t.claims.role == "viewer" || t.claims.role == "operator" || t.claims.role == "admin")
    ensures Verify(secrets, t, now).Some? ==>
              var who := Verify(secrets, t, now).value;
              && who.subject == t.claims.sub && who.role == t.claims.role
              && Some(who.csrf) == t.claims.csrf && who.tokenId == t.claims.jti
  {
  }

  lemma {:induction false} OrderDoesNotMatter(secrets: seq<Secret>, t: Token, typ: string, now: real)
    requires t.Signed?
    ensures TryInOrder(secrets, t, typ, now) == Decode((set x | x in secrets), t, typ, now)
  {
    if secrets != [] {
      OrderDoesNotMatter(secrets[1..], t, typ, now);
      assert forall x :: x in secrets <==> x == secrets[0] || x in secrets[1..];
    }
  }

  /** Two orders of the same secrets, and any two `kid` hints, give the same
      payload or the same error. */
  lemma KidIsOnlyAHint(a: seq<Secret>, b: seq<Secret>, t: Token, kid: Option<Kid>, typ: string, now: real)
    requires t.Signed? && forall x :: x in a <==> x in b
    ensures TryInOrder(a, t, typ, now) == TryInOrder(b, t.(kid := kid), typ, now)
  {
    OrderDoesNotMatter(a, t, typ, now);
    OrderDoesNotMatter(b, t.(kid := kid), typ, now);
    assert (set x | x in a) == (set x | x in b);
  }

  function KeysFrom(known: map<Kid, Secret>, rest: seq<Key>): map<Kid, Secret> {
    if rest == [] then known
    else KeysFrom(known, rest[..|rest|-1])[rest[|rest|-1].kid := rest[|rest|-1].secret]
  }

  /** The lookup table of the ring; a repeated kid would hide an earlier key. */
  function KeysById(ring: Ring): map<Kid, Secret> {
    KeysFrom(map[ring.current.kid := ring.current.secret], ring.previous)
  }

  function Accepted(ring: Ring): set<Secret> {
    KeysById(ring).Values
  }

  // ---- The service as a transition system ----

  /** `ring` is in memory; `savedRing` and `sessions` are vault entries.
      `serial` counts the uuids and random values drawn so far. */
  datatype State = State(ring: Ring, savedRing: Option<Ring>, sessions: Sessions, serial: nat, clock: real)

  datatype Outcome =
    | Nothing
    | Pair(access: Token, refresh: Token)
    | BadRole
    | Undecodable(why: Decoded)
    | NotLive

  /** Every clock reading of a call is an argument of its event. */
  datatype Event =
    | Issue(subject: string, role: string, now: real, later: real)
    | Refresh(token: Token, decodeAt: real, loadAt: real, now: real, later: real)
    | RefreshCut(token: Token, decodeAt: real, loadAt: real)
    | RotateKey
    | Restart

  function InitialRing(c: Config): Ring {
    Ring(Key(Initial, Configured(c.secret)), [])
  }

  function LoadedRing(c: Config, saved: Option<Ring>): Ring {
    if saved.Some? then saved.value else InitialRing(c)
  }

  function Boot(c: Config, saved: Option<Ring>, sessions: Sessions, serial: nat, clock: real): State {
    State(LoadedRing(c, saved), Some(LoadedRing(c, saved)), sessions, serial, clock)
  }

  function Unexpired(sessions: Sessions, now: real): Sessions {
    map d | d in sessions && sessions[d].expiresAt > Trunc(now) :: sessions[d]
  }

  function AccessToken(c: Config, key: Key, subject: string, role: string, now: real, serial: nat): Token {
    Signed(Some(key.kid), key.secret,
           Claims(subject, role, "access", Some(serial), serial + 1, Trunc(now),
                  Trunc(now + (60 * c.accessMinutes) as real)))
  }

  function RefreshToken(c: Config, key: Key, subject: string, role: string, now: real, serial: nat): Token {
    Signed(Some(key.kid), key.secret,
           Claims(subject, role, "refresh", None, serial + 2, Trunc(now),
                  Trunc(now + (3600 * c.refreshHours) as real)))
  }

  function SessionOf(t: Token): Session
    requires t.Signed?
  {
    Session(t.claims.sub, t.claims.role, t.claims.exp)
  }

  function IssuePair(c: Config, s: State, subject: string, role: string, now: real, later: real): (Outcome, State) {
    if role !in ROLES then (BadRole, s.(clock := now))
    else
      var access := AccessToken(c, s.ring.current, subject, role, now, s.serial);
      var refresh := RefreshToken(c, s.ring.current, subject, role, now, s.serial);
      (Pair(access, refresh),
       s.(sessions := Unexpired(s.sessions, later)[Sha256(refresh) := SessionOf(refresh)],
          serial := s.serial + 3, clock := later))
  }

  /** Decode, load and take the session: the part of a rotation up to its save. */
  function TakeSession(s: State, t: Token, decodeAt: real, loadAt: real): (Outcome, State) {
    match Decode(Accepted(s.ring), t, "refresh", decodeAt)
    case Valid(_) =>
      var live := Unexpired(s.sessions, loadAt);
      (if Sha256(t) in live then Nothing else NotLive,
       s.(sessions := live - {Sha256(t)}, clock := loadAt))
    case why => (Undecodable(why), s.(clock := decodeAt))
  }

  function Rotated(ring: Ring, key: Key, maxPrevious: nat): Ring {
    var all := [ring.current] + ring.previous;
    Ring(key, if |all| <= maxPrevious then all else all[..maxPrevious])
  }

  function Step(c: Config, s: State, e: Event): (Outcome, State) {
    match e
    case Issue(subject, role, now, later) => IssuePair(c, s, subject, role, now, later)
    case Refresh(t, decodeAt, loadAt, now, later) =>
      var (o, s') := TakeSession(s, t, decodeAt, loadAt);
      if o.Nothing? then IssuePair(c, s', t.claims.sub, t.claims.role, now, later) else (o, s')
    case RefreshCut(t, decodeAt, loadAt) =>
      // The process dies after the old session is gone and before the new pair exists.
      var (_, s') := TakeSession(s, t, decodeAt, loadAt);
      (Nothing, Boot(c, s'.savedRing, s'.sessions, s'.serial, s'.clock))
    case RotateKey =>
      var ring := Rotated(s.ring, Key(Uuid(s.serial), Random(s.serial + 1)), c.maxPrevious);
      (Nothing, s.(ring := ring, savedRing := Some(ring), serial := s.serial + 2))
    case Restart => (Nothing, Boot(c, s.savedRing, s.sessions, s.serial, s.clock))
  }

  function Run(c: Config, clock: real, evs: seq<Event>): State {
    if evs == [] then Boot(c, None, map[], 0, clock)
    else Step(c, Run(c, clock, evs[..|evs|-1]), evs[|evs|-1]).1
  }

  function LastOutcome(c: Config, clock: real, evs: seq<Event>): Outcome
    requires evs != []
  {
    Step(c, Run(c, clock, evs[..|evs|-1]), evs[|evs|-1]).0
  }
}
