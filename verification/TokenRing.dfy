/** The signing-key ring over every run of rotations and restarts. */
module TokenRing {
  import opened Prelude
  import opened TokenSpec

  function Rotations(evs: seq<Event>): nat {
    if evs == [] then 0
    else Rotations(evs[..|evs|-1]) + if evs[|evs|-1].RotateKey? then 1 else 0
  }

  /** Every key that was ever current, oldest first. */
  function Keys(c: Config, clock: real, evs: seq<Event>): (keys: seq<Key>)
    ensures |keys| == Rotations(evs) + 1
  {
    if evs == [] then [InitialRing(c).current]
    else
      var n := |evs| - 1;
      var earlier := Keys(c, clock, evs[..n]);
      if evs[n].RotateKey? then earlier + [Run(c, clock, evs).ring.current] else earlier
  }

  function Min(a: nat, b: nat): nat {
    if a < b then a else b
  }

  /** The ring is the newest min(rotations, max_previous) + 1 keys, newest first,
      and the vault holds the same. */
  ghost predicate IsWindow(ring: Ring, keys: seq<Key>, maxPrevious: nat) {
    && keys != []
    && ring.current == keys[|keys| - 1]
    && |ring.previous| == Min(|keys| - 1, maxPrevious)
    && forall i :: 0 <= i < |ring.previous| ==> ring.previous[i] == keys[|keys| - 2 - i]
  }

  lemma {:induction false} RingIsWindow(c: Config, clock: real, evs: seq<Event>)
    ensures IsWindow(Run(c, clock, evs).ring, Keys(c, clock, evs), c.maxPrevious)
    ensures Run(c, clock, evs).savedRing == Some(Run(c, clock, evs).ring)
  {
    if evs != [] {
      RingIsWindow(c, clock, evs[..|evs|-1]);
    }
  }

  // ---- Keys are distinct ----

  predicate OlderThan(key: Key, serial: nat) {
    && (key.kid.Uuid? ==> key.kid.serial < serial)
    && (key.secret.Random? ==> key.secret.serial < serial)
    && !key.kid.Unknown?
  }

  ghost predicate Distinct(keys: seq<Key>) {
    forall i, j :: 0 <= i < j < |keys| ==> keys[i].kid != keys[j].kid && keys[i].secret != keys[j].secret
  }

  lemma {:induction false} KeysAreDistinct(c: Config, clock: real, evs: seq<Event>)
    ensures Distinct(Keys(c, clock, evs))
    ensures forall i :: 0 <= i < |Keys(c, clock, evs)| ==> OlderThan(Keys(c, clock, evs)[i], Run(c, clock, evs).serial)
  {
    if evs != [] {
      KeysAreDistinct(c, clock, evs[..|evs|-1]);
    }
  }

  lemma {:induction false} KeysArePrefix(c: Config, clock: real, before: seq<Event>, after: seq<Event>)
    ensures Keys(c, clock, before) <= Keys(c, clock, before + after)
    ensures Rotations(before + after) == Rotations(before) + Rotations(after)
  {
    if after == [] {
      assert before + after == before;
    } else {
      var n := |after| - 1;
      assert (before + after)[..|before + after| - 1] == before + after[..n];
      KeysArePrefix(c, clock, before, after[..n]);
    }
  }

  /** The first key is the configured secret; all others are random. */
  lemma {:induction false} FirstKeyIsConfigured(c: Config, clock: real, evs: seq<Event>)
    ensures var keys := Keys(c, clock, evs);
            && keys[0] == Key(Initial, Configured(c.secret))
            && forall i :: 0 < i < |keys| ==> keys[i].kid.Uuid? && keys[i].secret.Random?
  {
    if evs != [] {
      FirstKeyIsConfigured(c, clock, evs[..|evs|-1]);
    }
  }

  // ---- What the ring accepts ----

  ghost function Kids(keys: seq<Key>): set<Kid> {
    set i | 0 <= i < |keys| :: keys[i].kid
  }

  lemma {:induction false} KeysFromIsExact(known: map<Kid, Secret>, rest: seq<Key>)
    requires Distinct(rest) && known.Keys !! Kids(rest)
    ensures var table := KeysFrom(known, rest);
            && table.Keys == known.Keys + Kids(rest)
            && (forall kid :: kid in known ==> table[kid] == known[kid])
            && (forall i :: 0 <= i < |rest| ==> rest[i].kid in table && table[rest[i].kid] == rest[i].secret)
  {
    if rest != [] {
      var n := |rest| - 1;
      assert rest == rest[..n] + [rest[n]];
      assert Kids(rest) == Kids(rest[..n]) + {rest[n].kid};
      KeysFromIsExact(known, rest[..n]);
      assert rest[n].kid in Kids(rest);
    }
  }

  lemma TableValues(table: map<Kid, Secret>, keys: seq<Key>, secret: Secret)
    requires table.Keys == Kids(keys)
    requires forall i :: 0 <= i < |keys| ==> keys[i].kid in table && table[keys[i].kid] == keys[i].secret
    ensures secret in table.Values <==> exists i :: 0 <= i < |keys| && keys[i].secret == secret
  {
    if i :| 0 <= i < |keys| && keys[i].secret == secret {
      assert table[keys[i].kid] == secret;
    }
    if secret in table.Values {
      var kid :| kid in table && table[kid] == secret;
      var i :| 0 <= i < |keys| && keys[i].kid == kid;
      assert keys[i].secret == secret;
    }
  }

  /** The accepted secrets are those of the ring's keys. */
  lemma AcceptedAreRingSecrets(ring: Ring, secret: Secret)
    requires Distinct([ring.current] + ring.previous)
    ensures secret in Accepted(ring)
            <==> exists i :: 0 <= i <= |ring.previous| && ([ring.current] + ring.previous)[i].secret == secret
  {
    var known := map[ring.current.kid := ring.current.secret];
    var all := [ring.current] + ring.previous;
    assert forall i :: 0 <= i < |ring.previous| ==> all[i + 1] == ring.previous[i];
    assert all[0] == ring.current;
    assert Distinct(all[1..]) && all[1..] == ring.previous;
    KeysFromIsExact(known, ring.previous);
    TableValues(KeysById(ring), all, secret);
  }

  lemma WindowIsDistinct(ring: Ring, keys: seq<Key>, maxPrevious: nat)
    requires IsWindow(ring, keys, maxPrevious) && Distinct(keys)
    ensures Distinct([ring.current] + ring.previous)
  {
    var all := [ring.current] + ring.previous;
    forall i | 0 <= i < |all| ensures all[i] == keys[|keys| - 1 - i] {}
  }

  /** A window over distinct keys accepts exactly its own keys. */
  lemma WindowAccepts(ring: Ring, keys: seq<Key>, maxPrevious: nat, i: nat)
    requires IsWindow(ring, keys, maxPrevious) && Distinct(keys) && i < |keys|
    ensures keys[i].secret in Accepted(ring) <==> |keys| - 1 - i <= maxPrevious
  {
    WindowIsDistinct(ring, keys, maxPrevious);
    AcceptedAreRingSecrets(ring, keys[i].secret);
    var all := [ring.current] + ring.previous;
    var n := |keys| - 1;
    assert forall k :: 0 <= k < |all| ==> all[k] == keys[n - k];
    if n - i <= maxPrevious {
      assert all[n - i] == keys[i];
    }
  }

  /** The secret of the i-th key of the history is accepted exactly while at
      most max_previous keys are newer. */
  lemma {:induction false} AcceptedIsWindow(c: Config, clock: real, evs: seq<Event>, i: nat)
    requires i < |Keys(c, clock, evs)|
    ensures Keys(c, clock, evs)[i].secret in Accepted(Run(c, clock, evs).ring)
            <==> |Keys(c, clock, evs)| - 1 - i <= c.maxPrevious
  {
    RingIsWindow(c, clock, evs);
    KeysAreDistinct(c, clock, evs);
    WindowAccepts(Run(c, clock, evs).ring, Keys(c, clock, evs), c.maxPrevious, i);
  }

  lemma {:induction false} SignerStaysInWindow(c: Config, clock: real, before: seq<Event>, e: Event, after: seq<Event>)
    requires !e.RotateKey?
    ensures Run(c, clock, before).ring.current.secret in Accepted(Run(c, clock, before + [e] + after).ring)
            <==> Rotations(after) <= c.maxPrevious
  {
    assert (before + [e])[..|before|] == before;
    var i := |Keys(c, clock, before)| - 1;
    RingIsWindow(c, clock, before);
    KeysArePrefix(c, clock, before + [e], after);
    assert Keys(c, clock, before + [e]) == Keys(c, clock, before);
    assert Keys(c, clock, before + [e] + after)[i] == Keys(c, clock, before)[i];
    AcceptedIsWindow(c, clock, before + [e] + after, i);
  }

  /** A token of either kind, issued at any point of any run, decodes at a later
      point exactly from its `iat` up to its `exp` and while at most max_previous
      key rotations have followed its issue -- restarts do not matter. */
  lemma {:induction false} IssuedTokenDecodes(c: Config, clock: real, before: seq<Event>, e: Event,
      after: seq<Event>, now: real)
    requires LastOutcome(c, clock, before + [e]).Pair?
    ensures var pair := LastOutcome(c, clock, before + [e]);
            var accepted := Accepted(Run(c, clock, before + [e] + after).ring);
            var inWindow := Rotations(after) <= c.maxPrevious;
            && (Decode(accepted, pair.access, "access", now).Valid?
                <==> inWindow && pair.access.claims.iat as real <= now < pair.access.claims.exp as real)
            && (Decode(accepted, pair.refresh, "refresh", now).Valid?
                <==> inWindow && pair.refresh.claims.iat as real <= now < pair.refresh.claims.exp as real)
            && !Decode(accepted, pair.refresh, "access", now).Valid?
            && !Decode(accepted, pair.access, "refresh", now).Valid?
  {
    assert (before + [e])[..|before|] == before;
    var pair := LastOutcome(c, clock, before + [e]);
    SignerStaysInWindow(c, clock, before, e, after);
    var s := Run(c, clock, before);
    assert pair.access.signer == s.ring.current.secret && pair.refresh.signer == s.ring.current.secret;
  }

  /** Why an issued token is refused: not yet valid or its key gone, then expired,
      then of the other type. */
  lemma {:induction false} IssuedTokenRefused(c: Config, clock: real, before: seq<Event>, e: Event,
      after: seq<Event>, now: real)
    requires LastOutcome(c, clock, before + [e]).Pair?
    ensures var pair := LastOutcome(c, clock, before + [e]);
            var accepted := Accepted(Run(c, clock, before + [e] + after).ring);
            forall t, typ :: t in {pair.access, pair.refresh} ==>
              && t.Signed? && t.claims.typ == (if t == pair.access then "access" else "refresh")
              && var usable := Rotations(after) <= c.maxPrevious && t.claims.iat as real <= now;
                 var r := Decode(accepted, t, typ, now);
                 && (r == Invalid <==> !usable)
                 && (r == Expired <==> usable && t.claims.exp as real <= now)
                 && (r == WrongType <==> usable && now < t.claims.exp as real && typ != t.claims.typ)
                 && (r.Valid? ==> r.claims == t.claims)
  {
    assert (before + [e])[..|before|] == before;
    var pair := LastOutcome(c, clock, before + [e]);
    SignerStaysInWindow(c, clock, before, e, after);
    var s := Run(c, clock, before);
    assert pair.access.signer == s.ring.current.secret && pair.refresh.signer == s.ring.current.secret;
    assert pair.access.claims.typ == "access" && pair.refresh.claims.typ == "refresh";
  }

  /** An issued access token identifies its own subject, role and id while it
      decodes, and only if the subject is not empty: issuing does not check it. */
  lemma {:induction false} IssuedAccessVerifies(c: Config, clock: real, before: seq<Event>, subject: string,
      role: string, now: real, later: real, after: seq<Event>, at: real)
    requires role in ROLES
    ensures var e := Issue(subject, role, now, later);
            var token := LastOutcome(c, clock, before + [e]).access;
            var who := Verify(Accepted(Run(c, clock, before + [e] + after).ring), token, at);
            && (who.Some? <==> subject != "" && Rotations(after) <= c.maxPrevious
                               && Trunc(now) as real <= at < Trunc(now + (60 * c.accessMinutes) as real) as real)
            && (who.Some? ==> who.value.subject == subject && who.value.role == role
                              && who.value.tokenId == token.claims.jti && Some(who.value.csrf) == token.claims.csrf)
  {
    var e := Issue(subject, role, now, later);
    assert (before + [e])[..|before|] == before;
    IssuedTokenDecodes(c, clock, before, e, after, at);
  }
}
