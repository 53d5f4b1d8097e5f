/** The life cycle of the OAuth `state` parameter. */
module OAuthSpec {
  import opened Prelude

  const STATE_TTL := 600

  datatype Config = Config(ready: bool, redirectUri: string)

  datatype Pending = Pending(expiresAt: int, ownerHint: string, redirectUri: string)

  type Store = map<string, Pending>

  /** A missing and an empty redirect URI are treated alike. */
  datatype Event =
    | Begin(state: string, redirectUri: Option<string>, ownerHint: string, now: real)
    | Callback(state: string, redirectUri: Option<string>, now: real)

  datatype Outcome =
    | NotConfigured
    | NeedsRedirect
    | Began(expiresAt: int)
    | MissingState
    | Expired
    | RedirectMismatch
    | Accepted(pending: Pending)

  function Given(uri: Option<string>): string {
    if uri.Some? then uri.value else ""
  }

  function Resolved(c: Config, uri: Option<string>): string {
    if Given(uri) != "" then Given(uri) else c.redirectUri
  }

  function NewPending(c: Config, e: Event): Pending
    requires e.Begin?
  {
    Pending(Trunc(e.now) + STATE_TTL, Lower(e.ownerHint), Resolved(c, e.redirectUri))
  }

  function Judge(raw: Option<Pending>, uri: Option<string>, now: real): Outcome {
    if raw.None? then MissingState
    else if raw.value.expiresAt < Trunc(now) then Expired
    else if Given(uri) != "" && raw.value.redirectUri != "" && Given(uri) != raw.value.redirectUri then RedirectMismatch
    else Accepted(raw.value)
  }

  function Lookup(m: Store, state: string): Option<Pending> {
    if state in m then Some(m[state]) else None
  }

  /** The stored state goes before it is judged, so a failed callback uses it up too. */
  function Step(c: Config, m: Store, e: Event): (Outcome, Store) {
    if !c.ready then (NotConfigured, m)
    else
      match e
      case Begin(state, uri, _, _) =>
        if Resolved(c, uri) == "" then (NeedsRedirect, m)
        else (Began(NewPending(c, e).expiresAt), m[state := NewPending(c, e)])
      case Callback(state, uri, now) => (Judge(Lookup(m, state), uri, now), m - {state})
  }

  function Run(c: Config, evs: seq<Event>): Store {
    if evs == [] then map[] else Step(c, Run(c, evs[..|evs|-1]), evs[|evs|-1]).1
  }

  function LastOutcome(c: Config, evs: seq<Event>): Outcome
    requires evs != []
  {
    Step(c, Run(c, evs[..|evs|-1]), evs[|evs|-1]).0
  }

  // ---- The store against the history of the run ----

  /** The redirect URI of a start: the one supplied, else the configured one. */
  predicate RedirectsTo(c: Config, begin: Event, uri: string) {
    begin.Begin? &&
    ((begin.redirectUri.Some? && begin.redirectUri.value != "" && uri == begin.redirectUri.value)
     || ((begin.redirectUri == None || begin.redirectUri == Some("")) && uri == c.redirectUri))
  }

  /** The latest start that handed out `state`, unless a callback has presented
      `state` since. */
  function Outstanding(c: Config, evs: seq<Event>, state: string): Option<Event> {
    if evs == [] then None
    else
      var e := evs[|evs|-1];
      if e.state == state && e.Callback? then None
      else if e.state == state && !RedirectsTo(c, e, "") then Some(e)
      else Outstanding(c, evs[..|evs|-1], state)
  }

  lemma {:induction false} StoreIsOutstanding(c: Config, evs: seq<Event>, state: string)
    requires c.ready
    ensures var o := Outstanding(c, evs, state);
            var kept := Lookup(Run(c, evs), state);
            && (kept.Some? <==> o.Some?)
            && (o.Some? ==>
                  && o.value.Begin? && o.value in evs && o.value.state == state && !RedirectsTo(c, o.value, "")
                  && kept.value.expiresAt == Trunc(o.value.now) + 600
                  && kept.value.ownerHint == Lower(o.value.ownerHint)
                  && RedirectsTo(c, o.value, kept.value.redirectUri))
  {
    if evs != [] {
      StoreIsOutstanding(c, evs[..|evs|-1], state);
    }
  }

  /** What a start answers, and what it hands out for 600 seconds. */
  lemma {:induction false} BeginOutcome(c: Config, evs: seq<Event>, e: Event, uri: string)
    requires e.Begin? && RedirectsTo(c, e, uri)
    ensures LastOutcome(c, evs + [e])
            == if !c.ready then NotConfigured else if uri == "" then NeedsRedirect else Began(Trunc(e.now) + 600)
    ensures Outstanding(c, evs + [e], e.state) == Some(e) <== uri != ""
  {
    assert (evs + [e])[..|evs|] == evs;
  }

  /** What a callback is answered, over every run.  Its state counts as missing
      unless it was handed out and not presented since, not even in a failed
      callback; it may be 600 whole seconds old; a redirect URI, if one is supplied,
      has to be the one of the start.  An accepted callback is told the owner hint
      of the start, in lower case, and its redirect URI. */
  lemma {:induction false} CallbackOutcome(c: Config, evs: seq<Event>, e: Event, uri: string)
    requires e.Callback?
    requires Outstanding(c, evs, e.state).Some? ==> RedirectsTo(c, Outstanding(c, evs, e.state).value, uri)
    ensures var o := Outstanding(c, evs, e.state);
            LastOutcome(c, evs + [e])
            == if !c.ready then NotConfigured
               else if o == None then MissingState
               else if Trunc(e.now) > Trunc(o.value.now) + 600 then Expired
               else if e.redirectUri != None && e.redirectUri != Some("") && e.redirectUri != Some(uri)
               then RedirectMismatch
               else Accepted(Pending(Trunc(o.value.now) + 600, Lower(o.value.ownerHint), uri))
  {
    assert (evs + [e])[..|evs|] == evs;
    if c.ready { StoreIsOutstanding(c, evs, e.state); }
  }

  /** A callback is accepted exactly when its state was handed out, has not been
      presented since -- not even in a failed callback --, is at most 600 whole
      seconds old, and the redirect URI, if one is supplied, is that of the start. */
  lemma {:induction false} AcceptedIff(c: Config, evs: seq<Event>, e: Event)
    requires e.Callback?
    ensures LastOutcome(c, evs + [e]).Accepted? <==>
              && c.ready
              && Outstanding(c, evs, e.state).Some?
              && var begin := Outstanding(c, evs, e.state).value;
                 && Trunc(e.now) <= Trunc(begin.now) + 600
                 && (e.redirectUri == None || e.redirectUri == Some("")
                     || RedirectsTo(c, begin, e.redirectUri.value))
  {
    assert (evs + [e])[..|evs|] == evs;
    if c.ready {
      StoreIsOutstanding(c, evs, e.state);
    }
  }

  function Begins(evs: seq<Event>, state: string): nat {
    if evs == [] then 0
    else Begins(evs[..|evs|-1], state) + if evs[|evs|-1].Begin? && evs[|evs|-1].state == state then 1 else 0
  }

  function Acceptances(c: Config, evs: seq<Event>, state: string): nat {
    if evs == [] then 0
    else
      Acceptances(c, evs[..|evs|-1], state)
        + if LastOutcome(c, evs).Accepted? && evs[|evs|-1].state == state then 1 else 0
  }

  /** Over any run a state value is accepted at most as often as it was handed
      out: a value that the random source produced once is accepted at most once. */
  lemma {:induction false} OneShot(c: Config, evs: seq<Event>, state: string)
    ensures Acceptances(c, evs, state) + (if state in Run(c, evs) then 1 else 0) <= Begins(evs, state)
  {
    if evs != [] {
      OneShot(c, evs[..|evs|-1], state);
    }
  }
}
