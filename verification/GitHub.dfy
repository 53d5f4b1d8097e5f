/** The part of the GitHub service that keeps OAuth state and tokens in the vault. */
module GitHub {
  import opened Prelude
  import opened Vault
  import opened Storage
  import opened OAuthSpec

  lemma GitHubOwnerKey(owner: string)
    ensures OwnerKey("github", owner) == "oauth::github::" + Lower(owner)
  {
    assert Lower("github") == "github";
    assert "oauth::github::" == "oauth::" + "github" + "::";
  }

  class GitHubService {
    const config: Config
    const vault: LocalVault<Value>

    constructor (config: Config, vault: LocalVault<Value>)
      ensures this.config == config && this.vault == vault
    {
      this.config, this.vault := config, vault;
    }

    /** Everything in the vault that does not belong to `state`, both as entries
        and as the services see it. */
    ghost function Others(state: string): (Entries, Views)
      reads vault
      requires vault.Readable()
    {
      BesidesState(vault.Contents(), state)
    }

    /** `state` is a new random value. */
    method CreateOauthStart(state: string, redirectUri: Option<string>, ownerHint: string, now: real)
      returns (o: Outcome)
      requires vault.Readable()
      modifies vault
      ensures vault.Readable() && Others(state) == old(Others(state))
      ensures (o, SavedStates(vault.Contents()))
              == Step(config, old(SavedStates(vault.Contents())), Begin(state, redirectUri, ownerHint, now))
    {
      if !config.ready { return NotConfigured; }
      var resolved := if redirectUri.Some? && redirectUri.value != "" then redirectUri.value else config.redirectUri;
      if resolved == "" { return NeedsRedirect; }
      var expiresAt := Trunc(now) + STATE_TTL;
      ghost var before := vault.Contents();
      var _ := vault.Set(OAuthStateKey(state), OAuthState(Pending(expiresAt, Lower(ownerHint), resolved)));
      SettingAState(before, state, Pending(expiresAt, Lower(ownerHint), resolved));
      StateKeyIsPrivate(before, vault.Contents(), state);
      o := Began(expiresAt);
    }

    /** Read, then delete, then judge. */
    method ConsumeOauthState(state: string, redirectUri: Option<string>, now: real) returns (o: Outcome)
      requires vault.Readable()
      modifies vault
      ensures vault.Readable() && Others(state) == old(Others(state))
      ensures SavedStates(vault.Contents()) == old(SavedStates(vault.Contents())) - {state}
      ensures o == Judge(Lookup(old(SavedStates(vault.Contents())), state), redirectUri, now)
    {
      ghost var before := vault.Contents();
      var raw := vault.Get(OAuthStateKey(state));
      var _ := vault.Delete(OAuthStateKey(state));
      SavedStatesLookup(before, state);
      DeletingAState(before, state);
      StateKeyIsPrivate(before, vault.Contents(), state);
      if raw.value.None? || !raw.value.value.OAuthState? { return MissingState; }
      var pending := raw.value.value.pending;
      if pending.expiresAt < Trunc(now) { return Expired; }
      if redirectUri.Some? && redirectUri.value != "" && pending.redirectUri != "" {
        if redirectUri.value != pending.redirectUri { return RedirectMismatch; }
      }
      o := Accepted(pending);
    }

    /** The local half of the callback, before any request to GitHub. */
    method CompleteOauthCallback(state: string, redirectUri: Option<string>, now: real) returns (o: Outcome)
      requires vault.Readable()
      modifies vault
      ensures vault.Readable() && Others(state) == old(Others(state))
      ensures (o, SavedStates(vault.Contents()))
              == Step(config, old(SavedStates(vault.Contents())), Callback(state, redirectUri, now))
    {
      if !config.ready { return NotConfigured; }
      o := ConsumeOauthState(state, redirectUri, now);
    }

    method StoreToken(owner: string, accessToken: string, scopes: seq<string>, tokenType: string, now: real)
      requires vault.Readable()
      modifies vault
      ensures vault.Readable()
      ensures var token := OwnerToken(owner, accessToken, scopes, tokenType, Trunc(now));
              vault.Contents() == old(vault.Contents())[OwnerKey("github", owner) := OwnerState(token)]
      ensures BesidesOwner(vault.Contents(), "github", owner) == old(BesidesOwner(vault.Contents(), "github", owner))
    {
      var token := OwnerToken(owner, accessToken, scopes, tokenType, Trunc(now));
      ghost var before := vault.Contents();
      GitHubOwnerKey(owner);
      var _ := vault.Set("oauth::github::" + Lower(owner), OwnerState(token));
      OwnerKeyIsPrivate(before, vault.Contents(), "github", owner);
    }
  }
}
