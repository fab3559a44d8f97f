/**
 The request handlers of internal/authserver, statement by statement over the shared storage. Each is
 proved to do what the corresponding step of module Grants says.
 */
module AuthServing {
  import opened Common
  import opened Storage
  import opened Requests
  import opened Grants
  import opened CsrfTokens

  class AuthServer {
    const config: Config
    const storage: MemoryStorage
    const csrf: CsrfTable
    var pending: map<string, Pending>

    constructor (config: Config, storage: MemoryStorage, csrf: CsrfTable)
      ensures this.config == config && this.storage == storage && this.csrf == csrf && pending == map[]
    {
      this.config, this.storage, this.csrf := config, storage, csrf;
      pending := map[];
    }

    function View(): Books
      reads this, storage
    {
      Books(storage.authCodes, storage.refreshTokens, storage.clients, pending)
    }

    // ----- token.go -----

    method ValidateClientAuth(clientId: string, clientSecret: string) returns (ok: bool)
      ensures ok <==> ClientIsAuthentic(config, storage.clients, clientId, clientSecret)
      ensures ok <==> if clientId !in storage.clients then !config.requireRegistered
                      else storage.clients[clientId].clientSecret == "" || clientSecret == storage.clients[clientId].clientSecret
    {
      var client := storage.GetClient(clientId);
      if client.None? {
        return !config.requireRegistered;
      }
      return client.value.clientSecret == "" || clientSecret == client.value.clientSecret;
    }

    method HandleAuthorizationCode(x: ExchangeRequest, minted: Minted, now: int) returns (resp: Response)
      modifies storage
      ensures (View(), resp) == ExchangeStep(config, old(View()), x, minted, now)
    {
      if x.code == "" || x.redirectUri == "" || x.clientId == "" || x.verifier == "" {
        return Rejected(BadRequest);
      }
      if !ValidVerifier(x.verifier) {
        return Rejected(BadRequest);
      }
      var authentic := ValidateClientAuth(x.clientId, x.clientSecret);
      if !authentic {
        return Rejected(BadClient);
      }
      var found := storage.GetAuthorizationCode(x.code, now);
      if found.None? {
        return Rejected(BadGrant);
      }
      var authCode := found.value;
      storage.DeleteAuthorizationCode(x.code);
      if authCode.clientId != x.clientId {
        return Rejected(BadGrant);
      }
      if authCode.redirectUri != x.redirectUri {
        return Rejected(BadGrant);
      }
      if !PkceHolds(config.s256, x.verifier, authCode.challenge, authCode.challengeMethod) {
        return Rejected(BadGrant);
      }
      resp := Issue(authCode.userId, authCode.username, authCode.clientId, authCode.scope, minted, now);
    }

    method HandleRefreshToken(r: RefreshRequest, minted: Minted, now: int) returns (resp: Response)
      modifies storage
      ensures (View(), resp) == RefreshStep(config, old(View()), r, minted, now)
    {
      if r.refreshToken == "" {
        return Rejected(BadRequest);
      }
      if r.clientId == "" {
        return Rejected(BadRequest);
      }
      var authentic := ValidateClientAuth(r.clientId, r.clientSecret);
      if !authentic {
        return Rejected(BadClient);
      }
      var found := storage.GetRefreshToken(r.refreshToken, now);
      if found.None? {
        return Rejected(BadGrant);
      }
      var token := found.value;
      if token.clientId != r.clientId {
        return Rejected(BadGrant);
      }
      storage.DeleteRefreshToken(r.refreshToken);
      resp := Issue(token.userId, token.username, token.clientId, token.scope, minted, now);
    }

    method Issue(userId: string, username: string, clientId: string, scope: string, minted: Minted, now: int) returns (resp: Response)
      modifies storage
      ensures (View(), resp) == IssueTokens(config, old(View()), userId, username, clientId, scope, minted, now)
    {
      if !minted.signs {
        return Rejected(SigningFailed);
      }
      if minted.token.None? {
        return Rejected(NoRandomness);
      }
      var token := RefreshToken(minted.token.value, clientId, userId, username, scope);
      var stored := storage.StoreRefreshToken(token, now + config.refreshLifetime);
      if !stored {
        return Rejected(StorageFull);
      }
      return TokensIssued(Issuance(userId, username, clientId, scope, minted.token.value));
    }

    // ----- authorize.go -----

    method CheckClient(clientId: string, redirectUri: string) returns (ok: bool)
      ensures ok <==> ClientMayUse(config, storage.clients, clientId, redirectUri)
    {
      var client := storage.GetClient(clientId);
      if client.None? {
        return !config.requireRegistered;
      }
      ok := IsAllowedRedirectUri(config.parse, redirectUri, client.value.redirectUris);
    }

    /** The validation that handlePost and the federated ServeHTTP share. */
    method Validate(req: AuthorizeRequest) returns (r: Option<AuthorizeRequest>)
      ensures r == AcceptedRequest(config, View(), req)
    {
      var checked := CheckRequest(config.parse, req, config.allowedRedirectUris);
      if checked.Refused? {
        return None;
      }
      var mayUse := CheckClient(checked.req.clientId, checked.req.redirectUri);
      return if mayUse then Some(checked.req) else None;
    }

    method StoreNewCode(req: AuthorizeRequest, user: UserInfo, scopes: seq<string>, code: Option<string>, now: int) returns (resp: Response)
      modifies storage
      ensures (View(), resp) == IssueCode(config, old(View()), req, user, scopes, code, now)
    {
      if code.None? {
        return Rejected(NoRandomness);
      }
      var stored := storage.StoreAuthorizationCode(NewCode(code.value, req, user, scopes), now + config.codeLifetime);
      if !stored {
        return Rejected(StorageFull);
      }
      return CodeIssued(code.value);
    }

    /** The login form. A form token that is not good, or no longer good, stops it before anything else. */
    method HandlePost(csrfToken: string, req: AuthorizeRequest, user: Option<UserInfo>, code: Option<string>, now: int) returns (resp: Response)
      requires csrf.Valid() && csrf.clock <= now
      modifies storage, csrf
      ensures csrf.Valid() && csrf.log == old(csrf.log) + [Use.Validate(csrfToken, now)]
      ensures if Good(old(csrf.log), csrfToken, now) then (View(), resp) == LogInStep(config, old(View()), req, user, code, now)
              else View() == old(View()) && resp == Rejected(BadRequest)
    {
      var formOk := csrf.ValidateToken(csrfToken, now);
      if !formOk {
        return Rejected(BadRequest);
      }
      var accepted := Validate(req);
      if accepted.None? {
        return Rejected(BadRequest);
      }
      if user.None? {
        return Rejected(AccessDenied);
      }
      var grantedScopes := FilterScopes(accepted.value.scopes, user.value.scopes);
      if |grantedScopes| == 0 {
        grantedScopes := FilterScopes(config.scopesSupported, user.value.scopes);
      }
      resp := StoreNewCode(accepted.value, user.value, grantedScopes, code, now);
    }

    // ----- authorize_federated.go -----

    method ServeFederated(req: AuthorizeRequest, internalState: Option<string>, urlBuilt: bool, now: int) returns (resp: Response)
      modifies this`pending
      ensures (View(), resp) == BeginFederatedStep(config, old(View()), req, internalState, urlBuilt, now)
    {
      var accepted := Validate(req);
      if accepted.None? {
        return Rejected(BadRequest);
      }
      if internalState.None? {
        return Rejected(NoRandomness);
      }
      pending := pending[internalState.value := Pending(accepted.value, now)];
      if !urlBuilt {
        return Rejected(UpstreamFailed);
      }
      return Done;
    }

    /** failed says that the upstream provider reported an error, hasCode that it sent a code. */
    method HandleCallback(failed: bool, hasCode: bool, state: string, upstream: Option<UpstreamUser>, code: Option<string>, now: int)
      returns (resp: Response)
      modifies this`pending, storage
      ensures if failed then (View(), resp) == Serve(config, old(View()), CallbackError(state), now)
              else if !hasCode then View() == old(View()) && resp == Rejected(BadRequest)
              else (View(), resp) == CallbackStep(config, old(View()), state, upstream, code, now)
    {
      if failed {
        if state in pending {
          pending := pending - {state};
        }
        assert state !in old(pending) ==> old(pending) - {state} == old(pending);
        return Rejected(AccessDenied);
      }
      if !hasCode {
        return Rejected(BadRequest);
      }
      if state !in pending {
        return Rejected(BadRequest);
      }
      var original := pending[state].req;
      pending := pending - {state};
      if upstream.None? {
        return Rejected(AccessDenied);
      }
      var u := upstream.value;
      var grantedScopes := FilterScopes(original.scopes, u.scopes);
      if |grantedScopes| == 0 {
        grantedScopes := u.scopes;
      }
      var userId := u.email;
      if userId == "" {
        userId := u.subject;
      }
      var username := u.name;
      if username == "" {
        username := u.email;
        if username == "" {
          username := u.subject;
        }
      }
      resp := StoreNewCode(original, UserInfo(userId, username, u.scopes), grantedScopes, code, now);
    }

    method CleanUpPending(now: int)
      modifies this`pending
      ensures pending == PendingSwept(old(pending), now)
    {
      var cutoff := now - PENDING_LIFETIME;
      var todo := pending.Keys;
      while todo != {}
        invariant todo <= old(pending).Keys
        invariant forall s :: s in pending <==> s in old(pending) && (s in todo || old(pending)[s].createdAt >= cutoff)
        invariant forall s :: s in pending ==> pending[s] == old(pending)[s]
      {
        var s :| s in todo;
        if pending[s].createdAt < cutoff {
          pending := pending - {s};
        }
        todo := todo - {s};
      }
    }

    // ----- authserver.go -----

    method HandleRegister(uris: seq<string>, clientId: string, clientSecret: string) returns (resp: Response)
      modifies storage
      ensures (View(), resp) == RegisterStep(config, old(View()), uris, clientId, clientSecret)
    {
      if |uris| == 0 {
        return Rejected(BadRequest);
      }
      for i := 0 to |uris|
        invariant View() == old(View())
        invariant forall k :: 0 <= k < i ==> AllowedBy(config.parse, uris[k], config.allowedRedirectUris)
      {
        var allowed := IsAllowedRedirectUri(config.parse, uris[i], config.allowedRedirectUris);
        if !allowed {
          assert !AllAllowed(config, uris);
          return Rejected(BadRedirectUri);
        }
      }
      var stored := storage.StoreClient(Client(clientId, clientSecret, uris));
      if !stored {
        return Rejected(StorageFull);
      }
      return Done;
    }
  }
}
