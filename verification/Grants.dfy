/**
 The life of OAuth grants in internal/authserver: login, authorization code, exchange, and chains of
 refresh tokens (token.go, authorize.go, authorize_federated.go, authserver.go). Requests are served
 one at a time. Random values, the outcome of authentication and the clock are parameters.
 */
module Grants {
  import opened Common
  import opened Storage
  import opened Requests

  datatype Config = Config(
    parse: UrlParser, s256: string -> string, allowedRedirectUris: seq<string>, requireRegistered: bool,
    codeLifetime: int, refreshLifetime: int, scopesSupported: seq<string>)

  datatype UserInfo = UserInfo(id: string, username: string, scopes: seq<string>)

  /** A user as the upstream identity provider describes them. */
  datatype UpstreamUser = UpstreamUser(email: string, subject: string, name: string, scopes: seq<string>)

  datatype Pending = Pending(req: AuthorizeRequest, createdAt: int)

  datatype Books = Books(
    codes: Table<AuthorizationCode>, tokens: Table<RefreshToken>, clients: map<string, Client>, pending: map<string, Pending>)

  datatype ExchangeRequest = ExchangeRequest(
    code: string, redirectUri: string, clientId: string, clientSecret: string, verifier: string)

  datatype RefreshRequest = RefreshRequest(refreshToken: string, clientId: string, clientSecret: string)

  /** What token generation comes up with: whether signing works, and a random refresh token if there is one. */
  datatype Minted = Minted(signs: bool, token: Option<string>)

  datatype Call =
    | LogIn(req: AuthorizeRequest, user: Option<UserInfo>, code: Option<string>)
    | BeginFederated(req: AuthorizeRequest, newState: Option<string>, urlBuilt: bool)
    | Callback(state: string, upstream: Option<UpstreamUser>, code: Option<string>)
    | CallbackError(state: string)
    | Register(redirectUris: seq<string>, clientId: string, clientSecret: string)
    | Exchange(x: ExchangeRequest, minted: Minted)
    | Refresh(r: RefreshRequest, minted: Minted)
    | CleanupStorage
    | CleanupPending

  datatype Fault =
    | BadRequest | BadClient | BadGrant | AccessDenied | BadRedirectUri | NoRandomness | SigningFailed | StorageFull | UpstreamFailed

  /** The contents of an access token, and the refresh token that came with it. */
  datatype Issuance = Issuance(userId: string, username: string, clientId: string, scope: string, refreshToken: string)

  datatype Response = CodeIssued(code: string) | TokensIssued(issued: Issuance) | Done | Rejected(why: Fault)

  datatype Looked<+V> = Found(v: V) | Missing(why: Fault)

  // ----- What each request does -----

  function JoinScopes(scopes: seq<string>): string {
    if scopes == [] then ""
    else if |scopes| == 1 then scopes[0]
    else scopes[0] + " " + JoinScopes(scopes[1..])
  }

  /** checkRegisteredClient. */
  predicate ClientMayUse(c: Config, clients: map<string, Client>, clientId: string, uri: string) {
    if clientId in clients then AllowedBy(c.parse, uri, clients[clientId].redirectUris) else !c.requireRegistered
  }

  /** validateClientAuth. */
  predicate ClientIsAuthentic(c: Config, clients: map<string, Client>, clientId: string, secret: string) {
    if clientId in clients then clients[clientId].clientSecret == "" || secret == clients[clientId].clientSecret
    else !c.requireRegistered
  }

  function NewCode(code: string, req: AuthorizeRequest, user: UserInfo, scopes: seq<string>): AuthorizationCode {
    AuthorizationCode(code, req.clientId, user.id, user.username, req.redirectUri, JoinScopes(scopes),
                      req.challenge, req.challengeMethod, req.state, req.nonce)
  }

  function IssueCode(c: Config, b: Books, req: AuthorizeRequest, user: UserInfo, scopes: seq<string>, code: Option<string>, now: int): (Books, Response) {
    if code.None? then (b, Rejected(NoRandomness))
    else if |b.codes| >= MAX_AUTH_CODES then (b, Rejected(StorageFull))
    else (b.(codes := b.codes[code.value := Entry(NewCode(code.value, req, user, scopes), now + c.codeLifetime)]), CodeIssued(code.value))
  }

  /** The request of a login form, validated and checked against the client. */
  function AcceptedRequest(c: Config, b: Books, req: AuthorizeRequest): (r: Option<AuthorizeRequest>)
    ensures r.Some? ==> RequestOk(c, b.clients, r.value)
  {
    match CheckRequest(c.parse, req, c.allowedRedirectUris)
    case Refused(_) => None
    case Accepted(req') => if ClientMayUse(c, b.clients, req'.clientId, req'.redirectUri) then Some(req') else None
  }

  function LoginScopes(c: Config, req: AuthorizeRequest, user: UserInfo): (scopes: seq<string>)
    ensures forall s :: s in scopes ==> s in user.scopes
  {
    var granted := Granted(req.scopes, user.scopes);
    if granted == [] then Granted(c.scopesSupported, user.scopes) else granted
  }

  function LogInStep(c: Config, b: Books, req: AuthorizeRequest, user: Option<UserInfo>, code: Option<string>, now: int): (Books, Response) {
    match AcceptedRequest(c, b, req)
    case None => (b, Rejected(BadRequest))
    case Some(req') =>
      if user.None? then (b, Rejected(AccessDenied))
      else IssueCode(c, b, req', user.value, LoginScopes(c, req', user.value), code, now)
  }

  /** The request is kept even if the URL of the upstream provider cannot be built afterwards. */
  function BeginFederatedStep(c: Config, b: Books, req: AuthorizeRequest, state: Option<string>, urlBuilt: bool, now: int): (Books, Response) {
    match AcceptedRequest(c, b, req)
    case None => (b, Rejected(BadRequest))
    case Some(req') =>
      if state.None? then (b, Rejected(NoRandomness))
      else (b.(pending := b.pending[state.value := Pending(req', now)]), if urlBuilt then Done else Rejected(UpstreamFailed))
  }

  /** The local identity of an upstream user: email before subject, name before both. */
  function LocalUser(u: UpstreamUser): UserInfo {
    UserInfo(if u.email != "" then u.email else u.subject,
             if u.name != "" then u.name else if u.email != "" then u.email else u.subject, u.scopes)
  }

  function UpstreamScopes(req: AuthorizeRequest, u: UpstreamUser): (scopes: seq<string>)
    ensures forall s :: s in scopes ==> s in u.scopes
  {
    var granted := Granted(req.scopes, u.scopes);
    if granted == [] then u.scopes else granted
  }

  function CallbackStep(c: Config, b: Books, state: string, upstream: Option<UpstreamUser>, code: Option<string>, now: int): (Books, Response) {
    if state !in b.pending then (b, Rejected(BadRequest))
    else
      var req := b.pending[state].req;
      var b' := b.(pending := b.pending - {state});
      if upstream.None? then (b', Rejected(AccessDenied))
      else IssueCode(c, b', req, LocalUser(upstream.value), UpstreamScopes(req, upstream.value), code, now)
  }

  predicate AllAllowed(c: Config, uris: seq<string>) {
    forall i :: 0 <= i < |uris| ==> AllowedBy(c.parse, uris[i], c.allowedRedirectUris)
  }

  function RegisterStep(c: Config, b: Books, uris: seq<string>, clientId: string, secret: string): (Books, Response) {
    if uris == [] then (b, Rejected(BadRequest))
    else if !AllAllowed(c, uris) then (b, Rejected(BadRedirectUri))
    else if |b.clients| >= MAX_CLIENTS then (b, Rejected(StorageFull))
    else (b.(clients := b.clients[clientId := Client(clientId, secret, uris)]), Done)
  }

  /** The checks of an exchange up to and including the lookup of the code. */
  function FindCode(c: Config, b: Books, x: ExchangeRequest, now: int): Looked<AuthorizationCode> {
    if x.code == "" || x.redirectUri == "" || x.clientId == "" || !ValidVerifier(x.verifier) then Missing(BadRequest)
    else if !ClientIsAuthentic(c, b.clients, x.clientId, x.clientSecret) then Missing(BadClient)
    else
      match Fetch(b.codes, x.code, now)
      case None => Missing(BadGrant)
      case Some(code) => Found(code)
  }

  predicate CodeIsFor(c: Config, code: AuthorizationCode, x: ExchangeRequest) {
    code.clientId == x.clientId && code.redirectUri == x.redirectUri
    && PkceHolds(c.s256, x.verifier, code.challenge, code.challengeMethod)
  }

  /** issueTokens. */
  function IssueTokens(c: Config, b: Books, userId: string, username: string, clientId: string, scope: string, minted: Minted, now: int): (Books, Response) {
    if !minted.signs then (b, Rejected(SigningFailed))
    else if minted.token.None? then (b, Rejected(NoRandomness))
    else if |b.tokens| >= MAX_REFRESH_TOKENS then (b, Rejected(StorageFull))
    else
      var t := minted.token.value;
      (b.(tokens := b.tokens[t := Entry(RefreshToken(t, clientId, userId, username, scope), now + c.refreshLifetime)]),
       TokensIssued(Issuance(userId, username, clientId, scope, t)))
  }

  /** Whatever happens after the lookup, the code is gone. */
  function ExchangeStep(c: Config, b: Books, x: ExchangeRequest, minted: Minted, now: int): (Books, Response) {
    match FindCode(c, b, x, now)
    case Missing(why) => (b, Rejected(why))
    case Found(code) =>
      var b' := b.(codes := b.codes - {x.code});
      if !CodeIsFor(c, code, x) then (b', Rejected(BadGrant))
      else IssueTokens(c, b', code.userId, code.username, code.clientId, code.scope, minted, now)
  }

  /** The checks of a refresh: a token that passes them is rotated out. */
  function FindToken(c: Config, b: Books, r: RefreshRequest, now: int): Looked<RefreshToken> {
    if r.refreshToken == "" || r.clientId == "" then Missing(BadRequest)
    else if !ClientIsAuthentic(c, b.clients, r.clientId, r.clientSecret) then Missing(BadClient)
    else
      match Fetch(b.tokens, r.refreshToken, now)
      case None => Missing(BadGrant)
      case Some(token) => if token.clientId == r.clientId then Found(token) else Missing(BadGrant)
  }

  function RefreshStep(c: Config, b: Books, r: RefreshRequest, minted: Minted, now: int): (Books, Response) {
    match FindToken(c, b, r, now)
    case Missing(why) => (b, Rejected(why))
    case Found(token) =>
      IssueTokens(c, b.(tokens := b.tokens - {r.refreshToken}), token.userId, token.username, token.clientId, token.scope, minted, now)
  }

  const PENDING_LIFETIME := 600_000_000_000  // ten minutes in nanoseconds

  function PendingSwept(pending: map<string, Pending>, now: int): map<string, Pending> {
    map state | state in pending && pending[state].createdAt >= now - PENDING_LIFETIME :: pending[state]
  }

  function Serve(c: Config, b: Books, call: Call, now: int): (Books, Response) {
    match call
    case LogIn(req, user, code) => LogInStep(c, b, req, user, code, now)
    case BeginFederated(req, state, urlBuilt) => BeginFederatedStep(c, b, req, state, urlBuilt, now)
    case Callback(state, upstream, code) => CallbackStep(c, b, state, upstream, code, now)
    case CallbackError(state) => (b.(pending := b.pending - {state}), Rejected(AccessDenied))
    case Register(uris, clientId, secret) => RegisterStep(c, b, uris, clientId, secret)
    case Exchange(x, minted) => ExchangeStep(c, b, x, minted, now)
    case Refresh(r, minted) => RefreshStep(c, b, r, minted, now)
    case CleanupStorage => (b.(codes := Swept(b.codes, now), tokens := Swept(b.tokens, now)), Done)
    case CleanupPending => (b.(pending := PendingSwept(b.pending, now)), Done)
  }

  // ----- History -----

  /** A code that was stored, the user whose login created it, and the scopes that login granted. */
  datatype Grant = Grant(code: AuthorizationCode, user: UserInfo, scopes: seq<string>)

  /**
   What has happened so far: every code ever stored; the codes taken out of the table by an exchange;
   for each exchanged code the verifier presented; the exchanged codes in order; for every refresh
   token ever issued the code it descends from; the tokens rotated out; every issuance with the code
   it descends from; and the client ids of accepted authorization requests and of registrations.
   */
  datatype History = History(
    grants: map<string, Grant>,
    spent: set<string>,
    verifiers: map<string, string>,
    exchanges: seq<string>,
    chain: map<string, string>,
    rotated: set<string>,
    issued: seq<(Issuance, string)>,
    clientIds: set<string>)

  const EMPTY_HISTORY := History(map[], {}, map[], [], map[], {}, [], {})
  const EMPTY_BOOKS := Books(map[], map[], map[], map[])

  function RecordGrant(h: History, resp: Response, req: AuthorizeRequest, user: UserInfo, scopes: seq<string>): History {
    if resp.CodeIssued? then
      h.(grants := h.grants[resp.code := Grant(NewCode(resp.code, req, user, scopes), user, scopes)])
    else h
  }

  function RecordIssue(h: History, resp: Response, code: string): History {
    if resp.TokensIssued? then
      h.(chain := h.chain[resp.issued.refreshToken := code], issued := h.issued + [(resp.issued, code)])
    else h
  }

  function Record(c: Config, b: Books, h: History, call: Call, now: int): History {
    var resp := Serve(c, b, call, now).1;
    match call
    case LogIn(req, user, _) =>
      var r := AcceptedRequest(c, b, req);
      if r.None? || user.None? then h
      else
        RecordGrant(h, resp, r.value, user.value, LoginScopes(c, r.value, user.value)).(clientIds := h.clientIds + {req.clientId})
    case BeginFederated(req, _, _) => h.(clientIds := h.clientIds + {req.clientId})
    case Callback(state, upstream, _) =>
      if state !in b.pending || upstream.None? then h
      else
        var req := b.pending[state].req;
        RecordGrant(h, resp, req, LocalUser(upstream.value), UpstreamScopes(req, upstream.value))
    case CallbackError(_) => h
    case Register(_, clientId, _) => h.(clientIds := h.clientIds + {clientId})
    case Exchange(x, _) =>
      if FindCode(c, b, x, now).Missing? then h
      else
        var h' := h.(spent := h.spent + {x.code});
        if resp.TokensIssued? then
          RecordIssue(h'.(verifiers := h'.verifiers[x.code := x.verifier], exchanges := h'.exchanges + [x.code]), resp, x.code)
        else h'
    case Refresh(r, _) =>
      if FindToken(c, b, r, now).Missing? || r.refreshToken !in h.chain then h
      else RecordIssue(h.(rotated := h.rotated + {r.refreshToken}), resp, h.chain[r.refreshToken])
    case CleanupStorage => h
    case CleanupPending => h
  }

  /** Random values have never been handed out before. */
  predicate IsFresh(h: History, call: Call) {
    match call
    case LogIn(_, _, code) => code.Some? ==> code.value !in h.grants
    case Callback(_, _, code) => code.Some? ==> code.value !in h.grants
    case Register(_, clientId, _) => clientId !in h.clientIds
    case Exchange(_, minted) => minted.token.Some? ==> minted.token.value !in h.chain
    case Refresh(_, minted) => minted.token.Some? ==> minted.token.value !in h.chain
    case _ => true
  }

  datatype World = World(b: Books, h: History)

  datatype Timed = Timed(call: Call, now: int)

  function Advance(c: Config, w: World, t: Timed): World {
    World(Serve(c, w.b, t.call, t.now).0, Record(c, w.b, w.h, t.call, t.now))
  }

  function After(c: Config, w: World, run: seq<Timed>): World
    decreases run
  {
    if run == [] then w else After(c, Advance(c, w, run[0]), run[1..])
  }

  predicate Legitimate(c: Config, w: World, run: seq<Timed>)
    decreases run
  {
    run == [] || (IsFresh(w.h, run[0].call) && Legitimate(c, Advance(c, w, run[0]), run[1..]))
  }

  const START := World(EMPTY_BOOKS, EMPTY_HISTORY)

  // ----- Invariant: what codes may be created for -----

  /** A request that may be turned into a code. */
  predicate RequestOk(c: Config, clients: map<string, Client>, req: AuthorizeRequest) {
    && req.challengeMethod == "S256" && ValidChallenge(req.challenge)
    && AllowedBy(c.parse, req.redirectUri, c.allowedRedirectUris)
    && ClientMayUse(c, clients, req.clientId, req.redirectUri)
  }

  /** A code says what its login allowed. */
  predicate GrantOk(c: Config, clients: map<string, Client>, g: Grant) {
    && g.code.userId == g.user.id && g.code.username == g.user.username
    && g.code.scope == JoinScopes(g.scopes) && (forall s :: s in g.scopes ==> s in g.user.scopes)
    && g.code.challengeMethod == "S256" && ValidChallenge(g.code.challenge)
    && AllowedBy(c.parse, g.code.redirectUri, c.allowedRedirectUris)
    && ClientMayUse(c, clients, g.code.clientId, g.code.redirectUri)
  }

  predicate ClientsOk(c: Config, clients: map<string, Client>, clientIds: set<string>) {
    forall id :: id in clients ==>
      id in clientIds && AllAllowed(c, clients[id].redirectUris)
  }

  predicate PendingOk(c: Config, clients: map<string, Client>, clientIds: set<string>, pending: map<string, Pending>) {
    forall s :: s in pending ==> RequestOk(c, clients, pending[s].req) && pending[s].req.clientId in clientIds
  }

  predicate GrantsOk(c: Config, clients: map<string, Client>, clientIds: set<string>, grants: map<string, Grant>) {
    forall k :: k in grants ==> GrantOk(c, clients, grants[k]) && grants[k].code.clientId in clientIds
  }

  predicate Permitted(c: Config, b: Books, h: History) {
    && ClientsOk(c, b.clients, h.clientIds)
    && PendingOk(c, b.clients, h.clientIds, b.pending)
    && GrantsOk(c, b.clients, h.clientIds, h.grants)
  }

  lemma NewGrantPermitted(c: Config, b: Books, h: History, req: AuthorizeRequest, user: UserInfo, scopes: seq<string>, code: string)
    requires Permitted(c, b, h) && RequestOk(c, b.clients, req) && req.clientId in h.clientIds
    requires forall s :: s in scopes ==> s in user.scopes
    ensures var g := Grant(NewCode(code, req, user, scopes), user, scopes);
            GrantsOk(c, b.clients, h.clientIds, h.grants[code := g])
  {
    assert GrantOk(c, b.clients, Grant(NewCode(code, req, user, scopes), user, scopes));
  }

  lemma NoteClientPermitted(c: Config, b: Books, h: History, id: string)
    requires Permitted(c, b, h)
    ensures Permitted(c, b, h.(clientIds := h.clientIds + {id}))
  {
  }

  /** A new client cannot be one that an existing grant or pending request already names. */
  lemma RegisterPermitted(c: Config, b: Books, h: History, client: Client)
    requires Permitted(c, b, h) && client.clientId !in h.clientIds
    requires AllAllowed(c, client.redirectUris)
    ensures Permitted(c, b.(clients := b.clients[client.clientId := client]), h.(clientIds := h.clientIds + {client.clientId}))
  {
    var clients := b.clients[client.clientId := client];
    forall s | s in b.pending ensures RequestOk(c, clients, b.pending[s].req) {
      assert RequestOk(c, b.clients, b.pending[s].req);
    }
    forall k | k in h.grants ensures GrantOk(c, clients, h.grants[k]) {
      assert GrantOk(c, b.clients, h.grants[k]);
    }
  }

  lemma LogInPermitted(c: Config, w: World, req: AuthorizeRequest, user: Option<UserInfo>, code: Option<string>, now: int)
    requires Permitted(c, w.b, w.h)
    ensures var w' := Advance(c, w, Timed(LogIn(req, user, code), now)); Permitted(c, w'.b, w'.h)
  {
    var r := AcceptedRequest(c, w.b, req);
    if r.Some? && user.Some? {
      var h := w.h.(clientIds := w.h.clientIds + {req.clientId});
      NoteClientPermitted(c, w.b, w.h, req.clientId);
      if code.Some? {
        NewGrantPermitted(c, w.b, h, r.value, user.value, LoginScopes(c, r.value, user.value), code.value);
      }
    }
  }

  lemma CallbackPermitted(c: Config, w: World, state: string, upstream: Option<UpstreamUser>, code: Option<string>, now: int)
    requires Permitted(c, w.b, w.h)
    ensures var w' := Advance(c, w, Timed(Callback(state, upstream, code), now)); Permitted(c, w'.b, w'.h)
  {
    if state in w.b.pending && upstream.Some? && code.Some? {
      var req := w.b.pending[state].req;
      NewGrantPermitted(c, w.b, w.h, req, LocalUser(upstream.value), UpstreamScopes(req, upstream.value), code.value);
    }
  }

  lemma BeginFederatedPermitted(c: Config, w: World, req: AuthorizeRequest, state: Option<string>, urlBuilt: bool, now: int)
    requires Permitted(c, w.b, w.h)
    ensures var w' := Advance(c, w, Timed(BeginFederated(req, state, urlBuilt), now)); Permitted(c, w'.b, w'.h)
  {
    NoteClientPermitted(c, w.b, w.h, req.clientId);
    var r := AcceptedRequest(c, w.b, req);
    if r.Some? {
      assert RequestOk(c, w.b.clients, r.value);
    }
  }

  lemma RegisterCallPermitted(c: Config, w: World, uris: seq<string>, clientId: string, secret: string, now: int)
    requires Permitted(c, w.b, w.h) && clientId !in w.h.clientIds
    ensures var w' := Advance(c, w, Timed(Register(uris, clientId, secret), now)); Permitted(c, w'.b, w'.h)
  {
    NoteClientPermitted(c, w.b, w.h, clientId);
    if RegisterStep(c, w.b, uris, clientId, secret).1.Done? {
      RegisterPermitted(c, w.b, w.h, Client(clientId, secret, uris));
    }
  }

  /** Calls at the token endpoint and cleanups grant nothing new. */
  predicate GrantsNothing(w: World, w': World) {
    && w'.b.clients == w.b.clients && w'.h.clientIds == w.h.clientIds && w'.h.grants == w.h.grants
    && forall s :: s in w'.b.pending ==> s in w.b.pending && w'.b.pending[s] == w.b.pending[s]
  }

  lemma ExchangeGrantsNothing(c: Config, w: World, x: ExchangeRequest, minted: Minted, now: int)
    ensures GrantsNothing(w, Advance(c, w, Timed(Exchange(x, minted), now)))
  {
  }

  lemma RefreshGrantsNothing(c: Config, w: World, r: RefreshRequest, minted: Minted, now: int)
    ensures GrantsNothing(w, Advance(c, w, Timed(Refresh(r, minted), now)))
  {
    if FindToken(c, w.b, r, now).Found? {
      var b := RefreshStep(c, w.b, r, minted, now).0;
      assert b.clients == w.b.clients && b.pending == w.b.pending;
    }
  }

  lemma CleanupsGrantNothing(c: Config, w: World, state: string, now: int)
    ensures GrantsNothing(w, Advance(c, w, Timed(CallbackError(state), now)))
    ensures GrantsNothing(w, Advance(c, w, Timed(CleanupStorage, now)))
    ensures GrantsNothing(w, Advance(c, w, Timed(CleanupPending, now)))
  {
  }

  lemma StepPermitted(c: Config, w: World, t: Timed)
    requires Permitted(c, w.b, w.h) && IsFresh(w.h, t.call)
    ensures var w' := Advance(c, w, t); Permitted(c, w'.b, w'.h)
  {
    match t.call
    case LogIn(req, user, code) => LogInPermitted(c, w, req, user, code, t.now);
    case BeginFederated(req, state, urlBuilt) => BeginFederatedPermitted(c, w, req, state, urlBuilt, t.now);
    case Callback(state, upstream, code) => CallbackPermitted(c, w, state, upstream, code, t.now);
    case Register(uris, clientId, secret) => RegisterCallPermitted(c, w, uris, clientId, secret, t.now);
    case Exchange(x, minted) => ExchangeGrantsNothing(c, w, x, minted, t.now);
    case Refresh(r, minted) => RefreshGrantsNothing(c, w, r, minted, t.now);
    case CallbackError(state) => CleanupsGrantNothing(c, w, state, t.now);
    case CleanupStorage => CleanupsGrantNothing(c, w, "", t.now);
    case CleanupPending => CleanupsGrantNothing(c, w, "", t.now);
  }

  // ----- Invariant: codes, exchanges and refresh chains balance -----

  predicate CodesOk(codes: Table<AuthorizationCode>, grants: map<string, Grant>, spent: set<string>) {
    && |codes| <= MAX_AUTH_CODES
    && (forall k :: k in codes ==> k in grants && codes[k].value == grants[k].code && k !in spent)
    && (forall k :: k in spent ==> k in grants)
  }

  predicate ExchangesOk(s256: string -> string, h: History) {
    && (forall k :: k in h.verifiers ==> k in h.spent && k in h.grants && s256(h.verifiers[k]) == h.grants[k].code.challenge)
    && (forall i :: 0 <= i < |h.exchanges| ==> h.exchanges[i] in h.verifiers)
    && (forall i, j :: 0 <= i < j < |h.exchanges| ==> h.exchanges[i] != h.exchanges[j])
  }

  predicate ChainsOk(chain: map<string, string>, verifiers: map<string, string>, rotated: set<string>) {
    && (forall t :: t in chain ==> chain[t] in verifiers)
    && (forall t :: t in rotated ==> t in chain)
  }

  /** A token carries exactly what its code carries. */
  predicate Carries(t: RefreshToken, code: AuthorizationCode) {
    t.userId == code.userId && t.username == code.username && t.clientId == code.clientId && t.scope == code.scope
  }

  predicate TokensOk(tokens: Table<RefreshToken>, chain: map<string, string>, rotated: set<string>, grants: map<string, Grant>) {
    && |tokens| <= MAX_REFRESH_TOKENS
    && (forall t :: t in tokens ==>
          t in chain && t !in rotated && chain[t] in grants && Carries(tokens[t].value, grants[chain[t]].code))
    && (forall t, u :: t in tokens && u in tokens && chain[t] == chain[u] ==> t == u)
  }

  predicate IssuanceOk(iss: Issuance, k: string, chain: map<string, string>, grants: map<string, Grant>) {
    && k in grants && iss.refreshToken in chain && chain[iss.refreshToken] == k
    && iss.userId == grants[k].code.userId && iss.username == grants[k].code.username
    && iss.clientId == grants[k].code.clientId && iss.scope == grants[k].code.scope
  }

  predicate IssuedOk(issued: seq<(Issuance, string)>, chain: map<string, string>, grants: map<string, Grant>) {
    forall i :: 0 <= i < |issued| ==> IssuanceOk(issued[i].0, issued[i].1, chain, grants)
  }

  predicate Balanced(s256: string -> string, codes: Table<AuthorizationCode>, tokens: Table<RefreshToken>, h: History) {
    && CodesOk(codes, h.grants, h.spent)
    && ExchangesOk(s256, h)
    && ChainsOk(h.chain, h.verifiers, h.rotated)
    && TokensOk(tokens, h.chain, h.rotated, h.grants)
    && IssuedOk(h.issued, h.chain, h.grants)
  }

  lemma IssuedStaysOk(issued: seq<(Issuance, string)>, chain: map<string, string>, grants: map<string, Grant>,
                      chain': map<string, string>, grants': map<string, Grant>)
    requires IssuedOk(issued, chain, grants)
    requires forall t :: t in chain ==> t in chain' && chain'[t] == chain[t]
    requires forall k :: k in grants ==> k in grants' && grants'[k] == grants[k]
    ensures IssuedOk(issued, chain', grants')
  {
    forall i | 0 <= i < |issued| ensures IssuanceOk(issued[i].0, issued[i].1, chain', grants') {
      assert IssuanceOk(issued[i].0, issued[i].1, chain, grants);
    }
  }

  lemma NewCodeFits(codes: Table<AuthorizationCode>, grants: map<string, Grant>, spent: set<string>, k: string, g: Grant, expiresAt: int)
    requires CodesOk(codes, grants, spent) && k !in grants && |codes| < MAX_AUTH_CODES
    ensures CodesOk(codes[k := Entry(g.code, expiresAt)], grants[k := g], spent)
  {
  }

  lemma NewCodeBalances(s256: string -> string, codes: Table<AuthorizationCode>, tokens: Table<RefreshToken>, h: History, k: string, g: Grant, expiresAt: int)
    requires Balanced(s256, codes, tokens, h) && k !in h.grants && |codes| < MAX_AUTH_CODES
    ensures Balanced(s256, codes[k := Entry(g.code, expiresAt)], tokens, h.(grants := h.grants[k := g]))
  {
    var grants := h.grants[k := g];
    NewCodeFits(codes, h.grants, h.spent, k, g, expiresAt);
    IssuedStaysOk(h.issued, h.chain, h.grants, h.chain, grants);
    assert TokensOk(tokens, h.chain, h.rotated, grants) by {
      assert forall t :: t in tokens ==> h.chain[t] != k;
    }
  }

  /** Taking a code out of the table for good. */
  lemma SpendBalances(s256: string -> string, codes: Table<AuthorizationCode>, tokens: Table<RefreshToken>, h: History, k: string)
    requires Balanced(s256, codes, tokens, h) && k in codes
    ensures Balanced(s256, codes - {k}, tokens, h.(spent := h.spent + {k}))
  {
    assert CodesOk(codes - {k}, h.grants, h.spent + {k}) by {
      SubsetIsSmaller((codes - {k}).Keys, codes.Keys);
    }
  }

  /** The first token of a code that was never exchanged before. */
  lemma OpenBalances(s256: string -> string, codes: Table<AuthorizationCode>, tokens: Table<RefreshToken>, h: History, k: string, verifier: string)
    requires Balanced(s256, codes, tokens, h) && k in h.spent && k !in h.verifiers
    requires k in h.grants && s256(verifier) == h.grants[k].code.challenge
    ensures Balanced(s256, codes, tokens, h.(verifiers := h.verifiers[k := verifier], exchanges := h.exchanges + [k]))
    ensures forall t :: t in tokens ==> h.chain[t] != k
  {
    var h' := h.(verifiers := h.verifiers[k := verifier], exchanges := h.exchanges + [k]);
    assert ExchangesOk(s256, h');
    assert ChainsOk(h'.chain, h'.verifiers, h'.rotated);
  }

  lemma NewTokenFits(tokens: Table<RefreshToken>, chain: map<string, string>, rotated: set<string>, grants: map<string, Grant>,
                     k: string, t: RefreshToken, expiresAt: int)
    requires TokensOk(tokens, chain, rotated, grants) && t.token !in chain && t.token !in rotated && |tokens| < MAX_REFRESH_TOKENS
    requires forall u :: u in tokens ==> chain[u] != k
    requires k in grants && Carries(t, grants[k].code)
    ensures TokensOk(tokens[t.token := Entry(t, expiresAt)], chain[t.token := k], rotated, grants)
  {
  }

  /** Handing out a fresh token for an exchanged code without a live token. */
  lemma NewTokenBalances(s256: string -> string, codes: Table<AuthorizationCode>, tokens: Table<RefreshToken>, h: History,
                         k: string, t: RefreshToken, expiresAt: int, iss: Issuance)
    requires Balanced(s256, codes, tokens, h) && k in h.verifiers && t.token !in h.chain && |tokens| < MAX_REFRESH_TOKENS
    requires forall u :: u in tokens ==> h.chain[u] != k
    requires k in h.grants && Carries(t, h.grants[k].code)
    requires iss == Issuance(t.userId, t.username, t.clientId, t.scope, t.token)
    ensures Balanced(s256, codes, tokens[t.token := Entry(t, expiresAt)],
                     h.(chain := h.chain[t.token := k], issued := h.issued + [(iss, k)]))
  {
    var chain := h.chain[t.token := k];
    assert ChainsOk(chain, h.verifiers, h.rotated);
    NewTokenFits(tokens, h.chain, h.rotated, h.grants, k, t, expiresAt);
    IssuedStaysOk(h.issued, h.chain, h.grants, chain, h.grants);
    assert IssuanceOk(iss, k, chain, h.grants);
  }

  lemma RotateBalances(s256: string -> string, codes: Table<AuthorizationCode>, tokens: Table<RefreshToken>, h: History, t: string)
    requires Balanced(s256, codes, tokens, h) && t in tokens
    ensures Balanced(s256, codes, tokens - {t}, h.(rotated := h.rotated + {t}))
    ensures forall u :: u in tokens - {t} ==> h.chain[u] != h.chain[t]
    ensures |tokens - {t}| < MAX_REFRESH_TOKENS
  {
    assert tokens.Keys == (tokens - {t}).Keys + {t};
    assert |tokens.Keys| == |(tokens - {t}).Keys| + 1;
    assert TokensOk(tokens - {t}, h.chain, h.rotated + {t}, h.grants);
  }

  lemma SweepBalances(s256: string -> string, codes: Table<AuthorizationCode>, tokens: Table<RefreshToken>, h: History, now: int)
    requires Balanced(s256, codes, tokens, h)
    ensures Balanced(s256, Swept(codes, now), Swept(tokens, now), h)
  {
    SubsetIsSmaller(Swept(codes, now).Keys, codes.Keys);
    SubsetIsSmaller(Swept(tokens, now).Keys, tokens.Keys);
  }

  lemma SubsetIsSmaller<T>(a: set<T>, b: set<T>)
    requires a <= b
    ensures |a| <= |b|
  {
    assert b == a + (b - a);
  }

  // ----- Each call keeps the balance -----

  lemma IssueCodeBalances(c: Config, b: Books, h: History, req: AuthorizeRequest, user: UserInfo, scopes: seq<string>, code: Option<string>, now: int)
    requires Balanced(c.s256, b.codes, b.tokens, h)
    requires code.Some? ==> code.value !in h.grants
    ensures var (b', resp) := IssueCode(c, b, req, user, scopes, code, now);
            Balanced(c.s256, b'.codes, b'.tokens, RecordGrant(h, resp, req, user, scopes))
  {
    if code.Some? && |b.codes| < MAX_AUTH_CODES {
      var k := code.value;
      NewCodeBalances(c.s256, b.codes, b.tokens, h, k, Grant(NewCode(k, req, user, scopes), user, scopes), now + c.codeLifetime);
    }
  }

  lemma IssueTokensBalances(c: Config, b: Books, h: History, k: string, t: RefreshToken, minted: Minted, now: int, b': Books, resp: Response, h': History)
    requires Balanced(c.s256, b.codes, b.tokens, h) && k in h.verifiers
    requires minted.token.Some? ==> minted.token.value !in h.chain
    requires forall u :: u in b.tokens ==> h.chain[u] != k
    requires k in h.grants && Carries(t, h.grants[k].code)
    requires (b', resp) == IssueTokens(c, b, t.userId, t.username, t.clientId, t.scope, minted, now)
    requires h' == RecordIssue(h, resp, k)
    ensures Balanced(c.s256, b'.codes, b'.tokens, h')
  {
    if resp.TokensIssued? {
      var t' := RefreshToken(minted.token.value, t.clientId, t.userId, t.username, t.scope);
      var expiresAt := now + c.refreshLifetime;
      assert b'.tokens == b.tokens[t'.token := Entry(t', expiresAt)];
      assert h' == h.(chain := h.chain[t'.token := k], issued := h.issued + [(resp.issued, k)]);
      NewTokenBalances(c.s256, b.codes, b.tokens, h, k, t', expiresAt, resp.issued);
      assert Balanced(c.s256, b'.codes, b'.tokens, h');
    }
  }

  /** The history of an exchange whose code was found, before anything is issued. */
  function Spent(h: History, code: string): History { h.(spent := h.spent + {code}) }

  function Opened(h: History, code: string, verifier: string): History {
    h.(verifiers := h.verifiers[code := verifier], exchanges := h.exchanges + [code])
  }

  /** A token as issuing hands it out, but for its value. */
  function TokenFor(code: AuthorizationCode): RefreshToken {
    RefreshToken("", code.clientId, code.userId, code.username, code.scope)
  }

  lemma ExchangeWithoutCode(c: Config, w: World, x: ExchangeRequest, minted: Minted, now: int)
    requires FindCode(c, w.b, x, now).Missing?
    ensures Advance(c, w, Timed(Exchange(x, minted), now)) == w
  {
  }

  lemma ExchangeThatFails(c: Config, w: World, x: ExchangeRequest, minted: Minted, now: int)
    requires FindCode(c, w.b, x, now).Found? && !ExchangeStep(c, w.b, x, minted, now).1.TokensIssued?
    ensures Advance(c, w, Timed(Exchange(x, minted), now)) == World(w.b.(codes := w.b.codes - {x.code}), Spent(w.h, x.code))
  {
  }

  lemma ExchangeThatSucceeds(c: Config, w: World, x: ExchangeRequest, minted: Minted, now: int)
    requires ExchangeStep(c, w.b, x, minted, now).1.TokensIssued?
    ensures FindCode(c, w.b, x, now).Found? && CodeIsFor(c, FindCode(c, w.b, x, now).v, x)
    ensures var code := FindCode(c, w.b, x, now).v;
            var (b', resp) := IssueTokens(c, w.b.(codes := w.b.codes - {x.code}), code.userId, code.username, code.clientId, code.scope, minted, now);
            Advance(c, w, Timed(Exchange(x, minted), now)) == World(b', RecordIssue(Opened(Spent(w.h, x.code), x.code, x.verifier), resp, x.code))
  {
  }

  /** The code that an exchange finds is the one that was granted, and it has not been exchanged. */
  lemma FoundCodeIsGranted(c: Config, w: World, x: ExchangeRequest, now: int)
    requires Balanced(c.s256, w.b.codes, w.b.tokens, w.h) && FindCode(c, w.b, x, now).Found?
    ensures x.code in w.b.codes && x.code in w.h.grants && x.code !in w.h.verifiers
    ensures FindCode(c, w.b, x, now).v == w.h.grants[x.code].code
  {
  }

  lemma ExchangeOpens(c: Config, b: Books, h: History, x: ExchangeRequest, code: AuthorizationCode, minted: Minted, now: int, b': Books, resp: Response)
    requires Balanced(c.s256, b.codes, b.tokens, h) && x.code in h.spent && x.code !in h.verifiers
    requires x.code in h.grants && h.grants[x.code].code == code && CodeIsFor(c, code, x)
    requires minted.token.Some? ==> minted.token.value !in h.chain
    requires (b', resp) == IssueTokens(c, b, code.userId, code.username, code.clientId, code.scope, minted, now)
    ensures Balanced(c.s256, b'.codes, b'.tokens, RecordIssue(Opened(h, x.code, x.verifier), resp, x.code))
  {
    var h' := Opened(h, x.code, x.verifier);
    OpenBalances(c.s256, b.codes, b.tokens, h, x.code, x.verifier);
    IssueTokensBalances(c, b, h', x.code, TokenFor(code), minted, now, b', resp, RecordIssue(h', resp, x.code));
  }

  lemma ExchangeBalances(c: Config, w: World, x: ExchangeRequest, minted: Minted, now: int)
    requires Balanced(c.s256, w.b.codes, w.b.tokens, w.h) && IsFresh(w.h, Exchange(x, minted))
    ensures var w' := Advance(c, w, Timed(Exchange(x, minted), now)); Balanced(c.s256, w'.b.codes, w'.b.tokens, w'.h)
  {
    var found := FindCode(c, w.b, x, now);
    if found.Missing? {
      ExchangeWithoutCode(c, w, x, minted, now);
    } else {
      FoundCodeIsGranted(c, w, x, now);
      SpendBalances(c.s256, w.b.codes, w.b.tokens, w.h, x.code);
      if ExchangeStep(c, w.b, x, minted, now).1.TokensIssued? {
        ExchangeThatSucceeds(c, w, x, minted, now);
        var b := w.b.(codes := w.b.codes - {x.code});
        var (b', resp) := IssueTokens(c, b, found.v.userId, found.v.username, found.v.clientId, found.v.scope, minted, now);
        ExchangeOpens(c, b, Spent(w.h, x.code), x, found.v, minted, now, b', resp);
      } else {
        ExchangeThatFails(c, w, x, minted, now);
      }
    }
  }

  lemma RefreshWithoutToken(c: Config, w: World, r: RefreshRequest, minted: Minted, now: int)
    requires FindToken(c, w.b, r, now).Missing?
    ensures Advance(c, w, Timed(Refresh(r, minted), now)) == w
  {
  }

  lemma RefreshRotates(c: Config, w: World, r: RefreshRequest, minted: Minted, now: int)
    requires FindToken(c, w.b, r, now).Found? && r.refreshToken in w.h.chain
    ensures var token := FindToken(c, w.b, r, now).v;
            var b := w.b.(tokens := w.b.tokens - {r.refreshToken});
            var (b', resp) := IssueTokens(c, b, token.userId, token.username, token.clientId, token.scope, minted, now);
            Advance(c, w, Timed(Refresh(r, minted), now))
            == World(b', RecordIssue(w.h.(rotated := w.h.rotated + {r.refreshToken}), resp, w.h.chain[r.refreshToken]))
  {
  }

  lemma FoundTokenIsChained(c: Config, w: World, r: RefreshRequest, now: int)
    requires Balanced(c.s256, w.b.codes, w.b.tokens, w.h) && FindToken(c, w.b, r, now).Found?
    ensures var t := r.refreshToken;
            && t in w.b.tokens && t in w.h.chain && w.h.chain[t] in w.h.verifiers && w.h.chain[t] in w.h.grants
            && Carries(FindToken(c, w.b, r, now).v, w.h.grants[w.h.chain[t]].code)
  {
    assert r.refreshToken in w.b.tokens;
  }

  lemma RefreshBalances(c: Config, w: World, r: RefreshRequest, minted: Minted, now: int)
    requires Balanced(c.s256, w.b.codes, w.b.tokens, w.h) && IsFresh(w.h, Refresh(r, minted))
    ensures var w' := Advance(c, w, Timed(Refresh(r, minted), now)); Balanced(c.s256, w'.b.codes, w'.b.tokens, w'.h)
  {
    var found := FindToken(c, w.b, r, now);
    if found.Missing? {
      RefreshWithoutToken(c, w, r, minted, now);
    } else {
      var t := r.refreshToken;
      FoundTokenIsChained(c, w, r, now);
      RefreshRotates(c, w, r, minted, now);
      RotateBalances(c.s256, w.b.codes, w.b.tokens, w.h, t);
      var h := w.h.(rotated := w.h.rotated + {t});
      var b := w.b.(tokens := w.b.tokens - {t});
      var (b', resp) := IssueTokens(c, b, found.v.userId, found.v.username, found.v.clientId, found.v.scope, minted, now);
      IssueTokensBalances(c, b, h, w.h.chain[t], found.v, minted, now, b', resp, RecordIssue(h, resp, w.h.chain[t]));
    }
  }

  lemma LogInBalances(c: Config, w: World, req: AuthorizeRequest, user: Option<UserInfo>, code: Option<string>, now: int)
    requires Balanced(c.s256, w.b.codes, w.b.tokens, w.h) && IsFresh(w.h, LogIn(req, user, code))
    ensures var w' := Advance(c, w, Timed(LogIn(req, user, code), now)); Balanced(c.s256, w'.b.codes, w'.b.tokens, w'.h)
  {
    var r := AcceptedRequest(c, w.b, req);
    if r.Some? && user.Some? {
      IssueCodeBalances(c, w.b, w.h, r.value, user.value, LoginScopes(c, r.value, user.value), code, now);
    }
  }

  lemma CallbackBalances(c: Config, w: World, state: string, upstream: Option<UpstreamUser>, code: Option<string>, now: int)
    requires Balanced(c.s256, w.b.codes, w.b.tokens, w.h) && IsFresh(w.h, Callback(state, upstream, code))
    ensures var w' := Advance(c, w, Timed(Callback(state, upstream, code), now)); Balanced(c.s256, w'.b.codes, w'.b.tokens, w'.h)
  {
    if state in w.b.pending && upstream.Some? {
      var req := w.b.pending[state].req;
      var b := w.b.(pending := w.b.pending - {state});
      IssueCodeBalances(c, b, w.h, req, LocalUser(upstream.value), UpstreamScopes(req, upstream.value), code, now);
    }
  }

  lemma CleanupStorageBalances(c: Config, w: World, now: int)
    requires Balanced(c.s256, w.b.codes, w.b.tokens, w.h)
    ensures var w' := Advance(c, w, Timed(CleanupStorage, now)); Balanced(c.s256, w'.b.codes, w'.b.tokens, w'.h)
  {
    SweepBalances(c.s256, w.b.codes, w.b.tokens, w.h, now);
  }

  /** Registrations, started federated logins and dropped ones touch neither codes nor tokens. */
  predicate LedgerKept(w: World, w': World) {
    w'.b.codes == w.b.codes && w'.b.tokens == w.b.tokens && w'.h.(clientIds := w.h.clientIds) == w.h
  }

  lemma LedgerKeptBalances(c: Config, w: World, w': World)
    requires Balanced(c.s256, w.b.codes, w.b.tokens, w.h) && LedgerKept(w, w')
    ensures Balanced(c.s256, w'.b.codes, w'.b.tokens, w'.h)
  {
  }

  lemma BeginFederatedKeepsLedger(c: Config, w: World, req: AuthorizeRequest, state: Option<string>, urlBuilt: bool, now: int)
    ensures LedgerKept(w, Advance(c, w, Timed(BeginFederated(req, state, urlBuilt), now)))
  {
  }

  lemma RegisterKeepsLedger(c: Config, w: World, uris: seq<string>, clientId: string, secret: string, now: int)
    ensures LedgerKept(w, Advance(c, w, Timed(Register(uris, clientId, secret), now)))
  {
  }

  lemma PendingCallsKeepLedger(c: Config, w: World, state: string, now: int)
    ensures LedgerKept(w, Advance(c, w, Timed(CallbackError(state), now)))
    ensures LedgerKept(w, Advance(c, w, Timed(CleanupPending, now)))
  {
  }

  lemma StepBalances(c: Config, w: World, t: Timed)
    requires Balanced(c.s256, w.b.codes, w.b.tokens, w.h) && IsFresh(w.h, t.call)
    ensures var w' := Advance(c, w, t); Balanced(c.s256, w'.b.codes, w'.b.tokens, w'.h)
  {
    match t.call
    case LogIn(req, user, code) => LogInBalances(c, w, req, user, code, t.now);
    case Callback(state, upstream, code) => CallbackBalances(c, w, state, upstream, code, t.now);
    case Exchange(x, minted) => ExchangeBalances(c, w, x, minted, t.now);
    case Refresh(r, minted) => RefreshBalances(c, w, r, minted, t.now);
    case CleanupStorage => CleanupStorageBalances(c, w, t.now);
    case BeginFederated(req, state, urlBuilt) =>
      BeginFederatedKeepsLedger(c, w, req, state, urlBuilt, t.now);
      LedgerKeptBalances(c, w, Advance(c, w, t));
    case Register(uris, clientId, secret) =>
      RegisterKeepsLedger(c, w, uris, clientId, secret, t.now);
      LedgerKeptBalances(c, w, Advance(c, w, t));
    case CallbackError(state) =>
      PendingCallsKeepLedger(c, w, state, t.now);
      LedgerKeptBalances(c, w, Advance(c, w, t));
    case CleanupPending =>
      PendingCallsKeepLedger(c, w, "", t.now);
      LedgerKeptBalances(c, w, Advance(c, w, t));
  }

  predicate Sound(c: Config, w: World) {
    Permitted(c, w.b, w.h) && Balanced(c.s256, w.b.codes, w.b.tokens, w.h)
  }

  lemma {:induction false} RunIsSound(c: Config, w: World, run: seq<Timed>)
    requires Sound(c, w) && Legitimate(c, w, run)
    ensures Sound(c, After(c, w, run))
    decreases run
  {
    if run != [] {
      StepPermitted(c, w, run[0]);
      StepBalances(c, w, run[0]);
      RunIsSound(c, Advance(c, w, run[0]), run[1..]);
    }
  }

  // ----- Main results -----

  /** Where a token with the given contents comes from. */
  predicate ComesFrom(c: Config, h: History, k: string, userId: string, username: string, clientId: string, scope: string) {
    && k in h.grants && k in h.verifiers
    && var g := h.grants[k];
       && userId == g.user.id && username == g.user.username
       && clientId == g.code.clientId
       && scope == JoinScopes(g.scopes) && (forall s :: s in g.scopes ==> s in g.user.scopes)
       && g.code.challengeMethod == "S256" && c.s256(h.verifiers[k]) == g.code.challenge
  }

  /**
   In every run, each access token and each stored refresh token, however long its refresh chain,
   goes back to one code of one login: it carries that user, the client of that code and the scopes
   that login granted out of the user's own, and the verifier that opened the chain hashes to the
   challenge of the code.
   */
  lemma TokenProvenance(c: Config, run: seq<Timed>)
    requires Legitimate(c, START, run)
    ensures var w := After(c, START, run);
            && (forall i :: 0 <= i < |w.h.issued| ==>
                  var (iss, k) := w.h.issued[i];
                  ComesFrom(c, w.h, k, iss.userId, iss.username, iss.clientId, iss.scope))
            && (forall t :: t in w.b.tokens ==>
                  var r := w.b.tokens[t].value;
                  t in w.h.chain && ComesFrom(c, w.h, w.h.chain[t], r.userId, r.username, r.clientId, r.scope))
  {
    RunIsSound(c, START, run);
    var w := After(c, START, run);
    forall i | 0 <= i < |w.h.issued|
      ensures var (iss, k) := w.h.issued[i]; ComesFrom(c, w.h, k, iss.userId, iss.username, iss.clientId, iss.scope)
    {
      var (iss, k) := w.h.issued[i];
      assert IssuanceOk(iss, k, w.h.chain, w.h.grants);
      assert GrantOk(c, w.b.clients, w.h.grants[k]);
    }
    forall t | t in w.b.tokens
      ensures var r := w.b.tokens[t].value;
              t in w.h.chain && ComesFrom(c, w.h, w.h.chain[t], r.userId, r.username, r.clientId, r.scope)
    {
      assert GrantOk(c, w.b.clients, w.h.grants[w.h.chain[t]]);
    }
  }

  /** In every run, no code is exchanged twice, and an exchanged code has at most one live refresh token. */
  lemma OneChainPerCode(c: Config, run: seq<Timed>)
    requires Legitimate(c, START, run)
    ensures var w := After(c, START, run);
            && (forall i, j :: 0 <= i < j < |w.h.exchanges| ==> w.h.exchanges[i] != w.h.exchanges[j])
            && (forall t :: t in w.b.tokens ==> t in w.h.chain)
            && (forall t, u :: t in w.b.tokens && u in w.b.tokens && w.h.chain[t] == w.h.chain[u] ==> t == u)
  {
    RunIsSound(c, START, run);
  }

  /** A code that any exchange has looked up, even one that failed afterwards, is never found again; nor is a rotated token. */
  lemma NothingIsAcceptedTwice(c: Config, run: seq<Timed>, x: ExchangeRequest, r: RefreshRequest, now: int)
    requires Legitimate(c, START, run)
    ensures var w := After(c, START, run);
            && (x.code in w.h.spent ==> FindCode(c, w.b, x, now).Missing?)
            && (r.refreshToken in w.h.rotated ==> FindToken(c, w.b, r, now).Missing?)
  {
    RunIsSound(c, START, run);
    AbsentIsMissing(c, After(c, START, run).b, x, r, now);
  }

  lemma AbsentIsMissing(c: Config, b: Books, x: ExchangeRequest, r: RefreshRequest, now: int)
    ensures x.code !in b.codes ==> FindCode(c, b, x, now).Missing?
    ensures r.refreshToken !in b.tokens ==> FindToken(c, b, r, now).Missing?
  {
  }

  /** A refresh never fails because the table is full, since it has just freed a place. */
  lemma RefreshAlwaysHasRoom(c: Config, run: seq<Timed>, r: RefreshRequest, minted: Minted, now: int)
    requires Legitimate(c, START, run)
    ensures RefreshStep(c, After(c, START, run).b, r, minted, now).1 != Rejected(StorageFull)
  {
    RunIsSound(c, START, run);
    RoomAfterRotation(c, After(c, START, run).b, r, minted, now);
  }

  lemma RoomAfterRotation(c: Config, b: Books, r: RefreshRequest, minted: Minted, now: int)
    requires |b.tokens| <= MAX_REFRESH_TOKENS
    ensures RefreshStep(c, b, r, minted, now).1 != Rejected(StorageFull)
  {
    var t := r.refreshToken;
    if t in b.tokens {
      assert b.tokens.Keys == (b.tokens - {t}).Keys + {t};
      assert |b.tokens.Keys| == |(b.tokens - {t}).Keys| + 1;
    }
  }

  /** Every code ever stored passed the global redirect list, its client's own list, and the PKCE format check. */
  lemma StoredCodesWereChecked(c: Config, run: seq<Timed>, k: string)
    requires Legitimate(c, START, run) && k in After(c, START, run).h.grants
    ensures var w := After(c, START, run);
            var code := w.h.grants[k].code;
            && code.challengeMethod == "S256" && |code.challenge| == 43
            && AllowedBy(c.parse, code.redirectUri, c.allowedRedirectUris)
            && (code.clientId in w.b.clients ==> AllowedBy(c.parse, code.redirectUri, w.b.clients[code.clientId].redirectUris))
            && (c.requireRegistered ==> code.clientId in w.b.clients)
  {
    RunIsSound(c, START, run);
    var w := After(c, START, run);
    assert GrantOk(c, w.b.clients, w.h.grants[k]);
  }

  /** In every run, what a registered client may use is within the global list. */
  lemma ClientsStayWithinGlobalList(c: Config, run: seq<Timed>, id: string, uri: string)
    requires Legitimate(c, START, run) && id in After(c, START, run).b.clients
    requires AllowedBy(c.parse, uri, After(c, START, run).b.clients[id].redirectUris)
    ensures AllowedBy(c.parse, uri, c.allowedRedirectUris)
  {
    RunIsSound(c, START, run);
    ClientListIsWithinGlobalList(c.parse, uri, After(c, START, run).b.clients[id].redirectUris, c.allowedRedirectUris);
  }

  lemma LogInStores(c: Config, b: Books, req: AuthorizeRequest, user: UserInfo, k: string, now: int)
    requires LogInStep(c, b, req, Some(user), Some(k), now).1.CodeIssued?
    ensures var codes := LogInStep(c, b, req, Some(user), Some(k), now).0.codes;
            && k in codes
            && codes[k] == Entry(NewCode(k, req.(challengeMethod := "S256"), user, LoginScopes(c, req, user)), now + c.codeLifetime)
            && req.challenge != "" && req.redirectUri != "" && req.clientId != ""
  {
    var req' := AcceptedRequest(c, b, req).value;
    assert req' == req.(challengeMethod := "S256");
    assert LoginScopes(c, req', user) == LoginScopes(c, req, user);
  }

  lemma IssuingSucceeds(c: Config, b: Books, code: AuthorizationCode, minted: Minted, now: int)
    requires minted.signs && minted.token.Some? && |b.tokens| < MAX_REFRESH_TOKENS
    ensures var t := minted.token.value;
            IssueTokens(c, b, code.userId, code.username, code.clientId, code.scope, minted, now)
            == (b.(tokens := b.tokens[t := Entry(TokenFor(code).(token := t), now + c.refreshLifetime)]),
                TokensIssued(Issuance(code.userId, code.username, code.clientId, code.scope, t)))
  {
  }

  lemma ExchangeIssues(c: Config, b: Books, x: ExchangeRequest, code: AuthorizationCode, minted: Minted, now: int)
    requires FindCode(c, b, x, now) == Found(code) && CodeIsFor(c, code, x)
    requires minted.signs && minted.token.Some? && |b.tokens| < MAX_REFRESH_TOKENS
    ensures var t := minted.token.value;
            var (b', resp) := ExchangeStep(c, b, x, minted, now);
            && resp == TokensIssued(Issuance(code.userId, code.username, code.clientId, code.scope, t))
            && b'.tokens == b.tokens[t := Entry(TokenFor(code).(token := t), now + c.refreshLifetime)] && b'.clients == b.clients
  {
    IssuingSucceeds(c, b.(codes := b.codes - {x.code}), code, minted, now);
  }

  lemma CodeIsFound(c: Config, b: Books, x: ExchangeRequest, now: int)
    requires x.code != "" && x.redirectUri != "" && x.clientId != "" && ValidVerifier(x.verifier)
    requires ClientIsAuthentic(c, b.clients, x.clientId, x.clientSecret) && x.code in b.codes && now <= b.codes[x.code].expiresAt
    ensures FindCode(c, b, x, now) == Found(b.codes[x.code].value)
  {
  }

  lemma TokenIsFound(c: Config, b: Books, r: RefreshRequest, now: int)
    requires r.refreshToken != "" && r.clientId != ""
    requires ClientIsAuthentic(c, b.clients, r.clientId, r.clientSecret) && r.refreshToken in b.tokens
    requires now <= b.tokens[r.refreshToken].expiresAt && b.tokens[r.refreshToken].value.clientId == r.clientId
    ensures FindToken(c, b, r, now) == Found(b.tokens[r.refreshToken].value)
  {
  }

  lemma RefreshIssues(c: Config, b: Books, r: RefreshRequest, minted: Minted, now: int)
    requires FindToken(c, b, r, now).Found? && |b.tokens - {r.refreshToken}| < MAX_REFRESH_TOKENS
    requires minted.signs && minted.token.Some?
    ensures var t := FindToken(c, b, r, now).v;
            RefreshStep(c, b, r, minted, now).1 == TokensIssued(Issuance(t.userId, t.username, t.clientId, t.scope, minted.token.value))
  {
  }

  /**
   The whole way: a login that issued a code, then, whatever other calls keep that code in place, the
   exchange by the client that knows the verifier, then a refresh. Both sets of tokens carry the user
   who logged in and the scopes granted to them.
   */
  lemma LoginExchangeRefresh(c: Config, b0: Books, req: AuthorizeRequest, user: UserInfo, k: string, t0: int,
                             b1: Books, x: ExchangeRequest, m1: Minted, t1: int, m2: Minted, t2: int)
    requires LogInStep(c, b0, req, Some(user), Some(k), t0).1.CodeIssued?
    requires k != "" && k in b1.codes && b1.codes[k] == LogInStep(c, b0, req, Some(user), Some(k), t0).0.codes[k]
    requires x.code == k && x.redirectUri == req.redirectUri && x.clientId == req.clientId
    requires ClientIsAuthentic(c, b1.clients, x.clientId, x.clientSecret)
    requires ValidVerifier(x.verifier) && c.s256(x.verifier) == req.challenge && t1 <= t0 + c.codeLifetime
    requires m1.signs && m1.token.Some? && m1.token.value != "" && |b1.tokens| < MAX_REFRESH_TOKENS
    requires m2.signs && m2.token.Some? && t2 <= t1 + c.refreshLifetime
    requires m1.token.value !in b1.tokens
    ensures var scope := JoinScopes(LoginScopes(c, req, user));
            var (b2, resp) := ExchangeStep(c, b1, x, m1, t1);
            var again := RefreshStep(c, b2, RefreshRequest(m1.token.value, x.clientId, x.clientSecret), m2, t2).1;
            && resp == TokensIssued(Issuance(user.id, user.username, req.clientId, scope, m1.token.value))
            && again == TokensIssued(Issuance(user.id, user.username, req.clientId, scope, m2.token.value))
  {
    LogInStores(c, b0, req, user, k, t0);
    CodeIsFound(c, b1, x, t1);
    ExchangeIssues(c, b1, x, b1.codes[k].value, m1, t1);
    var (b2, resp) := ExchangeStep(c, b1, x, m1, t1);
    var r := RefreshRequest(m1.token.value, x.clientId, x.clientSecret);
    TokenIsFound(c, b2, r, t2);
    assert b2.tokens - {m1.token.value} == b1.tokens;
    RefreshIssues(c, b2, r, m2, t2);
  }

  // ----- How long a federated login stays open -----

  /** The same state is given out again. */
  predicate Reissues(call: Call, state: string) { call.BeginFederated? && call.newState == Some(state) }

  /** A step that ends a federated login created at the given time: its callback, or a sweep that finds it older than ten minutes. */
  predicate Ends(t: Timed, state: string, createdAt: int) {
    match t.call
    case Callback(s, _, _) => s == state
    case CallbackError(s) => s == state
    case CleanupPending => t.now > createdAt + 600_000_000_000
    case _ => false
  }

  lemma LogInKeepsPending(c: Config, b: Books, req: AuthorizeRequest, user: Option<UserInfo>, code: Option<string>, now: int)
    ensures LogInStep(c, b, req, user, code, now).0.pending == b.pending
  {
  }

  lemma IssuingKeepsPending(c: Config, b: Books, code: AuthorizationCode, token: RefreshToken, minted: Minted, now: int)
    ensures IssueTokens(c, b, code.userId, code.username, code.clientId, code.scope, minted, now).0.pending == b.pending
    ensures IssueTokens(c, b, token.userId, token.username, token.clientId, token.scope, minted, now).0.pending == b.pending
  {
  }

  lemma ExchangeKeepsPending(c: Config, b: Books, x: ExchangeRequest, minted: Minted, now: int)
    ensures ExchangeStep(c, b, x, minted, now).0.pending == b.pending
  {
    var found := FindCode(c, b, x, now);
    if found.Found? {
      IssuingKeepsPending(c, b.(codes := b.codes - {x.code}), found.v, RefreshToken("", "", "", "", ""), minted, now);
    }
  }

  lemma RefreshKeepsPending(c: Config, b: Books, r: RefreshRequest, minted: Minted, now: int)
    ensures RefreshStep(c, b, r, minted, now).0.pending == b.pending
  {
    var found := FindToken(c, b, r, now);
    if found.Found? {
      IssuingKeepsPending(c, b.(tokens := b.tokens - {r.refreshToken}),
                          AuthorizationCode("", "", "", "", "", "", "", "", "", ""), found.v, minted, now);
    }
  }

  lemma CallbackTakesPending(c: Config, b: Books, state: string, upstream: Option<UpstreamUser>, code: Option<string>, now: int)
    ensures CallbackStep(c, b, state, upstream, code, now).0.pending == b.pending - {state}
  {
    assert state !in b.pending ==> b.pending - {state} == b.pending;
  }

  lemma BeginFederatedAddsPending(c: Config, b: Books, req: AuthorizeRequest, newState: Option<string>, urlBuilt: bool, now: int)
    ensures var pending := BeginFederatedStep(c, b, req, newState, urlBuilt, now).0.pending;
            forall s :: Some(s) != newState ==> (s in pending <==> s in b.pending) && (s in pending ==> pending[s] == b.pending[s])
  {
  }

  /** What became of one federated login. */
  predicate Kept(before: map<string, Pending>, after: map<string, Pending>, state: string, ended: bool) {
    && (state in after ==> state in before && after[state] == before[state])
    && (state in before ==> (state in after <==> !ended))
  }

  lemma StepKeepsPending(c: Config, w: World, t: Timed, state: string)
    requires !Reissues(t.call, state)
    ensures var ended := state in w.b.pending && Ends(t, state, w.b.pending[state].createdAt);
            Kept(w.b.pending, Serve(c, w.b, t.call, t.now).0.pending, state, ended)
  {
    match t.call
    case LogIn(req, user, code) => LogInKeepsPending(c, w.b, req, user, code, t.now);
    case BeginFederated(req, newState, urlBuilt) => BeginFederatedAddsPending(c, w.b, req, newState, urlBuilt, t.now);
    case Callback(s, upstream, code) => CallbackTakesPending(c, w.b, s, upstream, code, t.now);
    case Exchange(x, minted) => ExchangeKeepsPending(c, w.b, x, minted, t.now);
    case Refresh(r, minted) => RefreshKeepsPending(c, w.b, r, minted, t.now);
    case CallbackError(_) =>
    case Register(_, _, _) =>
    case CleanupStorage =>
    case CleanupPending =>
  }

  lemma {:induction false} GoneStaysGone(c: Config, w: World, run: seq<Timed>, state: string)
    requires state !in w.b.pending && forall i :: 0 <= i < |run| ==> !Reissues(run[i].call, state)
    ensures state !in After(c, w, run).b.pending
    decreases run
  {
    if run != [] {
      StepKeepsPending(c, w, run[0], state);
      GoneStaysGone(c, Advance(c, w, run[0]), run[1..], state);
    }
  }

  /**
   As long as its state is not given out again, a federated login is open after a run if and only if
   no step of the run was its callback or a sweep more than ten minutes after its creation.
   */
  lemma {:induction false} PendingSurvivesIff(c: Config, w: World, run: seq<Timed>, state: string)
    requires state in w.b.pending && forall i :: 0 <= i < |run| ==> !Reissues(run[i].call, state)
    ensures var pending := After(c, w, run).b.pending;
            && (state in pending <==> forall i :: 0 <= i < |run| ==> !Ends(run[i], state, w.b.pending[state].createdAt))
            && (state in pending ==> pending[state] == w.b.pending[state])
    decreases run
  {
    if run != [] {
      var w' := Advance(c, w, run[0]);
      StepKeepsPending(c, w, run[0], state);
      if Ends(run[0], state, w.b.pending[state].createdAt) {
        GoneStaysGone(c, w', run[1..], state);
      } else {
        PendingSurvivesIff(c, w', run[1..], state);
        assert forall i :: 1 <= i < |run| ==> run[i] == run[1..][i - 1];
      }
    }
  }

  /**
   The callback itself does not look at the clock: it hands out a code if and only if the login is
   still open, however old it is, the upstream user is known, and there is randomness and room.
   */
  lemma CallbackIsHonouredIff(c: Config, w: World, run: seq<Timed>, state: string, upstream: Option<UpstreamUser>, code: Option<string>, now: int)
    requires state in w.b.pending && forall i :: 0 <= i < |run| ==> !Reissues(run[i].call, state)
    ensures var b := After(c, w, run).b;
            CallbackStep(c, b, state, upstream, code, now).1.CodeIssued? <==>
              && (forall i :: 0 <= i < |run| ==> !Ends(run[i], state, w.b.pending[state].createdAt))
              && upstream.Some? && code.Some? && |b.codes| < MAX_AUTH_CODES
  {
    PendingSurvivesIff(c, w, run, state);
  }

  const SAMPLE_CONFIG := Config((_: string) => None, (s: string) => s, ["https://app"], false, 60, 60, [])
  const SAMPLE_USER := UpstreamUser("a@b", "sub", "A", ["read"])

  function SampleRequest(): AuthorizeRequest {
    AuthorizeRequest("code", "client", "https://app", ["read"], "xyz", Repeat('a', 43), "S256", "")
  }

  /** A run from the start in which a login begun at time 0 is honoured more than ten minutes later. */
  lemma LateCallbackIsHonoured()
    ensures var run := [Timed(BeginFederated(SampleRequest(), Some("s"), true), 0)];
            var b := After(SAMPLE_CONFIG, START, run).b;
            && Legitimate(SAMPLE_CONFIG, START, run)
            && "s" in b.pending && b.pending["s"].createdAt == 0
            && CallbackStep(SAMPLE_CONFIG, b, "s", Some(SAMPLE_USER), Some("k"), 600_000_000_001).1 == CodeIssued("k")
  {
    var req := SampleRequest();
    assert AllowedBy(SAMPLE_CONFIG.parse, "https://app", ["https://app"]) by {
      assert Matches(SAMPLE_CONFIG.parse, "https://app", ["https://app"][0]);
    }
    assert AcceptedRequest(SAMPLE_CONFIG, EMPTY_BOOKS, req) == Some(req);
    var t := Timed(BeginFederated(req, Some("s"), true), 0);
    var w := Advance(SAMPLE_CONFIG, START, t);
    assert [t][1..] == [];
    assert After(SAMPLE_CONFIG, START, [t]) == After(SAMPLE_CONFIG, w, []);
    assert Legitimate(SAMPLE_CONFIG, w, []);
  }
}
