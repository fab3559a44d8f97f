/**
 Where codes, tokens, pending logins and clients come from, told by the calls of a run and their answers
 alone, and what each call asks for before it gives anything.
 */
module GrantRuns {
  import opened Common
  import opened Storage
  import opened Requests
  import opened Grants

  // ----- A run, call by call -----

  /** The books before the i-th call of a run from the start. */
  function BooksAt(c: Config, run: seq<Timed>, i: nat): Books
    requires i <= |run|
  {
    Grants.After(c, START, run[..i]).b
  }

  function Answer(c: Config, run: seq<Timed>, i: nat): Response
    requires i < |run|
  {
    Serve(c, BooksAt(c, run, i), run[i].call, run[i].now).1
  }

  lemma {:induction false} AfterAppends(c: Config, w: World, run: seq<Timed>, t: Timed)
    ensures Grants.After(c, w, run + [t]) == Advance(c, Grants.After(c, w, run), t)
    decreases run
  {
    if run == [] {
      assert ([] + [t])[1..] == [];
      assert Grants.After(c, Advance(c, w, t), []) == Advance(c, w, t);
    } else {
      assert (run + [t])[1..] == run[1..] + [t];
      AfterAppends(c, Advance(c, w, run[0]), run[1..], t);
    }
  }

  lemma NextBooks(c: Config, run: seq<Timed>, i: nat)
    requires i < |run|
    ensures BooksAt(c, run, i + 1) == Serve(c, BooksAt(c, run, i), run[i].call, run[i].now).0
  {
    assert run[..i + 1] == run[..i] + [run[i]];
    AfterAppends(c, START, run[..i], run[i]);
  }

  // ----- Who the client is -----

  /** The call that registered a client, if it did. */
  predicate Registers(c: Config, run: seq<Timed>, i: nat, clientId: string)
    requires i < |run|
  {
    run[i].call.Register? && run[i].call.clientId == clientId && Answer(c, run, i).Done?
  }

  /** The last of the first n calls that registered the client. */
  function LastRegistration(c: Config, run: seq<Timed>, n: nat, clientId: string): (r: Option<nat>)
    requires n <= |run|
    ensures r.Some? ==> r.value < n && Registers(c, run, r.value, clientId)
    ensures forall i :: (if r.Some? then r.value + 1 else 0) <= i < n ==> !Registers(c, run, i, clientId)
  {
    if n == 0 then None
    else if Registers(c, run, n - 1, clientId) then Some(n - 1)
    else LastRegistration(c, run, n - 1, clientId)
  }

  lemma TokenEndpointKeepsClients(c: Config, b: Books, x: ExchangeRequest, r: RefreshRequest, minted: Minted, now: int)
    ensures ExchangeStep(c, b, x, minted, now).0.clients == b.clients
    ensures RefreshStep(c, b, r, minted, now).0.clients == b.clients
  {
    var code, token := FindCode(c, b, x, now), FindToken(c, b, r, now);
    if code.Found? { IssuingKeepsRest(c, b.(codes := b.codes - {x.code}), code.v, NOTOKEN, minted, now); }
    if token.Found? { IssuingKeepsRest(c, b.(tokens := b.tokens - {r.refreshToken}), NOCODE, token.v, minted, now); }
  }

  lemma LoginsKeepClients(c: Config, b: Books, req: AuthorizeRequest, user: Option<UserInfo>, state: string, u: Option<UpstreamUser>, code: Option<string>, now: int)
    ensures LogInStep(c, b, req, user, code, now).0.clients == b.clients
    ensures CallbackStep(c, b, state, u, code, now).0.clients == b.clients
  {
  }

  /** Only a registration changes what is known of a client. */
  lemma ClientsStep(c: Config, b: Books, call: Call, now: int, id: string)
    ensures var (b', resp) := Serve(c, b, call, now);
            if call.Register? && call.clientId == id && resp.Done?
            then id in b'.clients && b'.clients[id] == Client(id, call.clientSecret, call.redirectUris)
            else (id in b'.clients <==> id in b.clients) && (id in b.clients ==> b'.clients[id] == b.clients[id])
  {
    match call
    case Exchange(x, minted) => TokenEndpointKeepsClients(c, b, x, RefreshRequest("", "", ""), minted, now);
    case Refresh(r, minted) => TokenEndpointKeepsClients(c, b, ExchangeRequest("", "", "", "", ""), r, minted, now);
    case LogIn(req, user, code) => LoginsKeepClients(c, b, req, user, "", None, code, now);
    case Callback(state, u, code) => LoginsKeepClients(c, b, NOREQUEST, None, state, u, code, now);
    case _ =>
  }

  const NOTOKEN := RefreshToken("", "", "", "", "")
  const NOREQUEST := AuthorizeRequest("", "", "", [], "", "", "", "")
  const NOCODE := AuthorizationCode("", "", "", "", "", "", "", "", "", "")

  lemma IssuingKeepsRest(c: Config, b: Books, code: AuthorizationCode, token: RefreshToken, minted: Minted, now: int)
    ensures var b' := IssueTokens(c, b, code.userId, code.username, code.clientId, code.scope, minted, now).0;
            b'.clients == b.clients && b'.codes == b.codes && b'.pending == b.pending
    ensures var b' := IssueTokens(c, b, token.userId, token.username, token.clientId, token.scope, minted, now).0;
            b'.clients == b.clients && b'.codes == b.codes && b'.pending == b.pending
  {
  }

  /** In every run, a client is known if and only if it was registered, and as it was registered last. */
  lemma {:induction false} ClientsAreRegistered(c: Config, run: seq<Timed>, n: nat, id: string)
    requires n <= |run|
    ensures var clients := BooksAt(c, run, n).clients;
            var r := LastRegistration(c, run, n, id);
            && (id in clients <==> r.Some?)
            && (r.Some? ==> clients[id] == Client(id, run[r.value].call.clientSecret, run[r.value].call.redirectUris))
    decreases n
  {
    if n > 0 {
      NextBooks(c, run, n - 1);
      ClientsStep(c, BooksAt(c, run, n - 1), run[n - 1].call, run[n - 1].now, id);
      ClientsAreRegistered(c, run, n - 1, id);
    }
  }

  // ----- The client must be authentic -----

  /** The client id and secret that a call at the token endpoint presents. */
  function Presents(call: Call): (string, string)
    requires call.Exchange? || call.Refresh?
  {
    if call.Exchange? then (call.x.clientId, call.x.clientSecret) else (call.r.clientId, call.r.clientSecret)
  }

  /** A code verifier in the form of RFC 7636, section 4.1. */
  predicate VerifierFormat(v: string) {
    43 <= |v| <= 128
    && forall i :: 0 <= i < |v| ==>
         'A' <= v[i] <= 'Z' || 'a' <= v[i] <= 'z' || '0' <= v[i] <= '9' || v[i] == '-' || v[i] == '.' || v[i] == '_' || v[i] == '~'
  }

  /** The call has all its parameters, in the right form. */
  predicate WellFormed(call: Call)
    requires call.Exchange? || call.Refresh?
  {
    if call.Exchange? then call.x.code != "" && call.x.redirectUri != "" && call.x.clientId != "" && VerifierFormat(call.x.verifier)
    else call.r.refreshToken != "" && call.r.clientId != ""
  }

  /** A known client is to present its secret if it has one; an unknown one is let through only if clients need not be known. */
  predicate LetThrough(c: Config, clients: map<string, Client>, clientId: string, secret: string) {
    if clientId in clients then clients[clientId].clientSecret == "" || secret == clients[clientId].clientSecret
    else !c.requireRegistered
  }

  lemma OthersGetNothing(c: Config, b: Books, call: Call, now: int)
    requires call.Exchange? || call.Refresh?
    requires !WellFormed(call) || !LetThrough(c, b.clients, Presents(call).0, Presents(call).1)
    ensures Serve(c, b, call, now) == (b, Rejected(if WellFormed(call) then BadClient else BadRequest))
  {
    if call.Exchange? {
      assert ValidVerifier(call.x.verifier) <==> VerifierFormat(call.x.verifier);
    }
  }

  /**
   In every run, a call at the token endpoint that was given tokens presented the secret with which its
   client was last registered, unless that is empty; if the client was never registered, registration
   is not required. A well-formed call of which this is not so is told that the client is not authentic,
   and changes nothing.
   */
  lemma TokensTakeTheSecret(c: Config, run: seq<Timed>, i: nat)
    requires i < |run| && (run[i].call.Exchange? || run[i].call.Refresh?)
    ensures var (clientId, secret) := Presents(run[i].call);
            var r := LastRegistration(c, run, i, clientId);
            var authentic := if r.Some? then run[r.value].call.clientSecret == "" || secret == run[r.value].call.clientSecret
                             else !c.requireRegistered;
            && (Answer(c, run, i).TokensIssued? ==> authentic)
            && (!authentic && WellFormed(run[i].call) ==>
                  Answer(c, run, i) == Rejected(BadClient) && BooksAt(c, run, i + 1) == BooksAt(c, run, i))
            && (Answer(c, run, i) == Rejected(BadClient) ==> !authentic)
  {
    var (clientId, secret) := Presents(run[i].call);
    var b := BooksAt(c, run, i);
    ClientsAreRegistered(c, run, i, clientId);
    NextBooks(c, run, i);
    if !WellFormed(run[i].call) || !LetThrough(c, b.clients, clientId, secret) {
      OthersGetNothing(c, b, run[i].call, run[i].now);
    } else {
      TheRestAreNotToldSo(c, b, run[i].call, run[i].now);
    }
  }

  lemma TheRestAreNotToldSo(c: Config, b: Books, call: Call, now: int)
    requires (call.Exchange? || call.Refresh?) && LetThrough(c, b.clients, Presents(call).0, Presents(call).1)
    ensures Serve(c, b, call, now).1 != Rejected(BadClient)
  {
  }

  // ----- What is asked for before anything is given -----

  /** The code that an exchange is about to spend. */
  predicate FindsCode(c: Config, b: Books, x: ExchangeRequest, minted: Minted, now: int) {
    && WellFormed(Exchange(x, minted)) && LetThrough(c, b.clients, x.clientId, x.clientSecret)
    && x.code in b.codes && now <= b.codes[x.code].expiresAt
  }

  /** The refresh token that a refresh is about to replace belongs to the client that presents it. */
  predicate FindsToken(c: Config, b: Books, r: RefreshRequest, minted: Minted, now: int) {
    && WellFormed(Refresh(r, minted)) && LetThrough(c, b.clients, r.clientId, r.clientSecret)
    && r.refreshToken in b.tokens && now <= b.tokens[r.refreshToken].expiresAt
    && b.tokens[r.refreshToken].value.clientId == r.clientId
  }

  lemma FindingIff(c: Config, b: Books, x: ExchangeRequest, r: RefreshRequest, minted: Minted, now: int)
    ensures FindCode(c, b, x, now).Found? <==> FindsCode(c, b, x, minted, now)
    ensures FindsCode(c, b, x, minted, now) ==> FindCode(c, b, x, now) == Found(b.codes[x.code].value)
    ensures FindToken(c, b, r, now).Found? <==> FindsToken(c, b, r, minted, now)
    ensures FindsToken(c, b, r, minted, now) ==> FindToken(c, b, r, now) == Found(b.tokens[r.refreshToken].value)
  {
    assert ValidVerifier(x.verifier) <==> VerifierFormat(x.verifier);
  }

  /** What a call is told that does not find what it presents. */
  function Refusal(c: Config, b: Books, call: Call): Fault
    requires call.Exchange? || call.Refresh?
  {
    if !WellFormed(call) then BadRequest
    else if !LetThrough(c, b.clients, Presents(call).0, Presents(call).1) then BadClient
    else BadGrant
  }

  /** Tokens are issued if and only if signing works, there is randomness, and there is room; otherwise nothing happens. */
  predicate Issues(c: Config, b: Books, t: RefreshToken, minted: Minted, now: int, b': Books, resp: Response) {
    && (resp.TokensIssued? <==> minted.signs && minted.token.Some? && |b.tokens| < 50_000)
    && if resp.TokensIssued? then
         && resp.issued == Issuance(t.userId, t.username, t.clientId, t.scope, minted.token.value)
         && b' == b.(tokens := b.tokens[minted.token.value := Entry(t.(token := minted.token.value), now + c.refreshLifetime)])
       else b' == b && resp == Rejected(if !minted.signs then SigningFailed else if minted.token.None? then NoRandomness else StorageFull)
  }

  lemma IssuingIs(c: Config, b: Books, t: RefreshToken, minted: Minted, now: int)
    ensures var (b', resp) := IssueTokens(c, b, t.userId, t.username, t.clientId, t.scope, minted, now);
            Issues(c, b, t, minted, now, b', resp)
  {
  }

  /** The code's client, redirect URI and challenge are those of the exchange. */
  predicate Fits(c: Config, code: AuthorizationCode, x: ExchangeRequest) {
    && code.clientId == x.clientId && code.redirectUri == x.redirectUri
    && code.challengeMethod == "S256" && code.challenge != "" && c.s256(x.verifier) == code.challenge
  }

  /**
   Exactly what an exchange does: if it finds its code, the code is gone; tokens are issued if and only if
   besides the code fits. They carry the user and scope of the code, and the client that presented it.
   */
  lemma ExchangeIssuesIff(c: Config, b: Books, x: ExchangeRequest, minted: Minted, now: int)
    ensures var (b', resp) := Serve(c, b, Exchange(x, minted), now);
            if !FindsCode(c, b, x, minted, now) then b' == b && resp == Rejected(Refusal(c, b, Exchange(x, minted)))
            else
              var code, rest := b.codes[x.code].value, b.(codes := b.codes - {x.code});
              if !Fits(c, code, x) then b' == rest && resp == Rejected(BadGrant)
              else Issues(c, rest, RefreshToken("", x.clientId, code.userId, code.username, code.scope), minted, now, b', resp)
  {
    FindingIff(c, b, x, RefreshRequest("", "", ""), minted, now);
    if !WellFormed(Exchange(x, minted)) || !LetThrough(c, b.clients, x.clientId, x.clientSecret) {
      OthersGetNothing(c, b, Exchange(x, minted), now);
    }
    if FindsCode(c, b, x, minted, now) {
      var code := b.codes[x.code].value;
      assert x.verifier != "";
      IssuingIs(c, b.(codes := b.codes - {x.code}), RefreshToken("", code.clientId, code.userId, code.username, code.scope), minted, now);
    }
  }

  /** Exactly what a refresh does: a token that it finds is gone, whatever follows, and the new one carries the same. */
  lemma RefreshIssuesIff(c: Config, b: Books, r: RefreshRequest, minted: Minted, now: int)
    ensures var (b', resp) := Serve(c, b, Refresh(r, minted), now);
            if !FindsToken(c, b, r, minted, now) then b' == b && resp == Rejected(Refusal(c, b, Refresh(r, minted)))
            else Issues(c, b.(tokens := b.tokens - {r.refreshToken}), b.tokens[r.refreshToken].value, minted, now, b', resp)
  {
    FindingIff(c, b, ExchangeRequest("", "", "", "", ""), r, minted, now);
    if FindsToken(c, b, r, minted, now) {
      IssuingIs(c, b.(tokens := b.tokens - {r.refreshToken}), b.tokens[r.refreshToken].value, minted, now);
    }
  }

  // ----- Scopes -----

  /** Those of the wanted that are among the allowed, one by one. */
  function Picked(wanted: seq<string>, allowed: seq<string>): seq<string> {
    if wanted == [] then []
    else if wanted[0] in allowed then [wanted[0]] + Picked(wanted[1..], allowed)
    else Picked(wanted[1..], allowed)
  }

  lemma {:induction false} PickedInParts(a: seq<string>, b: seq<string>, allowed: seq<string>)
    ensures Picked(a + b, allowed) == Picked(a, allowed) + Picked(b, allowed)
    decreases |a|
  {
    if a == [] {
      assert a + b == b;
    } else {
      assert (a + b)[1..] == a[1..] + b;
      PickedInParts(a[1..], b, allowed);
    }
  }

  lemma {:induction false} GrantedArePicked(wanted: seq<string>, allowed: seq<string>)
    ensures Granted(wanted, allowed) == Picked(wanted, allowed)
    decreases |wanted|
  {
    if wanted != [] {
      var front, last := wanted[..|wanted| - 1], wanted[|wanted| - 1];
      assert wanted == front + [last];
      GrantedArePicked(front, allowed);
      PickedInParts(front, [last], allowed);
      assert Picked([last], allowed) == if last in allowed then [last] else [] by {
        assert [last][1..] == [];
      }
    }
  }

  /** The scopes asked for decide, unless none of them is the user's; then the supported ones do. */
  lemma LoginScopesArePicked(c: Config, req: AuthorizeRequest, user: UserInfo)
    ensures LoginScopes(c, req, user) == if Picked(req.scopes, user.scopes) != [] then Picked(req.scopes, user.scopes)
                                         else Picked(c.scopesSupported, user.scopes)
  {
    GrantedArePicked(req.scopes, user.scopes);
    GrantedArePicked(c.scopesSupported, user.scopes);
  }

  /** The scopes asked for decide, unless the upstream granted none of them; then all that it granted. */
  lemma UpstreamScopesArePicked(req: AuthorizeRequest, u: UpstreamUser)
    ensures UpstreamScopes(req, u) == if Picked(req.scopes, u.scopes) != [] then Picked(req.scopes, u.scopes) else u.scopes
  {
    GrantedArePicked(req.scopes, u.scopes);
  }

  /** The words of a scope parameter. */
  function Words(s: string): seq<string>
    decreases |s|
  {
    var i := FirstSpace(s);
    if i == |s| then [s] else [s[..i]] + Words(s[i + 1..])
  }

  function FirstSpace(s: string): (i: nat)
    ensures i <= |s| && (i < |s| ==> s[i] == ' ') && forall j :: 0 <= j < i ==> s[j] != ' '
  {
    if s == "" || s[0] == ' ' then 0 else 1 + FirstSpace(s[1..])
  }

  lemma {:induction false} FirstSpaceAfter(first: string, t: string)
    requires ' ' !in first
    ensures FirstSpace(first + " " + t) == |first| && FirstSpace(first) == |first|
    decreases |first|
  {
    if first != "" {
      assert (first + " " + t)[1..] == first[1..] + " " + t;
      FirstSpaceAfter(first[1..], t);
    }
  }

  lemma OneMoreWord(first: string, t: string)
    requires ' ' !in first
    ensures Words(first + " " + t) == [first] + Words(t) && Words(first) == [first]
  {
    FirstSpaceAfter(first, t);
    var s := first + " " + t;
    assert s[..|first|] == first && s[|first| + 1..] == t;
  }

  /** Scopes without spaces can be read back from the scope that carries them. */
  lemma {:induction false} ScopeReadsBack(scopes: seq<string>)
    requires scopes != [] && forall i :: 0 <= i < |scopes| ==> ' ' !in scopes[i]
    ensures Words(JoinScopes(scopes)) == scopes
    decreases |scopes|
  {
    if |scopes| == 1 {
      OneMoreWord(scopes[0], "");
    } else {
      OneMoreWord(scopes[0], JoinScopes(scopes[1..]));
      ScopeReadsBack(scopes[1..]);
    }
  }

  // ----- Logins -----

  /** A request that may lead to a code: RFC 6749, section 4.1.1, and RFC 7636, section 4.3. */
  predicate Eligible(c: Config, clients: map<string, Client>, req: AuthorizeRequest) {
    && req.responseType == "code" && req.clientId != "" && req.redirectUri != ""
    && AllowedBy(c.parse, req.redirectUri, c.allowedRedirectUris)
    && (if req.clientId in clients then AllowedBy(c.parse, req.redirectUri, clients[req.clientId].redirectUris) else !c.requireRegistered)
    && (req.challengeMethod == "S256" || req.challengeMethod == "")
    && |req.challenge| == 43
    && forall i :: 0 <= i < 43 ==>
         var ch := req.challenge[i]; 'A' <= ch <= 'Z' || 'a' <= ch <= 'z' || '0' <= ch <= '9' || ch == '-' || ch == '_'
  }

  lemma AcceptedIff(c: Config, b: Books, req: AuthorizeRequest)
    ensures AcceptedRequest(c, b, req) == if Eligible(c, b.clients, req) then Some(req.(challengeMethod := "S256")) else None
  {
    assert ValidChallenge(req.challenge) ==> forall i :: 0 <= i < 43 ==>
      var ch := req.challenge[i]; 'A' <= ch <= 'Z' || 'a' <= ch <= 'z' || '0' <= ch <= '9' || ch == '-' || ch == '_';
  }

  /** The code that a login for this request stores. */
  function CodeOf(k: string, req: AuthorizeRequest, userId: string, username: string, scopes: seq<string>): AuthorizationCode {
    AuthorizationCode(k, req.clientId, userId, username, req.redirectUri, JoinScopes(scopes), req.challenge, "S256", req.state, req.nonce)
  }

  /** A code is stored if and only if there is randomness and room. */
  predicate Stores(c: Config, b: Books, k: Option<string>, code: AuthorizationCode, now: int, b': Books, resp: Response) {
    if k.None? then b' == b && resp == Rejected(NoRandomness)
    else if |b.codes| >= 10_000 then b' == b && resp == Rejected(StorageFull)
    else b' == b.(codes := b.codes[k.value := Entry(code, now + c.codeLifetime)]) && resp == CodeIssued(k.value)
  }

  lemma StoringIs(c: Config, b: Books, req: AuthorizeRequest, user: UserInfo, scopes: seq<string>, k: Option<string>, now: int)
    requires req.challengeMethod == "S256"
    ensures var (b', resp) := IssueCode(c, b, req, user, scopes, k, now);
            Stores(c, b, k, CodeOf(if k.Some? then k.value else "", req, user.id, user.username, scopes), now, b', resp)
  {
  }

  function FormScopes(c: Config, req: AuthorizeRequest, user: UserInfo): seq<string> {
    if Picked(req.scopes, user.scopes) != [] then Picked(req.scopes, user.scopes) else Picked(c.scopesSupported, user.scopes)
  }

  function FederatedScopes(req: AuthorizeRequest, u: UpstreamUser): seq<string> {
    if Picked(req.scopes, u.scopes) != [] then Picked(req.scopes, u.scopes) else u.scopes
  }

  /** Exactly what a login does: a code for the user if the request is eligible and the user known. */
  lemma LogInIssuesIff(c: Config, b: Books, req: AuthorizeRequest, user: Option<UserInfo>, k: Option<string>, now: int)
    ensures var (b', resp) := Serve(c, b, LogIn(req, user, k), now);
            if !Eligible(c, b.clients, req) then b' == b && resp == Rejected(BadRequest)
            else if user.None? then b' == b && resp == Rejected(AccessDenied)
            else Stores(c, b, k, CodeOf(if k.Some? then k.value else "", req, user.value.id, user.value.username, FormScopes(c, req, user.value)), now, b', resp)
  {
    AcceptedIff(c, b, req);
    if Eligible(c, b.clients, req) && user.Some? {
      var req' := req.(challengeMethod := "S256");
      LoginScopesArePicked(c, req', user.value);
      StoringIs(c, b, req', user.value, FormScopes(c, req, user.value), k, now);
    }
  }

  /** Exactly what the start of a federated login does. */
  lemma FederatedBeginsIff(c: Config, b: Books, req: AuthorizeRequest, state: Option<string>, urlBuilt: bool, now: int)
    ensures var (b', resp) := Serve(c, b, BeginFederated(req, state, urlBuilt), now);
            if !Eligible(c, b.clients, req) then b' == b && resp == Rejected(BadRequest)
            else if state.None? then b' == b && resp == Rejected(NoRandomness)
            else b' == b.(pending := b.pending[state.value := Pending(req.(challengeMethod := "S256"), now)])
                 && resp == if urlBuilt then Done else Rejected(UpstreamFailed)
  {
    AcceptedIff(c, b, req);
  }

  /** The local identity: the email before the subject, the name before both. */
  function IdOf(u: UpstreamUser): string { if u.email != "" then u.email else u.subject }

  function NameOf(u: UpstreamUser): string { if u.name != "" then u.name else IdOf(u) }

  /** Exactly what a callback does: whatever comes of it, the login is no longer open. */
  lemma CallbackIssuesIff(c: Config, b: Books, state: string, u: Option<UpstreamUser>, k: Option<string>, now: int)
    requires state in b.pending ==> b.pending[state].req.challengeMethod == "S256"
    ensures var (b', resp) := Serve(c, b, Callback(state, u, k), now);
            if state !in b.pending then b' == b && resp == Rejected(BadRequest)
            else
              var req, rest := b.pending[state].req, b.(pending := b.pending - {state});
              if u.None? then b' == rest && resp == Rejected(AccessDenied)
              else Stores(c, rest, k, CodeOf(if k.Some? then k.value else "", req, IdOf(u.value), NameOf(u.value), FederatedScopes(req, u.value)), now, b', resp)
  {
    if state in b.pending && u.Some? {
      var req := b.pending[state].req;
      UpstreamScopesArePicked(req, u.value);
      StoringIs(c, b.(pending := b.pending - {state}), req, LocalUser(u.value), UpstreamScopes(req, u.value), k, now);
    }
  }

  /** Exactly what a registration does: all redirect URIs must be on the global list. */
  lemma RegistersIff(c: Config, b: Books, uris: seq<string>, clientId: string, secret: string, now: int)
    ensures var (b', resp) := Serve(c, b, Register(uris, clientId, secret), now);
            if uris == [] then b' == b && resp == Rejected(BadRequest)
            else if exists i :: 0 <= i < |uris| && !AllowedBy(c.parse, uris[i], c.allowedRedirectUris) then b' == b && resp == Rejected(BadRedirectUri)
            else if |b.clients| >= 1_000 then b' == b && resp == Rejected(StorageFull)
            else b' == b.(clients := b.clients[clientId := Client(clientId, secret, uris)]) && resp == Done
  {
  }

  // ----- Origins -----

  /** Between the b-th call, which began this federated login, and the n-th, nothing has ended it or begun it anew. */
  predicate Begins(c: Config, run: seq<Timed>, b: nat, n: nat, state: string)
    requires n <= |run|
  {
    && b < n && BeginsAt(c, run, b, state)
    && forall j :: b < j < n ==> !Ends(run[j], state, run[b].now)
  }

  /** The i-th call began this federated login. */
  predicate BeginsAt(c: Config, run: seq<Timed>, i: nat, state: string)
    requires i < |run|
  {
    run[i].call.BeginFederated? && run[i].call.newState == Some(state) && Eligible(c, BooksAt(c, run, i).clients, run[i].call.req)
  }

  lemma PendingStep(c: Config, run: seq<Timed>, i: nat, state: string)
    requires i < |run|
    ensures var before, after := BooksAt(c, run, i).pending, BooksAt(c, run, i + 1).pending;
            state in after ==>
              if BeginsAt(c, run, i, state) then after[state] == Pending(run[i].call.req.(challengeMethod := "S256"), run[i].now)
              else state in before && after[state] == before[state] && !Ends(run[i], state, before[state].createdAt)
  {
    var b, t := BooksAt(c, run, i), run[i];
    NextBooks(c, run, i);
    if Reissues(t.call, state) {
      FederatedBeginsIff(c, b, t.call.req, t.call.newState, t.call.urlBuilt, t.now);
    } else {
      StepKeepsPending(c, World(b, EMPTY_HISTORY), t, state);
    }
  }

  lemma NothingAtFirst(c: Config, run: seq<Timed>)
    ensures BooksAt(c, run, 0) == EMPTY_BOOKS
  {
    assert run[..0] == [];
  }

  /** A pending login was begun by a call of the run, and nothing has ended it since. */
  lemma {:induction false} PendingOrigin(c: Config, run: seq<Timed>, n: nat, state: string) returns (b: nat)
    requires n <= |run| && state in BooksAt(c, run, n).pending
    ensures Begins(c, run, b, n, state)
    ensures BooksAt(c, run, n).pending[state] == Pending(run[b].call.req.(challengeMethod := "S256"), run[b].now)
    decreases n
  {
    NothingAtFirst(c, run);
    PendingStep(c, run, n - 1, state);
    if BeginsAt(c, run, n - 1, state) {
      b := n - 1;
    } else {
      b := PendingOrigin(c, run, n - 1, state);
    }
  }

  /** The m-th call was a login that stored this code, with what the login allowed and nothing else. */
  predicate LogsIn(c: Config, run: seq<Timed>, m: nat, code: AuthorizationCode)
    requires m < |run|
  {
    && Answer(c, run, m) == CodeIssued(code.code)
    && match run[m].call
       case LogIn(req, user, _) =>
         && Eligible(c, BooksAt(c, run, m).clients, req) && user.Some?
         && code == CodeOf(code.code, req, user.value.id, user.value.username, FormScopes(c, req, user.value))
       case Callback(state, u, _) =>
         && u.Some?
         && exists b :: 0 <= b < m && Begins(c, run, b, m, state)
              && code == CodeOf(code.code, run[b].call.req, IdOf(u.value), NameOf(u.value), FederatedScopes(run[b].call.req, u.value))
       case _ => false
  }

  /** An exchange that finds the code, however it ends, and a sweep after its lifetime. */
  predicate SpendsCode(c: Config, b: Books, call: Call, now: int, k: string)
    requires k in b.codes
  {
    || (call.Exchange? && call.x.code == k && FindsCode(c, b, call.x, call.minted, now))
    || (call.CleanupStorage? && now > b.codes[k].expiresAt)
  }

  /** What one call does to one entry of the table of codes, unless it gives out that code. */
  predicate CodeFollows(c: Config, b: Books, call: Call, now: int, k: string, codes: Table<AuthorizationCode>, resp: Response) {
    resp != CodeIssued(k) ==>
      && (k in codes <==> k in b.codes && !SpendsCode(c, b, call, now, k))
      && (k in codes ==> codes[k] == b.codes[k])
  }

  lemma ExchangeTakesCode(c: Config, b: Books, x: ExchangeRequest, minted: Minted, now: int, k: string)
    ensures var (b', resp) := Serve(c, b, Exchange(x, minted), now); CodeFollows(c, b, Exchange(x, minted), now, k, b'.codes, resp)
  {
    ExchangeIssuesIff(c, b, x, minted, now);
  }

  lemma LoginsAddCode(c: Config, b: Books, call: Call, now: int, k: string)
    requires call.LogIn? || (call.Callback? && (call.state in b.pending ==> b.pending[call.state].req.challengeMethod == "S256"))
    ensures var (b', resp) := Serve(c, b, call, now); CodeFollows(c, b, call, now, k, b'.codes, resp)
  {
    if call.LogIn? {
      LogInIssuesIff(c, b, call.req, call.user, call.code, now);
    } else {
      CallbackIssuesIff(c, b, call.state, call.upstream, call.code, now);
    }
  }

  lemma CodesStep(c: Config, b: Books, call: Call, now: int, k: string)
    requires call.Callback? && call.state in b.pending ==> b.pending[call.state].req.challengeMethod == "S256"
    ensures var (b', resp) := Serve(c, b, call, now); CodeFollows(c, b, call, now, k, b'.codes, resp)
  {
    match call
    case LogIn(_, _, _) => LoginsAddCode(c, b, call, now, k);
    case Callback(_, _, _) => LoginsAddCode(c, b, call, now, k);
    case BeginFederated(req, state, urlBuilt) => FederatedBeginsIff(c, b, req, state, urlBuilt, now);
    case Register(uris, clientId, secret) => RegistersIff(c, b, uris, clientId, secret, now);
    case Exchange(x, minted) => ExchangeTakesCode(c, b, x, minted, now, k);
    case Refresh(r, minted) => RefreshIssuesIff(c, b, r, minted, now);
    case CallbackError(_) =>
    case CleanupStorage =>
    case CleanupPending =>
  }

  /** What the call that issues a code stores. */
  lemma NewCodeIs(c: Config, run: seq<Timed>, m: nat, k: string)
    requires m < |run| && Answer(c, run, m) == CodeIssued(k)
    ensures var codes := BooksAt(c, run, m + 1).codes;
            && k in codes && codes[k].value.code == k && codes[k].expiresAt == run[m].now + c.codeLifetime
            && LogsIn(c, run, m, codes[k].value)
  {
    NextBooks(c, run, m);
    var b := BooksAt(c, run, m);
    match run[m].call
    case LogIn(req, user, code) => LogInIssuesIff(c, b, req, user, code, run[m].now);
    case Callback(state, u, code) =>
      if state in b.pending {
        var from := PendingOrigin(c, run, m, state);
        CallbackIssuesIff(c, b, state, u, code, run[m].now);
        assert BooksAt(c, run, m + 1).codes[k].value == CodeOf(k, run[from].call.req, IdOf(u.value), NameOf(u.value), FederatedScopes(run[from].call.req, u.value));
      }
    case BeginFederated(req, state, urlBuilt) => FederatedBeginsIff(c, b, req, state, urlBuilt, run[m].now);
    case Register(uris, clientId, secret) => RegistersIff(c, b, uris, clientId, secret, run[m].now);
    case Exchange(x, minted) => ExchangeIssuesIff(c, b, x, minted, run[m].now);
    case Refresh(r, minted) => RefreshIssuesIff(c, b, r, minted, run[m].now);
    case _ =>
  }

  /** The m-th call is where this entry of the table of codes comes from. */
  predicate CodeFrom(c: Config, run: seq<Timed>, m: nat, k: string, e: Entry<AuthorizationCode>)
    requires m < |run|
  {
    e.value.code == k && LogsIn(c, run, m, e.value) && e.expiresAt == run[m].now + c.codeLifetime
  }

  /** What becomes of one entry of a table in the first n steps of a run: when it is written, and when it is taken out. */
  datatype Tale<E> = Tale(entries: seq<Option<E>>, written: seq<bool>, spent: seq<bool>)

  predicate Tells<E(==)>(tale: Tale<E>, n: nat) {
    && |tale.entries| == n + 1 && |tale.written| == n && |tale.spent| == n && tale.entries[0].None?
    && forall i :: 0 <= i < n && !tale.written[i] ==> tale.entries[i + 1] == if tale.spent[i] then None else tale.entries[i]
  }

  /** An entry that is there was written at some step and not taken out since. */
  lemma {:induction false} LastWrite<E>(tale: Tale<E>, n: nat, k: nat) returns (m: nat)
    requires Tells(tale, n) && k <= n && tale.entries[k].Some?
    ensures m < k && tale.written[m] && tale.entries[m + 1] == tale.entries[k]
    ensures forall j :: m < j < k ==> !tale.spent[j]
    decreases k
  {
    assert tale.entries[k - 1 + 1] == tale.entries[k];
    m := k - 1;
    if !tale.written[k - 1] {
      m := LastWrite(tale, n, k - 1);
      if tale.spent[k - 1] {
        assert false;
      }
    }
  }

  lemma {:induction false} StaysUntilSpent<E>(tale: Tale<E>, n: nat, m: nat, k: nat)
    requires Tells(tale, n) && m <= k <= n && tale.entries[m].Some? && forall j :: m <= j < k ==> !tale.written[j]
    ensures tale.entries[k] == if exists j :: m <= j < k && tale.spent[j] then None else tale.entries[m]
    decreases k
  {
    if m < k {
      assert tale.entries[k - 1 + 1] == tale.entries[k];
      StaysUntilSpent(tale, n, m, k - 1);
    }
  }

  function CodeAt(c: Config, run: seq<Timed>, k: string, i: nat): Option<Entry<AuthorizationCode>>
    requires i <= |run|
  {
    if k in BooksAt(c, run, i).codes then Some(BooksAt(c, run, i).codes[k]) else None
  }

  predicate IssuesCode(c: Config, run: seq<Timed>, k: string, i: nat)
    requires i < |run|
  {
    Answer(c, run, i) == CodeIssued(k)
  }

  predicate SpendsCodeAt(c: Config, run: seq<Timed>, k: string, i: nat)
    requires i < |run|
  {
    k in BooksAt(c, run, i).codes && SpendsCode(c, BooksAt(c, run, i), run[i].call, run[i].now, k)
  }

  lemma CodeIsKept(c: Config, run: seq<Timed>, k: string, i: nat)
    requires i < |run| && !IssuesCode(c, run, k, i)
    ensures CodeAt(c, run, k, i + 1) == if SpendsCodeAt(c, run, k, i) then None else CodeAt(c, run, k, i)
  {
    var b, call := BooksAt(c, run, i), run[i].call;
    NextBooks(c, run, i);
    if call.Callback? && call.state in b.pending {
      var from := PendingOrigin(c, run, i, call.state);
    }
    CodesStep(c, b, call, run[i].now, k);
  }

  ghost function CodeTale(c: Config, run: seq<Timed>, k: string): Tale<Entry<AuthorizationCode>> {
    Tale(seq(|run| + 1, i requires 0 <= i <= |run| => CodeAt(c, run, k, i)),
         seq(|run|, i requires 0 <= i < |run| => IssuesCode(c, run, k, i)),
         seq(|run|, i requires 0 <= i < |run| => SpendsCodeAt(c, run, k, i)))
  }

  lemma CodeTaleStep(c: Config, run: seq<Timed>, k: string, tale: Tale<Entry<AuthorizationCode>>, i: nat)
    requires tale == CodeTale(c, run, k) && i < |run| && !tale.written[i]
    ensures tale.entries[i + 1] == if tale.spent[i] then None else tale.entries[i]
  {
    CodeIsKept(c, run, k, i);
  }

  lemma CodeTaleTells(c: Config, run: seq<Timed>, k: string) returns (tale: Tale<Entry<AuthorizationCode>>)
    ensures tale == CodeTale(c, run, k) && Tells(tale, |run|)
  {
    tale := CodeTale(c, run, k);
    NothingAtFirst(c, run);
    forall i | 0 <= i < |run| && !tale.written[i] ensures tale.entries[i + 1] == if tale.spent[i] then None else tale.entries[i] {
      CodeTaleStep(c, run, k, tale, i);
    }
  }

  /**
   Unless it is given out again, a code is there until an exchange finds it, however that ends, or a
   sweep comes after its lifetime, and not longer.
   */
  lemma CodeSurvivesIff(c: Config, run: seq<Timed>, m: nat, n: nat, k: string)
    requires m <= n <= |run| && CodeAt(c, run, k, m).Some? && forall j :: m <= j < n ==> !IssuesCode(c, run, k, j)
    ensures CodeAt(c, run, k, n) == if exists j :: m <= j < n && SpendsCodeAt(c, run, k, j) then None else CodeAt(c, run, k, m)
  {
    var tale := CodeTaleTells(c, run, k);
    assert forall j :: m <= j < n ==> tale.spent[j] == SpendsCodeAt(c, run, k, j);
    StaysUntilSpent(tale, |run|, m, n);
  }

  lemma CodeIsWritten(c: Config, run: seq<Timed>, k: string, m: nat)
    requires m < |run| && IssuesCode(c, run, k, m)
    ensures CodeAt(c, run, k, m + 1).Some? && CodeFrom(c, run, m, k, CodeAt(c, run, k, m + 1).value)
  {
    NewCodeIs(c, run, m, k);
  }

  /** A stored code was granted by a call of the run, and has not been exchanged since. */
  lemma CodeOrigin(c: Config, run: seq<Timed>, n: nat, k: string) returns (m: nat)
    requires n <= |run| && CodeAt(c, run, k, n).Some?
    ensures m < n && CodeFrom(c, run, m, k, CodeAt(c, run, k, n).value)
    ensures forall j :: m < j < n ==> !SpendsCodeAt(c, run, k, j)
  {
    var tale := CodeTaleTells(c, run, k);
    m := LastWrite(tale, |run|, n);
    CodeIsWritten(c, run, k, m);
    forall j | m < j < n ensures !SpendsCodeAt(c, run, k, j) {
      assert !tale.spent[j];
    }
  }

  /** A refresh that finds the token, however it ends, and a sweep after its lifetime. */
  predicate SpendsToken(c: Config, b: Books, call: Call, now: int, t: string)
    requires t in b.tokens
  {
    || (call.Refresh? && call.r.refreshToken == t && FindsToken(c, b, call.r, call.minted, now))
    || (call.CleanupStorage? && now > b.tokens[t].expiresAt)
  }

  /** What one call does to one entry of the table of refresh tokens. */
  predicate TokenFollows(c: Config, b: Books, call: Call, now: int, t: string, tokens: Table<RefreshToken>, resp: Response) {
    if resp.TokensIssued? && resp.issued.refreshToken == t then t in tokens && TokenFrom(c, resp.issued, now, tokens[t])
    else && (t in tokens <==> t in b.tokens && !SpendsToken(c, b, call, now, t))
         && (t in tokens ==> tokens[t] == b.tokens[t])
  }

  lemma ExchangeAddsToken(c: Config, b: Books, x: ExchangeRequest, minted: Minted, now: int, t: string)
    ensures var (b', resp) := Serve(c, b, Exchange(x, minted), now); TokenFollows(c, b, Exchange(x, minted), now, t, b'.tokens, resp)
  {
    ExchangeIssuesIff(c, b, x, minted, now);
  }

  lemma RefreshReplacesToken(c: Config, b: Books, r: RefreshRequest, minted: Minted, now: int, t: string)
    ensures var (b', resp) := Serve(c, b, Refresh(r, minted), now); TokenFollows(c, b, Refresh(r, minted), now, t, b'.tokens, resp)
  {
    RefreshIssuesIff(c, b, r, minted, now);
  }

  lemma TokensStep(c: Config, b: Books, call: Call, now: int, t: string)
    requires call.Callback? && call.state in b.pending ==> b.pending[call.state].req.challengeMethod == "S256"
    ensures var (b', resp) := Serve(c, b, call, now); TokenFollows(c, b, call, now, t, b'.tokens, resp)
  {
    match call
    case LogIn(req, user, code) => LogInIssuesIff(c, b, req, user, code, now);
    case BeginFederated(req, state, urlBuilt) => FederatedBeginsIff(c, b, req, state, urlBuilt, now);
    case Callback(state, u, code) => CallbackIssuesIff(c, b, state, u, code, now);
    case Register(uris, clientId, secret) => RegistersIff(c, b, uris, clientId, secret, now);
    case Exchange(x, minted) => ExchangeAddsToken(c, b, x, minted, now, t);
    case Refresh(r, minted) => RefreshReplacesToken(c, b, r, minted, now, t);
    case CallbackError(_) =>
    case CleanupStorage =>
    case CleanupPending =>
  }

  /** An entry of the table of refresh tokens says what was issued with it. */
  predicate TokenFrom(c: Config, iss: Issuance, now: int, e: Entry<RefreshToken>) {
    e == Entry(RefreshToken(iss.refreshToken, iss.clientId, iss.userId, iss.username, iss.scope), now + c.refreshLifetime)
  }

  predicate IssuesAt(c: Config, run: seq<Timed>, i: nat, t: string)
    requires i < |run|
  {
    Answer(c, run, i).TokensIssued? && Answer(c, run, i).issued.refreshToken == t
  }

  function TokenAt(c: Config, run: seq<Timed>, t: string, i: nat): Option<Entry<RefreshToken>>
    requires i <= |run|
  {
    if t in BooksAt(c, run, i).tokens then Some(BooksAt(c, run, i).tokens[t]) else None
  }

  predicate SpendsTokenAt(c: Config, run: seq<Timed>, t: string, i: nat)
    requires i < |run|
  {
    t in BooksAt(c, run, i).tokens && SpendsToken(c, BooksAt(c, run, i), run[i].call, run[i].now, t)
  }

  lemma TokenIsKept(c: Config, run: seq<Timed>, t: string, i: nat)
    requires i < |run|
    ensures if IssuesAt(c, run, i, t)
            then TokenAt(c, run, t, i + 1).Some? && TokenFrom(c, Answer(c, run, i).issued, run[i].now, TokenAt(c, run, t, i + 1).value)
            else TokenAt(c, run, t, i + 1) == if SpendsTokenAt(c, run, t, i) then None else TokenAt(c, run, t, i)
  {
    var b, call := BooksAt(c, run, i), run[i].call;
    NextBooks(c, run, i);
    if call.Callback? && call.state in b.pending {
      var from := PendingOrigin(c, run, i, call.state);
    }
    TokensStep(c, b, call, run[i].now, t);
  }

  ghost function TokenTale(c: Config, run: seq<Timed>, t: string): Tale<Entry<RefreshToken>> {
    Tale(seq(|run| + 1, i requires 0 <= i <= |run| => TokenAt(c, run, t, i)),
         seq(|run|, i requires 0 <= i < |run| => IssuesAt(c, run, i, t)),
         seq(|run|, i requires 0 <= i < |run| => SpendsTokenAt(c, run, t, i)))
  }

  lemma TokenTaleStep(c: Config, run: seq<Timed>, t: string, tale: Tale<Entry<RefreshToken>>, i: nat)
    requires tale == TokenTale(c, run, t) && i < |run| && !tale.written[i]
    ensures tale.entries[i + 1] == if tale.spent[i] then None else tale.entries[i]
  {
    TokenIsKept(c, run, t, i);
  }

  lemma TokenTaleTells(c: Config, run: seq<Timed>, t: string) returns (tale: Tale<Entry<RefreshToken>>)
    ensures tale == TokenTale(c, run, t) && Tells(tale, |run|)
  {
    tale := TokenTale(c, run, t);
    NothingAtFirst(c, run);
    forall i | 0 <= i < |run| && !tale.written[i] ensures tale.entries[i + 1] == if tale.spent[i] then None else tale.entries[i] {
      TokenTaleStep(c, run, t, tale, i);
    }
  }

  /** Unless it is given out again, a refresh token is there until a refresh finds it or a sweep comes after its lifetime, and not longer. */
  lemma TokenSurvivesIff(c: Config, run: seq<Timed>, m: nat, n: nat, t: string)
    requires m <= n <= |run| && TokenAt(c, run, t, m).Some? && forall j :: m <= j < n ==> !IssuesAt(c, run, j, t)
    ensures TokenAt(c, run, t, n) == if exists j :: m <= j < n && SpendsTokenAt(c, run, t, j) then None else TokenAt(c, run, t, m)
  {
    var tale := TokenTaleTells(c, run, t);
    assert forall j :: m <= j < n ==> tale.spent[j] == SpendsTokenAt(c, run, t, j);
    StaysUntilSpent(tale, |run|, m, n);
  }

  /** A stored refresh token came with tokens issued by a call of the run, and has not been used since. */
  lemma TokenOrigin(c: Config, run: seq<Timed>, n: nat, t: string) returns (m: nat)
    requires n <= |run| && TokenAt(c, run, t, n).Some?
    ensures m < n && IssuesAt(c, run, m, t) && TokenFrom(c, Answer(c, run, m).issued, run[m].now, TokenAt(c, run, t, n).value)
    ensures forall j :: m < j < n ==> !SpendsTokenAt(c, run, t, j)
  {
    var tale := TokenTaleTells(c, run, t);
    m := LastWrite(tale, |run|, n);
    TokenIsKept(c, run, t, m);
    forall j | m < j < n ensures !SpendsTokenAt(c, run, t, j) {
      assert !tale.spent[j];
    }
  }

  /** The i-th call exchanged the code of the m-th, a login: within its lifetime, once, with the client, redirect URI and verifier that fit. */
  ghost predicate ExchangesFrom(c: Config, run: seq<Timed>, m: nat, i: nat, code: AuthorizationCode)
    requires m < i < |run| && run[i].call.Exchange? && Answer(c, run, i).TokensIssued?
  {
    var x, iss := run[i].call.x, Answer(c, run, i).issued;
    && LogsIn(c, run, m, code) && code.code == x.code && run[i].now <= run[m].now + c.codeLifetime
    && (forall j :: m < j < i ==> !SpendsCodeAt(c, run, x.code, j))
    && x.clientId == code.clientId && x.redirectUri == code.redirectUri
    && VerifierFormat(x.verifier) && c.s256(x.verifier) == code.challenge
    && iss.userId == code.userId && iss.username == code.username && iss.clientId == code.clientId && iss.scope == code.scope
  }

  /** The i-th call refreshed the tokens of the m-th: within their lifetime, once, by the same client, for the same. */
  ghost predicate RefreshesFrom(c: Config, run: seq<Timed>, m: nat, i: nat)
    requires m < i < |run| && run[i].call.Refresh? && Answer(c, run, i).TokensIssued?
  {
    var r, iss := run[i].call.r, Answer(c, run, i).issued;
    && IssuesAt(c, run, m, r.refreshToken) && run[i].now <= run[m].now + c.refreshLifetime
    && (forall j :: m < j < i ==> !SpendsTokenAt(c, run, r.refreshToken, j))
    && r.clientId == iss.clientId
    && Answer(c, run, m).issued == iss.(refreshToken := r.refreshToken)
  }

  lemma OnlyTheTokenEndpointIssues(c: Config, b: Books, call: Call, now: int)
    ensures Serve(c, b, call, now).1.TokensIssued? ==> call.Exchange? || call.Refresh?
  {
  }

  lemma ExchangeHasOrigin(c: Config, run: seq<Timed>, i: nat) returns (m: nat, code: AuthorizationCode)
    requires i < |run| && run[i].call.Exchange? && Answer(c, run, i).TokensIssued?
    ensures m < i && ExchangesFrom(c, run, m, i, code)
  {
    var b, x := BooksAt(c, run, i), run[i].call.x;
    ExchangeIssuesIff(c, b, x, run[i].call.minted, run[i].now);
    m := CodeOrigin(c, run, i, x.code);
    code := b.codes[x.code].value;
  }

  lemma RefreshHasOrigin(c: Config, run: seq<Timed>, i: nat) returns (m: nat)
    requires i < |run| && run[i].call.Refresh? && Answer(c, run, i).TokensIssued?
    ensures m < i && RefreshesFrom(c, run, m, i)
  {
    var b, r := BooksAt(c, run, i), run[i].call.r;
    RefreshIssuesIff(c, b, r, run[i].call.minted, run[i].now);
    m := TokenOrigin(c, run, i, r.refreshToken);
  }

  /**
   In every run, whatever tokens are issued answer an exchange of a code that an earlier login of the run
   stored, or a refresh of tokens that an earlier call issued. They carry on what was allowed there,
   nothing was used twice or too late, and the client is the same throughout.
   */
  lemma TokensComeFromLogins(c: Config, run: seq<Timed>, i: nat)
    requires i < |run| && Answer(c, run, i).TokensIssued?
    ensures run[i].call.Exchange? || run[i].call.Refresh?
    ensures run[i].call.Exchange? ==> exists m, code :: 0 <= m < i && ExchangesFrom(c, run, m, i, code)
    ensures run[i].call.Refresh? ==> exists m :: 0 <= m < i && RefreshesFrom(c, run, m, i)
  {
    OnlyTheTokenEndpointIssues(c, BooksAt(c, run, i), run[i].call, run[i].now);
    if run[i].call.Exchange? {
      var m, code := ExchangeHasOrigin(c, run, i);
    } else {
      var m := RefreshHasOrigin(c, run, i);
    }
  }

  /** Both issuances are for the same user, client and scope. */
  predicate Alike(a: Issuance, b: Issuance) { a == b.(refreshToken := a.refreshToken) }

  /** However long the chain of refreshes, it starts with the exchange of the code of a login, and nothing was added on the way. */
  lemma {:induction false} ChainsStartAtLogins(c: Config, run: seq<Timed>, i: nat) returns (m: nat, e: nat, code: AuthorizationCode)
    requires i < |run| && Answer(c, run, i).TokensIssued?
    ensures m < e <= i && run[e].call.Exchange? && Answer(c, run, e).TokensIssued? && ExchangesFrom(c, run, m, e, code)
    ensures Alike(Answer(c, run, e).issued, Answer(c, run, i).issued)
    decreases i
  {
    OnlyTheTokenEndpointIssues(c, BooksAt(c, run, i), run[i].call, run[i].now);
    if run[i].call.Exchange? {
      m, code := ExchangeHasOrigin(c, run, i);
      e := i;
    } else {
      var j := RefreshHasOrigin(c, run, i);
      m, e, code := ChainsStartAtLogins(c, run, j);
    }
  }
}
