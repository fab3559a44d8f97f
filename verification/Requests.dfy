/**
 Checks on authorization and token requests: redirect URIs, PKCE and scopes
 (internal/authserver/authorize.go, pkce.go, builtin.go). URL parsing and SHA-256 are parameters.
 */
module Requests {
  import opened Common

  // ----- Redirect URIs -----

  /** The parts of a parsed URL that matter here. */
  datatype Url = Url(scheme: string, opaquePart: string, hasUser: bool, fragment: string, hostname: string, path: string, query: string)

  /** url.Parse; None for its errors. */
  type UrlParser = string -> Option<Url>

  function ParseLoopback(parse: UrlParser, uri: string): Option<Url> {
    match parse(uri)
    case None => None
    case Some(u) =>
      if u.scheme != "http" || u.opaquePart != "" || u.hasUser || u.fragment != "" || '#' in uri then None
      else if u.hostname == "localhost" || u.hostname == "127.0.0.1" || u.hostname == "::1" then Some(u)
      else None
  }

  /** Equal, or both loopback with the same path and query. */
  predicate Matches(parse: UrlParser, uri: string, allowed: string) {
    || uri == allowed
    || (var u, a := ParseLoopback(parse, uri), ParseLoopback(parse, allowed);
        u.Some? && a.Some? && u.value.path == a.value.path && u.value.query == a.value.query)
  }

  predicate AllowedBy(parse: UrlParser, uri: string, list: seq<string>) {
    exists i :: 0 <= i < |list| && Matches(parse, uri, list[i])
  }

  method IsAllowedRedirectUri(parse: UrlParser, uri: string, allowedRedirectUris: seq<string>) returns (ok: bool)
    ensures ok <==> AllowedBy(parse, uri, allowedRedirectUris)
  {
    var uriParsed := ParseLoopback(parse, uri);
    for i := 0 to |allowedRedirectUris|
      invariant forall k :: 0 <= k < i ==> !Matches(parse, uri, allowedRedirectUris[k])
    {
      var allowed := allowedRedirectUris[i];
      if allowed == uri {
        return true;
      }
      if uriParsed.None? {
        continue;
      }
      var allowedParsed := ParseLoopback(parse, allowed);
      if allowedParsed.Some? && allowedParsed.value.path == uriParsed.value.path
         && allowedParsed.value.query == uriParsed.value.query {
        return true;
      }
    }
    return false;
  }

  /** http on a loopback host with nothing but a port, a path and a query. */
  predicate IsLoopback(parse: UrlParser, uri: string) {
    && parse(uri).Some?
    && var u := parse(uri).value;
       u.scheme == "http" && u.opaquePart == "" && !u.hasUser && u.fragment == "" && '#' !in uri
       && (u.hostname == "localhost" || u.hostname == "127.0.0.1" || u.hostname == "::1")
  }

  /** A URI is allowed if and only if it is on the list, or it and one on the list are loopback URIs with the same path and query, whatever their ports. */
  lemma AllowedIff(parse: UrlParser, uri: string, list: seq<string>)
    ensures AllowedBy(parse, uri, list) <==>
              exists i :: 0 <= i < |list|
                && (uri == list[i]
                    || (IsLoopback(parse, uri) && IsLoopback(parse, list[i])
                        && parse(uri).value.path == parse(list[i]).value.path && parse(uri).value.query == parse(list[i]).value.query))
  {
    forall i | 0 <= i < |list|
      ensures Matches(parse, uri, list[i]) <==>
                (uri == list[i]
                 || (IsLoopback(parse, uri) && IsLoopback(parse, list[i])
                     && parse(uri).value.path == parse(list[i]).value.path && parse(uri).value.query == parse(list[i]).value.query))
    {
    }
  }

  lemma MatchingIsTransitive(parse: UrlParser, a: string, b: string, c: string)
    requires Matches(parse, a, b) && Matches(parse, b, c)
    ensures Matches(parse, a, c)
  {
  }

  /** If every URI of a client is on the global list, so is every URI the client's list lets through. */
  lemma ClientListIsWithinGlobalList(parse: UrlParser, uri: string, clientList: seq<string>, globalList: seq<string>)
    requires forall i :: 0 <= i < |clientList| ==> AllowedBy(parse, clientList[i], globalList)
    requires AllowedBy(parse, uri, clientList)
    ensures AllowedBy(parse, uri, globalList)
  {
    var i :| 0 <= i < |clientList| && Matches(parse, uri, clientList[i]);
    var j :| 0 <= j < |globalList| && Matches(parse, clientList[i], globalList[j]);
    MatchingIsTransitive(parse, uri, clientList[i], globalList[j]);
  }

  // ----- PKCE -----

  predicate IsAlphanumeric(c: char) { 'A' <= c <= 'Z' || 'a' <= c <= 'z' || '0' <= c <= '9' }

  predicate ValidVerifier(v: string) {
    43 <= |v| <= 128 && forall i :: 0 <= i < |v| ==> IsAlphanumeric(v[i]) || v[i] == '-' || v[i] == '.' || v[i] == '_' || v[i] == '~'
  }

  predicate ValidChallenge(c: string) {
    |c| == 43 && forall i :: 0 <= i < |c| ==> IsAlphanumeric(c[i]) || c[i] == '-' || c[i] == '_'
  }

  /** s256 is BASE64URL(SHA256(verifier)). */
  predicate PkceHolds(s256: string -> string, verifier: string, challenge: string, challengeMethod: string) {
    challengeMethod == "S256" && verifier != "" && challenge != "" && s256(verifier) == challenge
  }

  // ----- Authorization requests -----

  datatype AuthorizeRequest = AuthorizeRequest(
    responseType: string, clientId: string, redirectUri: string, scopes: seq<string>, state: string,
    challenge: string, challengeMethod: string, nonce: string)

  datatype Checked = Accepted(req: AuthorizeRequest) | Refused(why: string)

  /** Validates a request; a missing challenge method is filled in. */
  function CheckRequest(parse: UrlParser, req: AuthorizeRequest, allowedRedirectUris: seq<string>): (r: Checked)
    ensures r.Accepted? ==>
              && r.req.responseType == "code" && r.req.clientId != "" && r.req.redirectUri != ""
              && AllowedBy(parse, r.req.redirectUri, allowedRedirectUris)
              && r.req.challengeMethod == "S256" && ValidChallenge(r.req.challenge)
              && r.req == req.(challengeMethod := "S256")
    ensures r.Accepted? <==>
              && req.responseType == "code" && req.clientId != "" && req.redirectUri != ""
              && AllowedBy(parse, req.redirectUri, allowedRedirectUris)
              && (req.challengeMethod == "S256" || req.challengeMethod == "") && ValidChallenge(req.challenge)
  {
    if req.responseType != "code" then Refused("unsupported_response_type")
    else if req.clientId == "" then Refused("client_id is required")
    else if req.redirectUri == "" then Refused("redirect_uri is required")
    else if !AllowedBy(parse, req.redirectUri, allowedRedirectUris) then Refused("redirect_uri is not allowed")
    else if req.challenge == "" then Refused("code_challenge is required")
    else
      var challengeMethod := if req.challengeMethod == "" then "S256" else req.challengeMethod;
      if challengeMethod != "S256" then Refused("only S256 is supported")
      else if !ValidChallenge(req.challenge) then Refused("invalid code_challenge format")
      else Accepted(req.(challengeMethod := challengeMethod))
  }

  // ----- Scopes -----

  /** The requested scopes that are allowed, in the order requested. */
  function Granted(requested: seq<string>, allowed: seq<string>): (r: seq<string>)
    ensures forall s :: s in r <==> s in requested && s in allowed
  {
    if requested == [] then []
    else
      var last := |requested| - 1;
      Granted(requested[..last], allowed) + if requested[last] in allowed then [requested[last]] else []
  }

  method FilterScopes(requested: seq<string>, allowed: seq<string>) returns (result: seq<string>)
    ensures result == Granted(requested, allowed)
  {
    var allowedSet: set<string> := {};
    for i := 0 to |allowed|
      invariant allowedSet == set k | 0 <= k < i :: allowed[k]
    {
      allowedSet := allowedSet + {allowed[i]};
    }
    result := [];
    for i := 0 to |requested|
      invariant result == Granted(requested[..i], allowed)
    {
      assert requested[..i + 1][..i] == requested[..i];
      if requested[i] in allowedSet {
        result := result + [requested[i]];
      }
    }
    assert requested[..|requested|] == requested;
  }
}
