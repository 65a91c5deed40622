/**
 * Signing requests as they arrive: the bearer header, the route it takes, the key that verifies a
 * token, and what that adds to the provenance of a signature.
 */
module Requests {
  import opened Prelude
  import opened Text
  import opened Config
  import opened Identity
  import opened Signing
  import opened SessionToken
  import KeyStore
  import JtiReplay
  import JwksRefresh
  import Sessions

  /**
   * The JWT library: the key id in a token's header, if that is an RS256 header with one; whether a
   * key makes a decoding key; and the claims a key verifies for a token.
   */
  datatype Jwts = Jwts(
    kidOf: string -> Option<string>,
    usable: JwksRefresh.Jwk -> bool,
    verify: (JwksRefresh.Jwk, string) -> Option<Claims>)

  datatype HttpRequest = HttpRequest(json: bool, authorization: Option<string>, keyId: string, body: Body)

  datatype Route = SessionRoute(token: string) | JwtRoute(token: string, kid: string)

  /** The routing of `authenticate`. */
  function RouteOf(jwts: Jwts, authorization: Option<string>): Result<Route, BearerError> {
    match BearerToken(authorization)
    case Err(error) => Err(error)
    case Ok(token) =>
      if IsActionsJwt(token, jwts.kidOf(token).Some?) then Ok(JwtRoute(token, jwts.kidOf(token).value))
      else Ok(SessionRoute(token))
  }

  datatype HttpError = BadBearer(bearer: BearerError) | KeyUnavailable | UnknownKid | Refused(error: ApiError)

  datatype Response = Response(seen: JtiReplay.Seen, result: Result<Signature, HttpError>)

  function Respond(handled: Handled): Response {
    Response(handled.seen, if handled.result.Ok? then Ok(handled.result.value) else Err(Refused(handled.result.error)))
  }

  /** `create_signature` from the header on; `answer` is what `jwk_for` says, if the route asks it. */
  function Serve(c: Config, store: KeyStore.Store, views: Views, sessions: Sessions.Store, seen: JtiReplay.Seen,
                 jwts: Jwts, answer: Result<JwksRefresh.Jwk, JwksRefresh.JwkError>, http: HttpRequest,
                 now: int, wall: int, signs: bool): Response
  {
    if !http.json then Response(seen, Err(Refused(UnsupportedContentType)))
    else
      match RouteOf(jwts, http.authorization)
      case Err(error) => Response(seen, Err(BadBearer(error)))
      case Ok(SessionRoute(token)) =>
        Respond(CreateSignature(c, store, views, sessions, seen,
                                RequestFor(http, SessionCredential(token)), now, wall, signs))
      case Ok(JwtRoute(token, kid)) =>
        match answer
        case Err(KeyDiscovery) => Response(seen, Err(KeyUnavailable))
        case Err(InvalidToken) => Response(seen, Err(UnknownKid))
        case Ok(jwk) =>
          if !jwts.usable(jwk) then Response(seen, Err(KeyUnavailable))
          else
            Respond(CreateSignature(c, store, views, sessions, seen,
                                    RequestFor(http, ActionsToken(jwts.verify(jwk, token))), now, wall, signs))
  }

  function RequestFor(http: HttpRequest, credential: Credential): Request {
    Request(http.json, credential, http.keyId, http.body)
  }

  /** A minted token in a header, under any spelling of the scheme, takes the session route unchanged. */
  lemma MintedTokenIsRouted(jwts: Jwts, random: seq<Byte>, scheme: string)
    requires |random| == 32 && EqIgnoreAsciiCase(scheme, "bearer")
    ensures RouteOf(jwts, Some(scheme + " " + Token(random))) == Ok(SessionRoute(Token(random)))
  {
    TokenSurvivesHeader(random, scheme);
    TokenIsASessionToken(random, jwts.kidOf(Token(random)).Some?);
  }

  /**
   * A request with a minted token in its header gets a signature exactly when the session minted under
   * that token is live and policy, key and digest allow it; no key answer and no replay cache matters.
   */
  lemma MintedTokenServedIff(c: Config, store: KeyStore.Store, views: Views, sessions: Sessions.Store,
                             seen: JtiReplay.Seen, jwts: Jwts, answer: Result<JwksRefresh.Jwk, JwksRefresh.JwkError>,
                             http: HttpRequest, random: seq<Byte>, scheme: string, now: int, wall: int, signs: bool)
    requires Deployed(c, store) && |random| == 32 && EqIgnoreAsciiCase(scheme, "bearer")
    requires http.authorization == Some(scheme + " " + Token(random))
    ensures var session := Sessions.Lookup(sessions, Sessions.Sha256(Token(random)), now);
            var response := Serve(c, store, views, sessions, seen, jwts, answer, http, now, wall, signs);
            && response.seen == seen
            && (response.result.Ok? <==>
                && http.json && session.Some?
                && SignsFor(c, views, session.value.identityId,
                            Request(true, SessionCredential(Token(random)), http.keyId, http.body), signs))
  {
    var token := Token(random);
    MintedTokenIsRouted(jwts, random, scheme);
    assert SESSION_TOKEN_PREFIX <= token;
    SessionSignatureIff(c, store, views, sessions, seen, RequestFor(http, SessionCredential(token)), token, now, wall,
                        signs);
  }

  /** What a served request on the JWT route means for `create_signature`. */
  lemma JwtRouteServed(c: Config, store: KeyStore.Store, views: Views, sessions: Sessions.Store, seen: JtiReplay.Seen,
                       jwts: Jwts, answer: Result<JwksRefresh.Jwk, JwksRefresh.JwkError>, http: HttpRequest,
                       token: string, kid: string, now: int, wall: int, signs: bool)
    requires RouteOf(jwts, http.authorization) == Ok(JwtRoute(token, kid))
    requires Serve(c, store, views, sessions, seen, jwts, answer, http, now, wall, signs).result.Ok?
    ensures answer.Ok?
    ensures CreateSignature(c, store, views, sessions, seen,
                            RequestFor(http, ActionsToken(jwts.verify(answer.value, token))),
                            now, wall, signs).result.Ok?
  {
  }

  /**
   * An answer of `jwk_for` in a run of the key cache is a key of the last stored fetch, under its kid
   * and not too old.
   */
  lemma AnsweredKeyWasFetched(w: JwksRefresh.World, states: seq<JwksRefresh.State>, events: seq<JwksRefresh.Event>,
                              i: nat,
                              key: JwksRefresh.Jwk)
    returns (j: nat, m: nat)
    requires JwksRefresh.IsRun(w, states, events) && i < |events| && JwksRefresh.Answers(states, events, i)
    requires states[i + 1].pcs[events[i].c].result == Ok(key)
    ensures JwksRefresh.Holds(events, i, j, m) && w.kids[events[i].c] in events[j].fetched.value
    ensures key == events[j].fetched.value[w.kids[events[i].c]]
    ensures states[i + 1].clock - events[m].now < w.ttl + JwksRefresh.JWKS_MAX_STALENESS
  {
    JwksRefresh.EveryAnswerIsRight(w, states, events, i);
    j, m :| JwksRefresh.Holds(events, i, j, m);
  }

  /**
   * A signature on the JWT route, from the key cache to the policy: the key that verified the token is
   * the one the last stored fetch lists under the token's kid, stored less than ttl plus 24 hours
   * before it was answered, and the claims it verified match exactly one identity, which a policy
   * grants the requested key.
   */
  lemma KeyBehindSignature(c: Config, store: KeyStore.Store, views: Views, sessions: Sessions.Store,
                           seen: JtiReplay.Seen,
                           jwts: Jwts, http: HttpRequest, token: string, kid: string, now: int, wall: int, signs: bool,
                           w: JwksRefresh.World, states: seq<JwksRefresh.State>, events: seq<JwksRefresh.Event>, i: nat)
    returns (j: nat, m: nat, claims: Claims, identity: IdentityConfig, p: nat)
    requires Deployed(c, store) && RouteOf(jwts, http.authorization) == Ok(JwtRoute(token, kid))
    requires JwksRefresh.IsRun(w, states, events) && i < |events| && JwksRefresh.Answers(states, events, i)
    requires w.kids[events[i].c] == kid
    requires Serve(c, store, views, sessions, seen, jwts, states[i + 1].pcs[events[i].c].result, http, now, wall,
                   signs).result.Ok?
    ensures JwksRefresh.Holds(events, i, j, m) && kid in events[j].fetched.value
    ensures states[i + 1].clock - events[m].now < w.ttl + JwksRefresh.JWKS_MAX_STALENESS
    ensures jwts.verify(events[j].fetched.value[kid], token) == Some(claims)
    ensures Matching(c.identities, claims) == [identity]
    ensures p < |c.policies| && Covers(c.policies[p], identity.id, http.keyId)
  {
    var answer := states[i + 1].pcs[events[i].c].result;
    JwtRouteServed(c, store, views, sessions, seen, jwts, answer, http, token, kid, now, wall, signs);
    j, m := AnsweredKeyWasFetched(w, states, events, i, answer.value);
    var k: nat;
    claims, identity, k, p := ActionsSignatureProvenance(c, store, views, sessions, seen,
      RequestFor(http, ActionsToken(jwts.verify(answer.value, token))), now, wall, signs);
  }

  /** The JWT route is taken exactly by bearer tokens of three parts with an RS256 header under this key id. */
  lemma JwtRouteMeans(jwts: Jwts, authorization: Option<string>, token: string, kid: string)
    ensures RouteOf(jwts, authorization) == Ok(JwtRoute(token, kid)) <==>
            && (exists scheme :: IsBearer(authorization, scheme, token))
            && jwts.kidOf(token) == Some(kid) && exists p, q, r :: ThreeParts(token, '.', p, q, r)
  {
    BearerTokenMeans(authorization, token);
    IsActionsJwtMeans(token, jwts.kidOf(token).Some?);
  }

  /** And any other bearer token takes the session route. */
  lemma SessionRouteMeans(jwts: Jwts, authorization: Option<string>, token: string)
    ensures RouteOf(jwts, authorization) == Ok(SessionRoute(token)) <==>
            && (exists scheme :: IsBearer(authorization, scheme, token))
            && (jwts.kidOf(token) == None || !exists p, q, r :: ThreeParts(token, '.', p, q, r))
  {
    BearerTokenMeans(authorization, token);
    IsActionsJwtMeans(token, jwts.kidOf(token).Some?);
  }

  /** What a request is answered before it reaches `create_signature`, each in its own case. */
  lemma EarlyRefusalsAreExact(c: Config, store: KeyStore.Store, views: Views, sessions: Sessions.Store,
                              seen: JtiReplay.Seen, jwts: Jwts, answer: Result<JwksRefresh.Jwk, JwksRefresh.JwkError>,
                              http: HttpRequest, now: int, wall: int, signs: bool)
    ensures var response := Serve(c, store, views, sessions, seen, jwts, answer, http, now, wall, signs);
            var route, onJwt := RouteOf(jwts, http.authorization), RouteOf(jwts, http.authorization).Ok?
                                                                   && RouteOf(jwts, http.authorization).value.JwtRoute?;
            && (!http.json ==> response == Response(seen, Err(Refused(UnsupportedContentType))))
            && (http.json && route.Err? ==> response == Response(seen, Err(BadBearer(route.error))))
            && (http.json && onJwt && answer == Err(JwksRefresh.InvalidToken) ==>
                  response == Response(seen, Err(UnknownKid)))
            && (http.json && onJwt
                && (answer == Err(JwksRefresh.KeyDiscovery) || (answer.Ok? && !jwts.usable(answer.value))) ==>
                  response == Response(seen, Err(KeyUnavailable)))
  {
  }

  /** What `create_signature` made of a request is what is answered: its cache, its signature or its error. */
  ghost predicate PassedOn(response: Response, handled: Handled) {
    && response.seen == handled.seen
    && (forall signature :: handled.result == Ok(signature) <==> response.result == Ok(signature))
    && (forall error :: handled.result == Err(error) <==> response.result == Err(Refused(error)))
  }

  /** Past those refusals `create_signature` gets the request unchanged, and its answer is passed on unchanged. */
  lemma RestIsPassedOn(c: Config, store: KeyStore.Store, views: Views, sessions: Sessions.Store, seen: JtiReplay.Seen,
                       jwts: Jwts, answer: Result<JwksRefresh.Jwk, JwksRefresh.JwkError>, http: HttpRequest,
                       token: string, now: int, wall: int, signs: bool)
    requires http.json
    ensures var response := Serve(c, store, views, sessions, seen, jwts, answer, http, now, wall, signs);
            && (RouteOf(jwts, http.authorization) == Ok(SessionRoute(token)) ==>
                  PassedOn(response, CreateSignature(c, store, views, sessions, seen,
                                                     Request(true, SessionCredential(token), http.keyId, http.body),
                                                     now, wall, signs)))
            && (forall kid :: RouteOf(jwts, http.authorization) == Ok(JwtRoute(token, kid)) && answer.Ok?
                              && jwts.usable(answer.value) ==>
                  PassedOn(response, CreateSignature(c, store, views, sessions, seen,
                                                     Request(true, ActionsToken(jwts.verify(answer.value, token)),
                                                             http.keyId, http.body),
                                                     now, wall, signs)))
  {
  }
}
