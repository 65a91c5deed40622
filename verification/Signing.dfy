/** From a signing request to a signature: authentication, policy, key state, context, signing. */
module Signing {
  import opened Prelude
  import opened Text
  import opened KeyStore
  import opened Config
  import opened Identity
  import opened KeyringUnlock
  import opened KeyringTheorems
  import JtiReplay
  import Sessions
  import SessionToken
  import DeviceExchange
  import ExchangeEvents

  const MAX_JTI_BYTES := 256

  /**
   * The bearer credential: a JWT with the claims of its verified payload (none if verification failed),
   * or a session token.
   */
  datatype Credential = ActionsToken(claims: Option<Claims>) | SessionCredential(token: string)

  datatype Source =
    | FromAccount(userId: string, login: string)
    | FromActions(gitRef: string, refType: string, refProtected: bool)

  datatype Principal = Principal(identityId: string, jti: Option<string>, source: Source)

  datatype AuthError = InvalidToken | ClaimsDenied | ReplayRefused(error: JtiReplay.JtiError)

  datatype ApiError =
    | UnsupportedContentType | AuthenticationFailed(error: AuthError) | MalformedJson | UnknownKey | PolicyDenied
    | KeyStateConflict | KeyLocked | InvalidDigest | TagRequired | ProtectedRefRequired | LockedWhileSigning
    | SigningFailed

  /** The request body: unparsable, or a digest field with what its base64 decodes to, if anything. */
  datatype Body = Malformed | DigestField(decoded: Option<seq<bv8>>)

  datatype Request = Request(json: bool, credential: Credential, keyId: string, body: Body)

  // ---- Authentication ----

  datatype Authenticated = Authenticated(seen: JtiReplay.Seen, result: Result<Principal, AuthError>)

  predicate ValidJti(jti: Option<string>) {
    jti.Some? && jti.value != [] && Utf8Length(jti.value) <= MAX_JTI_BYTES
  }

  /** The jti is recorded last, after the token resolved to a configured identity. */
  function AuthenticateActions(identities: seq<IdentityConfig>, token: Option<Claims>, seen: JtiReplay.Seen,
                               now: int, wall: int): Authenticated
  {
    if token.None? || !ValidJti(token.value.jti) then Authenticated(seen, Err(InvalidToken))
    else
      var claims := token.value;
      match ResolveActions(identities, claims)
      case None => Authenticated(seen, Err(ClaimsDenied))
      case Some(identity) =>
        var recorded := JtiReplay.Record(seen, claims.jti.value, claims.exp, now, wall);
        if recorded.result.Err? then Authenticated(recorded.seen, Err(ReplayRefused(recorded.result.error)))
        else
          Authenticated(recorded.seen,
                        Ok(Principal(identity.id, claims.jti,
                                     FromActions(claims.gitRef, claims.refType, ClaimIsTrue(claims.refProtected)))))
  }

  function AuthenticateSession(sessions: Sessions.Store, token: string, now: int): Result<Principal, AuthError> {
    if !StartsWith(token, SessionToken.SESSION_TOKEN_PREFIX) then Err(InvalidToken)
    else match Sessions.Lookup(sessions, Sessions.Sha256(token), now)
         case None => Err(InvalidToken)
         case Some(account) => Ok(Principal(account.identityId, None, FromAccount(account.userId, account.login)))
  }

  // ---- Authorization and the remaining checks ----

  /** `Authorizer::authorize` for the sign action. */
  predicate Authorized(policies: seq<PolicyConfig>, identityId: string, keyId: string) {
    exists p :: 0 <= p < |policies| && Grants(policies[p], identityId, keyId)
  }

  predicate Grants(policy: PolicyConfig, identityId: string, keyId: string) {
    policy.identity == identityId && Sign in policy.actions && ("*" in policy.keys || keyId in policy.keys)
  }

  /** `validate_signing_context`. */
  function CheckContext(source: Source): Option<ApiError> {
    if !source.FromActions? then None
    else if source.refType != "tag" then Some(TagRequired)
    else if !source.refProtected then Some(ProtectedRefRequired)
    else if !StartsWith(source.gitRef, "refs/tags/") then Some(TagRequired)
    else if |source.gitRef| == |"refs/tags/"| then Some(TagRequired)
    else None
  }

  /** What the two reads of the key slot see: one in `validate_signing_request`, one in `sign_digest`. */
  datatype Views = Views(check: Memory, checkPoisoned: seq<bool>, sign: Memory, signPoisoned: seq<bool>)

  /** `validate_signing_request`: the digest to sign. */
  function CheckRequest(policies: seq<PolicyConfig>, store: Store, views: Views, principal: Principal, keyId: string,
                        decoded: Option<seq<bv8>>): Result<seq<bv8>, ApiError>
  {
    if !ValidName(keyId) then Err(UnknownKey)
    else if !Authorized(policies, principal.identityId, keyId) then Err(PolicyDenied)
    else if keyId !in store.index || store.index[keyId] >= |store.keys| then Err(UnknownKey)
    else
      var k := store.index[keyId];
      if store.keys[k].state != Active then Err(KeyStateConflict)
      else if !SeesUnlocked(views.check, views.checkPoisoned, k) then Err(KeyLocked)
      else if decoded.None? || |decoded.value| != 32 then Err(InvalidDigest)
      else match CheckContext(principal.source)
           case Some(error) => Err(error)
           case None => Ok(decoded.value)
  }

  datatype Signature = Signature(material: Material, digest: seq<bv8>)

  datatype Handled = Handled(seen: JtiReplay.Seen, result: Result<Signature, ApiError>)

  /** `create_signature`; `signs` is false when the signing primitive itself fails. */
  function CreateSignature(c: Config, store: Store, views: Views, sessions: Sessions.Store, seen: JtiReplay.Seen,
                           req: Request, now: int, wall: int, signs: bool): Handled
  {
    if !req.json then Handled(seen, Err(UnsupportedContentType))
    else
      var auth := match req.credential
        case ActionsToken(claims) => AuthenticateActions(c.identities, claims, seen, now, wall)
        case SessionCredential(token) => Authenticated(seen, AuthenticateSession(sessions, token, now));
      match auth.result
      case Err(error) => Handled(auth.seen, Err(AuthenticationFailed(error)))
      case Ok(principal) => Handled(auth.seen, SignAs(c, store, views, principal, req, signs))
  }

  /** The part of `create_signature` after authentication. */
  function SignAs(c: Config, store: Store, views: Views, principal: Principal, req: Request, signs: bool):
    Result<Signature, ApiError>
  {
    if req.body.Malformed? then Err(MalformedJson)
    else match CheckRequest(c.policies, store, views, principal, req.keyId, req.body.decoded)
         case Err(error) => Err(error)
         case Ok(digest) =>
           if req.keyId !in store.index then Err(UnknownKey)
           else
             var k := store.index[req.keyId];
             if IsPoisoned(views.signPoisoned, k) then Err(SigningFailed)
             else if !SlotFull(views.sign, k) then Err(LockedWhileSigning)
             else if !signs then Err(SigningFailed)
             else Ok(Signature(views.sign.slots[k].value, digest))
  }

  // ---- Provenance ----

  /** The service as it runs: a validated configuration and the store loaded from it. */
  ghost predicate Deployed(c: Config, store: Store) {
    ValidConfig(c) && LoadedFrom(c, store)
  }

  /** The key part of a signature's provenance: an existing, active key that was unlocked at both reads. */
  lemma SignedWithActiveKey(c: Config, store: Store, views: Views, principal: Principal, req: Request, signs: bool)
    returns (k: nat, p: nat)
    requires Deployed(c, store) && SignAs(c, store, views, principal, req, signs).Ok?
    ensures k < |c.keys| && c.keys[k].id == req.keyId && c.keys[k].state == Active && store.index[req.keyId] == k
    ensures SeesUnlocked(views.check, views.checkPoisoned, k) && SlotFull(views.sign, k)
    ensures SignAs(c, store, views, principal, req, signs).value.material == views.sign.slots[k].value
    ensures req.body.DigestField?
            && req.body.decoded == Some(SignAs(c, store, views, principal, req, signs).value.digest)
            && |SignAs(c, store, views, principal, req, signs).value.digest| == 32
    ensures p < |c.policies| && Grants(c.policies[p], principal.identityId, req.keyId)
    ensures CheckContext(principal.source).None?
  {
    k := store.index[req.keyId];
    assert KeyIds(c.keys)[k] == req.keyId;
    p :| 0 <= p < |c.policies| && Grants(c.policies[p], principal.identityId, req.keyId);
  }

  /** A sign policy of a validated configuration that names an Actions identity binds its claims. */
  lemma SignPolicyConstrains(c: Config, identity: IdentityConfig, p: nat, keyId: string)
    requires ValidConfig(c) && identity in c.identities && identity.kind == GithubActions
    requires p < |c.policies| && Grants(c.policies[p], identity.id, keyId)
    ensures MaySign(identity) && ValidConstraints(identity)
    ensures identity.workflowPath.Some? && ".github/workflows/" <= identity.workflowPath.value
            && !ContainsDotDot(identity.workflowPath.value)
    ensures identity.requiredEnvironment.Some?
            && exists i :: 0 <= i < |identity.requiredEnvironment.value|
                           && !IsWhitespace(identity.requiredEnvironment.value[i])
    ensures identity.allowedEventNames.Some? && identity.allowedEventNames.value != []
    ensures identity.allowedRefTypes.Some? ==>
              identity.allowedRefTypes.value != [] && forall t :: t in identity.allowedRefTypes.value ==> t == "tag"
    ensures identity.allowedWorkflowShas.Some? ==>
              && identity.allowedWorkflowShas.value != []
              && forall sha :: sha in identity.allowedWorkflowShas.value ==> |sha| == 40 || |sha| == 64
  {
  }

  /** A policy grants a key by naming the identity and the sign action, and the key or every key. */
  lemma GrantsMeans(policy: PolicyConfig, identityId: string, keyId: string)
    ensures Grants(policy, identityId, keyId) <==> Covers(policy, identityId, keyId)
  {
  }

  ghost predicate Covers(policy: PolicyConfig, identityId: string, keyId: string) {
    && policy.identity == identityId
    && (exists a :: 0 <= a < |policy.actions| && policy.actions[a] == Sign)
    && exists k :: 0 <= k < |policy.keys| && (policy.keys[k] == "*" || policy.keys[k] == keyId)
  }

  /**
   * Every signature issued to a GitHub Actions token of a validated deployment, in the fields of the
   * configuration and the claims: exactly one configured identity is met by the verified claims; it
   * names a workflow path and an environment and the claims carry both; repository, event, ref type,
   * runner and commit are what it allows; the ref is a protected, named tag; a policy grants this
   * identity the sign action on this key; and the key exists, is active and was unlocked.
   */
  lemma ActionsSignatureProvenance(c: Config, store: Store, views: Views, sessions: Sessions.Store,
                                   seen: JtiReplay.Seen, req: Request, now: int, wall: int, signs: bool)
    returns (claims: Claims, identity: IdentityConfig, k: nat, p: nat)
    requires Deployed(c, store) && req.credential.ActionsToken?
    requires CreateSignature(c, store, views, sessions, seen, req, now, wall, signs).result.Ok?
    ensures req.credential.claims == Some(claims)
    ensures Matching(c.identities, claims) == [identity] && identity in c.identities && identity.kind == GithubActions
    ensures identity.repositoryId == Some(claims.repositoryId)
    ensures identity.repository.Some? ==> EqIgnoreAsciiCase(identity.repository.value, claims.repository)
    ensures identity.workflowPath.Some? && ".github/workflows/" <= identity.workflowPath.value
            && claims.workflowRef == claims.repository + "/" + identity.workflowPath.value + "@" + claims.gitRef
    ensures identity.requiredEnvironment.Some? && claims.environment == identity.requiredEnvironment
            && !Blank(identity.requiredEnvironment.value)
    ensures identity.allowedEventNames.Some? && claims.eventName in identity.allowedEventNames.value
    ensures identity.allowedRefTypes.Some? ==> claims.refType in identity.allowedRefTypes.value
    ensures identity.requiredRunnerEnvironment.Some? ==> claims.runnerEnvironment == identity.requiredRunnerEnvironment
    ensures identity.allowedWorkflowShas.Some? ==>
              && claims.workflowSha.Some?
              && exists sha :: sha in identity.allowedWorkflowShas.value
                               && EqIgnoreAsciiCase(sha, claims.workflowSha.value)
    ensures claims.refType == "tag" && claims.refProtected in {Some(JsonBool(true)), Some(JsonString("true"))}
            && "refs/tags/" <= claims.gitRef && |claims.gitRef| > |"refs/tags/"|
    ensures p < |c.policies| && Covers(c.policies[p], identity.id, req.keyId)
    ensures k < |c.keys| && c.keys[k].id == req.keyId && c.keys[k].state == Active
    ensures SeesUnlocked(views.check, views.checkPoisoned, k) && SlotFull(views.sign, k)
    ensures claims.jti.Some? && 0 < |claims.jti.value| && Utf8Length(claims.jti.value) <= 256
    ensures JtiReplay.Record(seen, claims.jti.value, claims.exp, now, wall).result.Ok?
  {
    claims := req.credential.claims.value;
    identity := ResolveActions(c.identities, claims).value;
    ResolvesTheOnlyMatch(c.identities, claims);
    assert Matching(c.identities, claims) == [identity];
    var principal := AuthenticateActions(c.identities, Some(claims), seen, now, wall).result.value;
    k, p := SignedWithActiveKey(c, store, views, principal, req, signs);
    assert identity in c.identities && Meets(identity, claims) by { MatchesActionsMeans(identity, claims); }
    SignPolicyConstrains(c, identity, p, req.keyId);
    ClaimIsTrueMeans(claims.refProtected);
    GrantsMeans(c.policies[p], identity.id, req.keyId);
  }

  /** A session signature of a validated deployment: the session is live, and a policy grants its identity the key. */
  lemma SessionSignatureProvenance(c: Config, store: Store, views: Views, sessions: Sessions.Store,
                                   seen: JtiReplay.Seen, req: Request, now: int, wall: int, signs: bool)
    returns (account: Sessions.Account, k: nat, p: nat)
    requires Deployed(c, store) && req.credential.SessionCredential?
    requires CreateSignature(c, store, views, sessions, seen, req, now, wall, signs).result.Ok?
    ensures Sessions.Lookup(sessions, Sessions.Sha256(req.credential.token), now) == Some(account)
    ensures p < |c.policies| && Covers(c.policies[p], account.identityId, req.keyId)
    ensures k < |c.keys| && c.keys[k].id == req.keyId && c.keys[k].state == Active
    ensures SeesUnlocked(views.check, views.checkPoisoned, k) && SlotFull(views.sign, k)
    ensures CreateSignature(c, store, views, sessions, seen, req, now, wall, signs).seen == seen
  {
    account := Sessions.Lookup(sessions, Sessions.Sha256(req.credential.token), now).value;
    var principal := AuthenticateSession(sessions, req.credential.token, now).value;
    k, p := SignedWithActiveKey(c, store, views, principal, req, signs);
    GrantsMeans(c.policies[p], account.identityId, req.keyId);
  }

  /**
   * The same signature traced to its login: at whatever moment of whatever run of the device-token
   * exchange the session is looked up, one exchange began with a token under the replay guard, GitHub
   * named this application and a scope that shows the profile, gave the profile of a configured account
   * with two-factor authentication, and answered the revocation with 204 or 404; then the token was
   * recorded as used and the session minted, not yet expired; and a policy grants that account's
   * identity this key.
   */
  lemma SessionSignatureTracedToLogin(c: Config, store: Store, views: Views, w: DeviceExchange.World,
                                      states: seq<DeviceExchange.State>, events: seq<DeviceExchange.Event>, i: nat,
                                      seen: JtiReplay.Seen, req: Request, now: int, wall: int, signs: bool)
    returns (e: nat, ns: seq<nat>, scopes: seq<string>, user: DeviceExchange.User, identity: IdentityConfig, p: nat)
    requires Deployed(c, store) && req.credential.SessionCredential? && w.identities == c.identities
    requires DeviceExchange.IsRun(w, states, events) && i < |states|
    requires CreateSignature(c, store, views, states[i].sessions, seen, req, now, wall, signs).result.Ok?
    ensures e in w.tokens && |ns| == 6 && ns[0] < ns[1] < ns[2] < ns[3] < ns[4] < ns[5] < i <= |events|
    ensures events[ns[0]].Begin? && events[ns[0]].e == e
    ensures events[ns[1]] == DeviceExchange.CheckAnswered(e, DeviceExchange.TokenInfo(w.clientId, scopes))
            && ("read:user" in scopes || "user" in scopes)
    ensures events[ns[2]] == DeviceExchange.UserAnswered(e, DeviceExchange.Profile(user))
    ensures user.twoFactor == Some(true)
    ensures identity in c.identities && ExchangeEvents.IsAccount(identity, user)
    ensures events[ns[3]].RevokeAnswered? && events[ns[3]].e == e
            && (events[ns[3]].revoke == DeviceExchange.RevokeStatus(204)
                || events[ns[3]].revoke == DeviceExchange.RevokeStatus(404))
    ensures events[ns[4]].Consume? && events[ns[4]].e == e
    ensures events[ns[5]].Mint? && events[ns[5]].e == e && events[ns[5]].token == req.credential.token
            && events[ns[5]].now + w.ttl > now
    ensures p < |c.policies| && Covers(c.policies[p], identity.id, req.keyId)
  {
    var key := Sessions.Sha256(req.credential.token);
    var account, k, q := SessionSignatureProvenance(c, store, views, states[i].sessions, seen, req, now, wall, signs);
    p := q;
    e, ns, scopes, user, identity := ExchangeEvents.SessionFromEvents(w, states, events, i, key);
  }

  /**
   * When the two reads happen at two moments of one run of the key store, in order, the second never
   * finds the key locked.
   */
  lemma SignatureNeverLockedBetweenReads(c: Config, w: World, states: seq<State>, events: seq<Event>, i: nat, j: nat,
                                         principal: Principal, req: Request, signs: bool)
    requires WorldOk(w) && IsRun(w, states, events) && i <= j < |states|
    ensures SignAs(c, w.store, Views(states[i].mem, states[i].poisoned, states[j].mem, states[j].poisoned),
                   principal, req, signs) != Err(LockedWhileSigning)
  {
    if req.body.DigestField? && req.keyId in w.store.index {
      var k := w.store.index[req.keyId];
      if SlotFull(states[i].mem, k) {
        WrittenOnce(w, states, events, i, j, k);
      }
    }
  }

  /**
   * And a signature issued between two such moments is over the requested digest with the secret that
   * some unlock call's passphrase opened the requested key's own file to, under its own algorithm.
   */
  lemma SignatureUsesTheKeyFile(c: Config, w: World, states: seq<State>, events: seq<Event>, i: nat, j: nat,
                                principal: Principal, req: Request, signs: bool)
    returns (k: nat, t: nat)
    requires WorldOk(w) && IsRun(w, states, events) && i <= j < |states| && Deployed(c, w.store)
    requires SignAs(c, w.store, Views(states[i].mem, states[i].poisoned, states[j].mem, states[j].poisoned),
                    principal, req, signs).Ok?
    ensures k < |c.keys| && c.keys[k].id == req.keyId && c.keys[k].state == Active
    ensures var signature := SignAs(c, w.store,
                                    Views(states[i].mem, states[i].poisoned, states[j].mem, states[j].poisoned),
                                    principal, req, signs).value;
            && req.body == DigestField(Some(signature.digest)) && |signature.digest| == 32
            && OpensTo(w, k, t, signature.material) && AlgorithmOf(signature.material) == c.keys[k].algorithm
  {
    var views := Views(states[i].mem, states[i].poisoned, states[j].mem, states[j].poisoned);
    var p: nat;
    k, p := SignedWithActiveKey(c, w.store, views, principal, req, signs);
    SlotContents(w, states, events, j, k);
    t :| InstalledBy(states[j].mem, k, t) && OpensTo(w, k, t, states[j].mem.slots[k].value);
  }

  // ---- Exactly when a signature is issued ----

  /** In terms of the configuration: the requested key is active, unlocked at both reads, and its lock usable. */
  ghost predicate KeyReady(c: Config, views: Views, keyId: string) {
    exists k :: 0 <= k < |c.keys| && c.keys[k].id == keyId && c.keys[k].state == Active
                && Usable(views.check, views.checkPoisoned, k) && Usable(views.sign, views.signPoisoned, k)
  }

  /** The slot is full and its lock is not poisoned. */
  ghost predicate Usable(mem: Memory, poisoned: seq<bool>, k: nat) {
    k < |mem.slots| && mem.slots[k].Some? && !(k < |poisoned| && poisoned[k])
  }

  ghost predicate SignsFor(c: Config, views: Views, identityId: string, req: Request, signs: bool) {
    && (exists p :: 0 <= p < |c.policies| && Covers(c.policies[p], identityId, req.keyId))
    && KeyReady(c, views, req.keyId)
    && req.body.DigestField? && req.body.decoded.Some? && |req.body.decoded.value| == 32
    && signs
  }

  lemma SignedMeetsAll(c: Config, store: Store, views: Views, principal: Principal, req: Request, signs: bool)
    requires Deployed(c, store) && SignAs(c, store, views, principal, req, signs).Ok?
    ensures SignsFor(c, views, principal.identityId, req, signs) && CheckContext(principal.source).None?
  {
    var k, p := SignedWithActiveKey(c, store, views, principal, req, signs);
    GrantsMeans(c.policies[p], principal.identityId, req.keyId);
    assert Usable(views.check, views.checkPoisoned, k) && Usable(views.sign, views.signPoisoned, k);
  }

  /** With policy, key and digest in place the context decides. */
  lemma ContextDecides(c: Config, store: Store, views: Views, principal: Principal, req: Request, signs: bool)
    requires Deployed(c, store) && SignsFor(c, views, principal.identityId, req, true)
    ensures match CheckContext(principal.source)
            case None =>
              var r := SignAs(c, store, views, principal, req, signs);
              if signs then r.Ok? else r == Err(SigningFailed)
            case Some(error) => SignAs(c, store, views, principal, req, signs) == Err(error)
  {
    var p :| 0 <= p < |c.policies| && Covers(c.policies[p], principal.identityId, req.keyId);
    GrantsMeans(c.policies[p], principal.identityId, req.keyId);
    var k :| 0 <= k < |c.keys| && c.keys[k].id == req.keyId && c.keys[k].state == Active
             && Usable(views.check, views.checkPoisoned, k) && Usable(views.sign, views.signPoisoned, k);
    assert KeyIds(c.keys)[k] == req.keyId;
    assert store.index[req.keyId] == k;
  }

  /** Past authentication, the request is served exactly when policy, key, digest and context allow it. */
  lemma SignsIff(c: Config, store: Store, views: Views, principal: Principal, req: Request, signs: bool)
    requires Deployed(c, store)
    ensures SignAs(c, store, views, principal, req, signs).Ok?
       <==> SignsFor(c, views, principal.identityId, req, signs) && CheckContext(principal.source).None?
  {
    if SignAs(c, store, views, principal, req, signs).Ok? {
      SignedMeetsAll(c, store, views, principal, req, signs);
    } else if SignsFor(c, views, principal.identityId, req, signs) && CheckContext(principal.source).None? {
      ContextDecides(c, store, views, principal, req, signs);
    }
  }

  /** A GitHub Actions token gets a signature exactly when all of this holds; the order of the checks is invisible. */
  lemma ActionsSignatureIff(c: Config, store: Store, views: Views, sessions: Sessions.Store, seen: JtiReplay.Seen,
                            req: Request, claims: Claims, now: int, wall: int, signs: bool)
    requires Deployed(c, store) && req.credential == ActionsToken(Some(claims))
    ensures CreateSignature(c, store, views, sessions, seen, req, now, wall, signs).result.Ok?
       <==> && req.json
            && claims.jti.Some? && 0 < |claims.jti.value| && Utf8Length(claims.jti.value) <= 256
            && JtiReplay.Record(seen, claims.jti.value, claims.exp, now, wall).result.Ok?
            && (exists i :: OnlyMet(c.identities, claims, i) && SignsFor(c, views, c.identities[i].id, req, signs))
            && claims.refType == "tag" && "refs/tags/" < claims.gitRef
            && claims.refProtected in {Some(JsonBool(true)), Some(JsonString("true"))}
  {
    ClaimIsTrueMeans(claims.refProtected);
    ResolutionInFields(c.identities, claims);
    var auth := AuthenticateActions(c.identities, Some(claims), seen, now, wall);
    if auth.result.Ok? {
      SignsIff(c, store, views, auth.result.value, req, signs);
    }
  }

  /**
   * A token whose request passes everything but the last two context checks is answered that its ref
   * is not protected for exactly the other values of that claim.
   */
  lemma UnprotectedRefIsRefused(c: Config, store: Store, views: Views, sessions: Sessions.Store, seen: JtiReplay.Seen,
                                req: Request, claims: Claims, i: int, now: int, wall: int, signs: bool)
    requires Deployed(c, store) && req.credential == ActionsToken(Some(claims)) && req.json
    requires claims.jti.Some? && 0 < |claims.jti.value| && Utf8Length(claims.jti.value) <= 256
    requires JtiReplay.Record(seen, claims.jti.value, claims.exp, now, wall).result.Ok?
    requires OnlyMet(c.identities, claims, i) && SignsFor(c, views, c.identities[i].id, req, true)
    requires claims.refType == "tag"
    ensures CreateSignature(c, store, views, sessions, seen, req, now, wall, signs).result == Err(ProtectedRefRequired)
       <==> claims.refProtected !in {Some(JsonBool(true)), Some(JsonString("true"))}
  {
    ClaimIsTrueMeans(claims.refProtected);
    ResolutionInFields(c.identities, claims);
    var source := FromActions(claims.gitRef, claims.refType, ClaimIsTrue(claims.refProtected));
    var principal := Principal(c.identities[i].id, claims.jti, source);
    assert AuthenticateActions(c.identities, Some(claims), seen, now, wall).result == Ok(principal);
    ContextDecides(c, store, views, principal, req, signs);
  }

  /** A session gets a signature exactly when it is live and policy, key and digest allow it. */
  lemma SessionSignatureIff(c: Config, store: Store, views: Views, sessions: Sessions.Store, seen: JtiReplay.Seen,
                            req: Request, token: string, now: int, wall: int, signs: bool)
    requires Deployed(c, store) && req.credential == SessionCredential(token)
    ensures CreateSignature(c, store, views, sessions, seen, req, now, wall, signs).result.Ok?
       <==> && req.json && SessionToken.SESSION_TOKEN_PREFIX <= token
            && Sessions.Lookup(sessions, Sessions.Sha256(token), now).Some?
            && SignsFor(c, views, Sessions.Lookup(sessions, Sessions.Sha256(token), now).value.identityId, req, signs)
  {
    var auth := AuthenticateSession(sessions, token, now);
    if auth.Ok? {
      SignsIff(c, store, views, auth.value, req, signs);
    }
  }

  // ---- Every refusal, in its own case ----

  /** A `validate_signing_context` refusal of an Actions principal, in the claims. */
  ghost function ContextRefusal(source: Source): Option<ApiError> {
    match source
    case FromAccount(_, _) => None
    case FromActions(gitRef, refType, refProtected) =>
      if refType != "tag" then Some(TagRequired)
      else if !refProtected then Some(ProtectedRefRequired)
      else if exists tag :: tag != "" && gitRef == "refs/tags/" + tag then None
      else Some(TagRequired)
  }

  lemma ContextRefusalMeans(source: Source)
    ensures CheckContext(source) == ContextRefusal(source)
  {
    if source.FromActions? {
      var gitRef, under := source.gitRef, "refs/tags/";
      if under <= gitRef {
        assert gitRef == under + gitRef[|under|..];
      }
      assert forall tag :: gitRef == under + tag ==> under <= gitRef && |tag| == |gitRef| - |under|;
    }
  }

  /** The answer past authentication for a configured key `k`, check by check in their order. */
  lemma RefusalsAreExact(c: Config, store: Store, views: Views, principal: Principal, req: Request, k: nat, signs: bool)
    requires Deployed(c, store) && k < |c.keys| && c.keys[k].id == req.keyId
    ensures var result := SignAs(c, store, views, principal, req, signs);
            var covered := exists p :: 0 <= p < |c.policies| && Covers(c.policies[p], principal.identityId, req.keyId);
            if req.body == Malformed then result == Err(MalformedJson)
            else if !covered then result == Err(PolicyDenied)
            else if c.keys[k].state != Active then result == Err(KeyStateConflict)
            else if !Usable(views.check, views.checkPoisoned, k) then result == Err(KeyLocked)
            else if req.body.decoded == None || |req.body.decoded.value| != 32 then result == Err(InvalidDigest)
            else if ContextRefusal(principal.source).Some? then result == Err(ContextRefusal(principal.source).value)
            else if k < |views.signPoisoned| && views.signPoisoned[k] then result == Err(SigningFailed)
            else if !(k < |views.sign.slots| && views.sign.slots[k].Some?) then result == Err(LockedWhileSigning)
            else if !signs then result == Err(SigningFailed)
            else result == Ok(Signature(views.sign.slots[k].value, req.body.decoded.value))
  {
    assert KeyIds(c.keys)[k] == req.keyId && store.index[req.keyId] == k;
    forall p | 0 <= p < |c.policies|
      ensures Grants(c.policies[p], principal.identityId, req.keyId)
         <==> Covers(c.policies[p], principal.identityId, req.keyId)
    {
      GrantsMeans(c.policies[p], principal.identityId, req.keyId);
    }
    ContextRefusalMeans(principal.source);
  }

  /** And for a key that is not configured. */
  lemma UnknownKeyIsRefused(c: Config, store: Store, views: Views, principal: Principal, req: Request, signs: bool)
    requires Deployed(c, store) && forall k :: 0 <= k < |c.keys| ==> c.keys[k].id != req.keyId
    ensures var result := SignAs(c, store, views, principal, req, signs);
            if req.body == Malformed then result == Err(MalformedJson)
            else if ValidName(req.keyId)
                 && !exists p :: 0 <= p < |c.policies| && Covers(c.policies[p], principal.identityId, req.keyId)
            then result == Err(PolicyDenied)
            else result == Err(UnknownKey)
  {
    forall p | 0 <= p < |c.policies|
      ensures Grants(c.policies[p], principal.identityId, req.keyId)
         <==> Covers(c.policies[p], principal.identityId, req.keyId)
    {
      GrantsMeans(c.policies[p], principal.identityId, req.keyId);
    }
    assert forall id :: id in store.index ==> KeyIds(c.keys)[store.index[id]] == id;
  }

  /** An Actions token is unverified or without a usable jti, met by no or several identities, replayed, or good. */
  lemma AuthenticationIsExact(identities: seq<IdentityConfig>, token: Option<Claims>, seen: JtiReplay.Seen,
                              now: int, wall: int)
    ensures var auth := AuthenticateActions(identities, token, seen, now, wall);
            if token == None || token.value.jti == None || token.value.jti.value == ""
               || Utf8Length(token.value.jti.value) > 256
            then auth == Authenticated(seen, Err(InvalidToken))
            else if !exists i :: OnlyMet(identities, token.value, i)
            then auth == Authenticated(seen, Err(ClaimsDenied))
            else
              var recorded := JtiReplay.Record(seen, token.value.jti.value, token.value.exp, now, wall);
              && auth.seen == recorded.seen
              && (recorded.result.Err? ==> auth.result == Err(ReplayRefused(recorded.result.error)))
              && (recorded.result.Ok? ==>
                    && auth.result.Ok? && auth.result.value.jti == token.value.jti
                    && auth.result.value.source
                       == FromActions(token.value.gitRef, token.value.refType,
                                      token.value.refProtected in {Some(JsonBool(true)), Some(JsonString("true"))})
                    && exists i :: OnlyMet(identities, token.value, i)
                                   && auth.result.value.identityId == identities[i].id)
  {
    if token.Some? {
      ClaimIsTrueMeans(token.value.refProtected);
      ResolutionInFields(identities, token.value);
      var resolved := ResolveActions(identities, token.value);
      if i :| OnlyMet(identities, token.value, i) {
        assert resolved == Some(identities[i]);
      }
    }
  }

  /** A session is live under a token that carries the prefix. */
  ghost predicate LiveSession(sessions: Sessions.Store, token: string, now: int, account: Sessions.Account) {
    && SessionToken.SESSION_TOKEN_PREFIX <= token && Sessions.Sha256(token) in sessions
    && sessions[Sessions.Sha256(token)].value == account && now < sessions[Sessions.Sha256(token)].until
  }

  /**
   * A request under a session token goes on as the session's account exactly if the session is live, and
   * is an invalid token otherwise; one that is not JSON is told so first. The replay cache has no part.
   */
  lemma SessionAuthenticationIsExact(c: Config, store: Store, views: Views, sessions: Sessions.Store,
                                     seen: JtiReplay.Seen, req: Request, token: string, now: int, wall: int,
                                     signs: bool)
    ensures var handled := CreateSignature(c, store, views, sessions, seen, req, now, wall, signs);
            && (!req.json ==> handled == Handled(seen, Err(UnsupportedContentType)))
            && (forall account :: LiveSession(sessions, token, now, account) ==>
                  AuthenticateSession(sessions, token, now)
                  == Ok(Principal(account.identityId, None, FromAccount(account.userId, account.login))))
            && (req.json && req.credential == SessionCredential(token) ==>
                  && (!(exists account :: LiveSession(sessions, token, now, account)) ==>
                        handled == Handled(seen, Err(AuthenticationFailed(InvalidToken))))
                  && (forall account :: LiveSession(sessions, token, now, account) ==>
                        handled == Handled(seen,
                                           SignAs(c, store, views,
                                                  Principal(account.identityId, None,
                                                            FromAccount(account.userId, account.login)), req, signs))))
  {
    if req.json && req.credential == SessionCredential(token) && SessionToken.SESSION_TOKEN_PREFIX <= token
       && Sessions.Sha256(token) in sessions {
      var entry := sessions[Sessions.Sha256(token)];
      assert entry.until > now ==> LiveSession(sessions, token, now, entry.value);
    }
  }

  // ---- One signature per token ----

  /** A handled request with the clock readings it took and the time it held the replay-cache lock. */
  datatype Step = Step(req: Request, views: Views, sessions: Sessions.Store, now: int, wall: int, at: int, signs: bool)

  /** The replay cache after handling requests in the order of their replay-cache locks. */
  ghost function SeenAfter(c: Config, store: Store, steps: seq<Step>): JtiReplay.Seen {
    if steps == [] then map[]
    else Handle(c, store, SeenAfter(c, store, steps[..|steps| - 1]), steps[|steps| - 1]).seen
  }

  ghost function Handle(c: Config, store: Store, seen: JtiReplay.Seen, step: Step): Handled {
    CreateSignature(c, store, step.views, step.sessions, seen, step.req, step.now, step.wall, step.signs)
  }

  ghost predicate SignedStep(c: Config, store: Store, steps: seq<Step>, i: nat)
    requires i < |steps|
  {
    Handle(c, store, SeenAfter(c, store, steps[..i]), steps[i]).result.Ok?
  }

  /** The call of `record_jti` a request makes, if it gets that far. */
  ghost function AttemptOf(c: Config, step: Step): seq<JtiReplay.Attempt> {
    if step.req.json && step.req.credential.ActionsToken? && step.req.credential.claims.Some?
       && ValidJti(step.req.credential.claims.value.jti)
       && ResolveActions(c.identities, step.req.credential.claims.value).Some?
    then
      var claims := step.req.credential.claims.value;
      [JtiReplay.Attempt(claims.jti.value, claims.exp, step.now, step.wall, step.at)]
    else []
  }

  ghost function Attempts(c: Config, steps: seq<Step>): seq<JtiReplay.Attempt> {
    if steps == [] then [] else Attempts(c, steps[..|steps| - 1]) + AttemptOf(c, steps[|steps| - 1])
  }

  ghost predicate TimedSteps(steps: seq<Step>) {
    && (forall i :: 0 <= i < |steps| ==> steps[i].now <= steps[i].at)
    && (forall i, j :: 0 <= i < j < |steps| ==> steps[i].at <= steps[j].at)
  }

  lemma {:induction false} AttemptsAreTimed(c: Config, steps: seq<Step>, at: int)
    requires TimedSteps(steps) && (steps != [] ==> steps[|steps| - 1].at <= at)
    ensures JtiReplay.Timed(Attempts(c, steps))
    ensures forall i :: 0 <= i < |Attempts(c, steps)| ==> Attempts(c, steps)[i].at <= at
  {
    if steps != [] {
      AttemptsAreTimed(c, steps[..|steps| - 1], steps[|steps| - 1].at);
    }
  }

  /** A request touches the replay cache only through its call of `record_jti`. */
  lemma HandleTouchesSeen(c: Config, store: Store, seen: JtiReplay.Seen, step: Step)
    ensures var attempt, seen' := AttemptOf(c, step), Handle(c, store, seen, step).seen;
            && |attempt| <= 1
            && (attempt == [] ==> seen' == seen)
            && (attempt != [] ==> var a := attempt[0];
                seen' == JtiReplay.Record(seen, a.jti, a.exp, a.now, a.wall).seen)
  {
  }

  lemma {:induction false} SeenFollowsAttempts(c: Config, store: Store, steps: seq<Step>)
    ensures SeenAfter(c, store, steps) == JtiReplay.After(Attempts(c, steps))
  {
    if steps != [] {
      var init, last := steps[..|steps| - 1], steps[|steps| - 1];
      SeenFollowsAttempts(c, store, init);
      HandleTouchesSeen(c, store, SeenAfter(c, store, init), last);
      var before, attempt := Attempts(c, init), AttemptOf(c, last);
      if attempt != [] {
        JtiReplay.AfterStep(before, attempt[0]);
        assert [attempt[0]] == attempt;
      } else {
        assert before + attempt == before;
      }
    }
  }

  lemma {:induction false} AttemptsExtend(c: Config, steps: seq<Step>, i: nat)
    requires i <= |steps|
    ensures Attempts(c, steps[..i]) <= Attempts(c, steps)
    decreases |steps|
  {
    if i < |steps| {
      assert steps[..|steps| - 1][..i] == steps[..i];
      AttemptsExtend(c, steps[..|steps| - 1], i);
    } else {
      assert steps[..i] == steps;
    }
  }

  lemma LaterStepsAttemptLater(c: Config, steps: seq<Step>, i: nat, j: nat)
    requires i < j <= |steps|
    ensures |Attempts(c, steps[..i])| + |AttemptOf(c, steps[i])| <= |Attempts(c, steps[..j])|
  {
    assert steps[..j][..i + 1] == steps[..i + 1] && steps[..i + 1][..i] == steps[..i];
    AttemptsExtend(c, steps[..j], i + 1);
  }

  /** A signed Actions request called `record_jti`, and the call was accepted. */
  lemma SignedStepWasAccepted(c: Config, store: Store, seen: JtiReplay.Seen, step: Step)
    requires step.req.credential.ActionsToken? && Handle(c, store, seen, step).result.Ok?
    ensures step.req.credential.claims.Some? && step.req.credential.claims.value.jti.Some?
    ensures var claims := step.req.credential.claims.value;
            && AttemptOf(c, step) == [JtiReplay.Attempt(claims.jti.value, claims.exp, step.now, step.wall, step.at)]
            && JtiReplay.Record(seen, claims.jti.value, claims.exp, step.now, step.wall).result.Ok?
  {
  }

  lemma AttemptPosition(c: Config, steps: seq<Step>, i: nat)
    requires i < |steps| && |AttemptOf(c, steps[i])| == 1
    ensures var n, all := |Attempts(c, steps[..i])|, Attempts(c, steps);
            n < |all| && all[..n] == Attempts(c, steps[..i]) && AttemptOf(c, steps[i]) == [all[n]]
  {
    var before, attempt, all := Attempts(c, steps[..i]), AttemptOf(c, steps[i]), Attempts(c, steps);
    assert steps[..i + 1][..i] == steps[..i];
    assert Attempts(c, steps[..i + 1]) == before + attempt;
    AttemptsExtend(c, steps, i + 1);
    assert all[|before|] == (before + attempt)[|before|] && all[..|before|] == before;
  }

  /** A signature for an Actions token consumes exactly one acceptance of its jti, its own. */
  lemma SignatureConsumesAcceptance(c: Config, store: Store, steps: seq<Step>, i: nat) returns (n: nat)
    requires i < |steps| && steps[i].req.credential.ActionsToken? && SignedStep(c, store, steps, i)
    ensures n == |Attempts(c, steps[..i])| < |Attempts(c, steps)|
    ensures AttemptOf(c, steps[i]) == [Attempts(c, steps)[n]]
    ensures steps[i].req.credential.claims.Some? && steps[i].req.credential.claims.value.jti.Some?
    ensures JtiReplay.ResultOf(Attempts(c, steps), n).Ok?
  {
    n := |Attempts(c, steps[..i])|;
    SignedStepWasAccepted(c, store, SeenAfter(c, store, steps[..i]), steps[i]);
    SeenFollowsAttempts(c, store, steps[..i]);
    AttemptPosition(c, steps, i);
  }

  lemma AcceptedStepsAreApart(c: Config, steps: seq<Step>, i: nat, j: nat, a: nat, b: nat, jti: string, exp: nat)
    requires TimedSteps(steps) && i < j < |steps|
    requires a == |Attempts(c, steps[..i])| < |Attempts(c, steps)|
             && b == |Attempts(c, steps[..j])| < |Attempts(c, steps)|
    requires AttemptOf(c, steps[i]) == [Attempts(c, steps)[a]]
    requires Attempts(c, steps)[a] == JtiReplay.Attempt(jti, exp, steps[i].now, steps[i].wall, steps[i].at)
    requires Attempts(c, steps)[b].jti == jti && Attempts(c, steps)[b].at == steps[j].at
    requires JtiReplay.ResultOf(Attempts(c, steps), a).Ok? && JtiReplay.ResultOf(Attempts(c, steps), b).Ok?
    ensures steps[j].at >= JtiReplay.Until(exp, steps[i].now, steps[i].wall)
  {
    LaterStepsAttemptLater(c, steps, i, j);
    AttemptsAreTimed(c, steps, steps[|steps| - 1].at);
    JtiReplay.AcceptancesAreApart(Attempts(c, steps), a, b);
  }

  /**
   * Two signatures for one jti: the second was committed no earlier than the first one's expiry in
   * the cache, however stale the clock readings were. With one clock for both readings that is the
   * first token's own expiry plus the leeway, and a wall clock read later takes off that much and no more.
   */
  lemma OneSignaturePerToken(c: Config, store: Store, steps: seq<Step>, i: nat, j: nat)
    requires TimedSteps(steps) && i < j < |steps|
    requires steps[i].req.credential.ActionsToken? && SignedStep(c, store, steps, i)
    requires steps[j].req.credential.ActionsToken? && SignedStep(c, store, steps, j)
    requires steps[i].req.credential.claims.Some? && steps[j].req.credential.claims.Some?
    requires steps[i].req.credential.claims.value.jti == steps[j].req.credential.claims.value.jti
    ensures var exp, now, wall := steps[i].req.credential.claims.value.exp, steps[i].now, steps[i].wall;
            && steps[j].at >= JtiReplay.Until(exp, now, wall)
            && (wall == now ==> steps[j].at >= exp + JtiReplay.JWT_LEEWAY_SECONDS)
            && (wall >= now ==> steps[j].at >= exp + JtiReplay.JWT_LEEWAY_SECONDS - (wall - now))
  {
    var a := SignatureConsumesAcceptance(c, store, steps, i);
    var b := SignatureConsumesAcceptance(c, store, steps, j);
    var claims := steps[i].req.credential.claims.value;
    AcceptedStepsAreApart(c, steps, i, j, a, b, claims.jti.value, claims.exp);
  }

  // ---- When exactly a token can get a second signature ----

  ghost predicate ActionsSigned(c: Config, store: Store, steps: seq<Step>, i: nat) {
    && i < |steps| && steps[i].req.credential.ActionsToken? && steps[i].req.credential.claims.Some?
    && SignedStep(c, store, steps, i)
  }

  /** `all` continues the run in time and ends with a second signature for the jti just signed for. */
  ghost predicate SignedAgain(c: Config, store: Store, steps: seq<Step>, all: seq<Step>)
    requires steps != [] && steps[|steps| - 1].req.credential.ActionsToken?
             && steps[|steps| - 1].req.credential.claims.Some?
  {
    && steps < all && TimedSteps(all) && ActionsSigned(c, store, all, |all| - 1)
    && all[|all| - 1].req.credential.claims.value.jti == steps[|steps| - 1].req.credential.claims.value.jti
  }

  ghost predicate CanBeSignedAgainBy(c: Config, store: Store, steps: seq<Step>, deadline: int)
    requires steps != [] && steps[|steps| - 1].req.credential.ActionsToken?
             && steps[|steps| - 1].req.credential.claims.Some?
  {
    exists all: seq<Step> :: SignedAgain(c, store, steps, all) && all[|all| - 1].at <= deadline
  }

  /** The same request presented again once its jti is forgotten is signed again. */
  lemma RepeatIsSigned(c: Config, store: Store, steps: seq<Step>, t: int)
    requires steps != [] && ActionsSigned(c, store, steps, |steps| - 1)
    requires var last := steps[|steps| - 1];
             JtiReplay.Until(last.req.credential.claims.value.exp, last.now, last.wall) <= t
    ensures Handle(c, store, SeenAfter(c, store, steps), steps[|steps| - 1].(now := t, wall := t, at := t)).result.Ok?
  {
    var n, last := |steps| - 1, steps[|steps| - 1];
    var claims := last.req.credential.claims.value;
    SignedStepWasAccepted(c, store, SeenAfter(c, store, steps[..n]), last);
    var before, attempt := Attempts(c, steps[..n]), AttemptOf(c, last);
    SeenFollowsAttempts(c, store, steps[..n]);
    SeenFollowsAttempts(c, store, steps);
    assert Attempts(c, steps) == before + attempt && (before + attempt)[..|before|] == before;
    assert JtiReplay.ResultOf(before + attempt, |before|).Ok?;
    JtiReplay.AcceptsAgain(before + attempt, claims.exp, t, t);
  }

  /**
   * Let `deadline` be the last moment at which the token is still accepted by whoever verifies it. The
   * token gets at most one signature over its whole life exactly when that moment is before the first
   * call's cache expiry or its lock time; otherwise some continuation signs for it again.
   */
  lemma SignedAgainByIff(c: Config, store: Store, steps: seq<Step>, deadline: int)
    requires TimedSteps(steps) && steps != [] && ActionsSigned(c, store, steps, |steps| - 1)
    ensures var last := steps[|steps| - 1];
            CanBeSignedAgainBy(c, store, steps, deadline) <==>
            JtiReplay.Until(last.req.credential.claims.value.exp, last.now, last.wall) <= deadline
                && last.at <= deadline
  {
    var last := steps[|steps| - 1];
    var until := JtiReplay.Until(last.req.credential.claims.value.exp, last.now, last.wall);
    if CanBeSignedAgainBy(c, store, steps, deadline) {
      var all: seq<Step> :| SignedAgain(c, store, steps, all) && all[|all| - 1].at <= deadline;
      SecondSignatureIsLater(c, store, steps, all);
    }
    if until <= deadline && last.at <= deadline {
      var t := if until > last.at then until else last.at;
      RepeatContinues(c, store, steps, t);
      var all := steps + [last.(now := t, wall := t, at := t)];
      assert SignedAgain(c, store, steps, all) && all[|all| - 1].at <= deadline;
    }
  }

  lemma SecondSignatureIsLater(c: Config, store: Store, steps: seq<Step>, all: seq<Step>)
    requires steps != [] && ActionsSigned(c, store, steps, |steps| - 1) && SignedAgain(c, store, steps, all)
    ensures var last, second := steps[|steps| - 1], all[|all| - 1];
            && second.at >= last.at
            && second.at >= JtiReplay.Until(last.req.credential.claims.value.exp, last.now, last.wall)
  {
    var i, j := |steps| - 1, |all| - 1;
    var first, second := steps[i], all[j];
    SignedStays(c, store, steps, all, i);
    SignedApart(c, store, all, i, j, first, second);
  }

  lemma SignedApart(c: Config, store: Store, steps: seq<Step>, i: nat, j: nat, first: Step, second: Step)
    requires TimedSteps(steps) && i < j && ActionsSigned(c, store, steps, i) && ActionsSigned(c, store, steps, j)
    requires first == steps[i] && second == steps[j]
    requires first.req.credential.claims.value.jti == second.req.credential.claims.value.jti
    ensures second.at >= first.at
    ensures second.at >= JtiReplay.Until(first.req.credential.claims.value.exp, first.now, first.wall)
  {
    OneSignaturePerToken(c, store, steps, i, j);
  }

  lemma SignedStays(c: Config, store: Store, steps: seq<Step>, all: seq<Step>, i: nat)
    requires ActionsSigned(c, store, steps, i) && steps <= all
    ensures ActionsSigned(c, store, all, i) && all[i] == steps[i]
  {
    assert all[..i] == steps[..i] && all[i] == steps[i];
  }

  lemma RepeatContinues(c: Config, store: Store, steps: seq<Step>, t: int)
    requires TimedSteps(steps) && steps != [] && ActionsSigned(c, store, steps, |steps| - 1)
    requires var last := steps[|steps| - 1];
             JtiReplay.Until(last.req.credential.claims.value.exp, last.now, last.wall) <= t && last.at <= t
    ensures SignedAgain(c, store, steps, steps + [steps[|steps| - 1].(now := t, wall := t, at := t)])
  {
    var again := steps[|steps| - 1].(now := t, wall := t, at := t);
    RepeatIsSigned(c, store, steps, t);
    TimedAppend(steps, again);
    var all := steps + [again];
    assert all[..|steps|] == steps && all[|steps|] == again;
  }

  lemma TimedAppend(steps: seq<Step>, s: Step)
    requires TimedSteps(steps) && s.now <= s.at && (steps != [] ==> steps[|steps| - 1].at <= s.at)
    ensures TimedSteps(steps + [s])
  {
  }

  /**
   * Two exact cases. Before exp plus 60 a second signature is possible only through the gap between
   * the two clock readings. At exp plus 60 itself, which a verifier with a non-strict 60-second leeway
   * still accepts, the cache has just let go: there a second signature is possible for every token
   * first used before it expired.
   */
  lemma SecondSignatureIff(c: Config, store: Store, steps: seq<Step>)
    requires TimedSteps(steps) && steps != [] && ActionsSigned(c, store, steps, |steps| - 1)
    ensures var last := steps[|steps| - 1];
            var exp, now, wall := last.req.credential.claims.value.exp, last.now, last.wall;
            && (CanBeSignedAgainBy(c, store, steps, exp + JtiReplay.JWT_LEEWAY_SECONDS - 1)
                <==> now < exp && now < wall && last.at < exp + JtiReplay.JWT_LEEWAY_SECONDS)
            && (CanBeSignedAgainBy(c, store, steps, exp + JtiReplay.JWT_LEEWAY_SECONDS)
                <==> now <= exp && now <= wall && last.at <= exp + JtiReplay.JWT_LEEWAY_SECONDS)
  {
    var exp := steps[|steps| - 1].req.credential.claims.value.exp;
    SignedAgainByIff(c, store, steps, exp + JtiReplay.JWT_LEEWAY_SECONDS - 1);
    SignedAgainByIff(c, store, steps, exp + JtiReplay.JWT_LEEWAY_SECONDS);
  }
}
