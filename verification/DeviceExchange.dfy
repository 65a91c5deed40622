/**
 * Exchanging GitHub device-flow tokens for signer sessions. Any number of exchanges interleave; each
 * access to shared state is one step, each call to GitHub may answer anything or nothing, and an
 * exchange may be cancelled at any await, which drops its guard and its permit.
 */
module DeviceExchange {
  import opened Prelude
  import opened Text
  import opened Config
  import opened Identity
  import opened Expiring
  import opened Sessions
  import Limiter
  import SessionToken

  const MAX_USED_DEVICE_TOKENS := 65536
  const DEVICE_TOKEN_REPLAY_TTL := 3600

  datatype FlowError =
    | TokenValidationFailed | TokenReplayed | ReplayCacheUnavailable | ScopeNotGranted
    | IdentityProviderUnavailable | TokenRevocationFailed | ClaimsDenied | TwoFactorRequired | SessionCapacity

  // ---- The replay record under its mutex ----

  type Used = map<Digest, Entry<()>>

  datatype Begun = Begun(inFlight: set<Digest>, used: Used, ok: bool)

  function BeginUse(inFlight: set<Digest>, used: Used, key: Digest, now: int): Begun {
    var kept := Retain(used, now);
    if key in kept || key in inFlight then Begun(inFlight, kept, false) else Begun(inFlight + {key}, kept, true)
  }

  datatype Marked = Marked(used: Used, ok: bool)

  function MarkConsumed(used: Used, key: Digest, now: int): Marked {
    var kept := Retain(used, now);
    if |kept| >= MAX_USED_DEVICE_TOKENS && key !in kept then Marked(kept, false)
    else Marked(kept[key := Entry(now + DEVICE_TOKEN_REPLAY_TTL, ())], true)
  }

  class DeviceTokenReplay {
    var inFlight: set<Digest>
    var used: Used

    constructor ()
      ensures inFlight == {} && used == map[]
    {
      inFlight, used := {}, map[];
    }

    /** `begin_device_token_use`: `ok` hands out the use guard. */
    method Begin(key: Digest, now: int) returns (ok: bool)
      modifies this
      ensures Begun(inFlight, used, ok) == BeginUse(old(inFlight), old(used), key, now)
    {
      used := Retain(used, now);
      if key in used || key in inFlight {
        return false;
      }
      inFlight := inFlight + {key};
      return true;
    }

    /** `DeviceTokenUseGuard::mark_consumed`. */
    method Consume(key: Digest, now: int) returns (ok: bool)
      modifies this`used
      ensures Marked(used, ok) == MarkConsumed(old(used), key, now)
    {
      used := Retain(used, now);
      if |used| >= MAX_USED_DEVICE_TOKENS && key !in used {
        return false;
      }
      used := used[key := Entry(now + DEVICE_TOKEN_REPLAY_TTL, ())];
      return true;
    }

    /**
     * Dropping the guard: whether the token can be begun again is from now on up to the used record
     * alone, and nothing changes for any other token.
     */
    method Drop(key: Digest)
      modifies this`inFlight
      ensures forall now :: BeginUse(inFlight, used, key, now).ok <==> key !in Retain(used, now)
      ensures forall k, now :: k != key ==>
                BeginUse(inFlight, used, k, now).ok == BeginUse(old(inFlight), used, k, now).ok
      ensures inFlight == old(inFlight) - {key}
    {
      inFlight := inFlight - {key};
    }
  }

  /** The size check at the start of `complete_github_device_oauth`. */
  predicate FitsHeader(token: string) {
    token != [] && Utf8Length(token) <= SessionToken.MAX_BEARER_TOKEN_BYTES
  }

  // ---- GitHub's answers ----

  datatype CheckReply = CheckFailed | CheckStatus(code: nat) | TokenInfo(clientId: string, scopes: seq<string>)

  /** `check_github_oauth_token`: the granted scopes, if the token belongs to this OAuth application. */
  function Ownership(clientId: string, reply: CheckReply): Result<seq<string>, FlowError> {
    match reply
    case CheckFailed => Err(IdentityProviderUnavailable)
    case CheckStatus(code) => Err(if code == 404 then TokenValidationFailed else IdentityProviderUnavailable)
    case TokenInfo(id, scopes) => if id == clientId then Ok(scopes) else Err(TokenValidationFailed)
  }

  predicate GrantsReadUser(scopes: seq<string>) {
    "read:user" in scopes || "user" in scopes
  }

  datatype User = User(id: string, login: string, twoFactor: Option<bool>)

  datatype Resolved = Resolved(identityId: string, user: User)

  datatype UserReply = UserFailed | UserStatus(code: nat) | Profile(user: User)

  /** `github_account_from_token` after the scope check. */
  function AccountOf(identities: seq<IdentityConfig>, reply: UserReply): Result<Resolved, FlowError> {
    match reply
    case UserFailed => Err(IdentityProviderUnavailable)
    case UserStatus(code) => Err(if code == 401 then TokenValidationFailed else IdentityProviderUnavailable)
    case Profile(user) =>
      match FindAccount(identities, user.id, user.login)
      case None => Err(ClaimsDenied)
      case Some(identity) => if user.twoFactor != Some(true) then Err(TwoFactorRequired)
          else Ok(Resolved(identity.id, user))
  }

  datatype RevokeReply = RevokeFailed | RevokeStatus(code: nat)

  predicate IsRevoked(reply: RevokeReply) {
    reply == RevokeStatus(204) || reply == RevokeStatus(404)
  }

  // ---- Exchanges ----

  datatype End = Granted(token: string) | Failed(error: FlowError) | Refused | Cancelled

  datatype Pc =
    | Arrived
    | Admitted
    | Checking
    | Resolving
    | Revoking(outcome: Result<Resolved, FlowError>)
    | Consuming(outcome: Result<Resolved, FlowError>)
    | Minting(resolved: Resolved)
    | Dropping(end: End)
    | Leaving(end: End)
    | Ended(end: End)

  /** History of an exchange: what it has done, in order. */
  datatype Did =
    | Began
    | Owned(scopes: seq<string>)
    | Looked(outcome: Result<Resolved, FlowError>)
    | TriedRevoking(ok: bool)
    | Consumed(reading: int)
    | MintedSession(key: Digest, until: int)

  datatype Exchange = Exchange(pc: Pc, log: seq<Did>)

  datatype World = World(tokens: map<nat, string>, clientId: string, identities: seq<IdentityConfig>, ttl: int)

  /** `promises` and `origin` are history: consumptions made, and which exchange drew a session token. */
  datatype State = State(
    clock: int,
    permits: nat,
    inFlight: set<Digest>,
    used: Used,
    sessions: Store,
    exchanges: map<nat, Exchange>,
    promises: seq<Promise<Digest>>,
    origin: map<Digest, nat>)

  datatype Event =
    | Admit(e: nat, allowed: bool)
    | Reject(e: nat)
    | Begin(e: nat, now: int, at: int)
    | CheckAnswered(e: nat, check: CheckReply)
    | UserAnswered(e: nat, user: UserReply)
    | RevokeAnswered(e: nat, revoke: RevokeReply)
    | Consume(e: nat, now: int, at: int)
    | Mint(e: nat, token: string, now: int, at: int)
    | Cancel(e: nat)
    | DropGuard(e: nat)
    | Release(e: nat)

  function KeyOf(w: World, e: nat): Digest
    requires e in w.tokens
  {
    Sha256(w.tokens[e])
  }

  /** The exchange owns a use guard. */
  predicate HasGuard(pc: Pc) {
    pc.Checking? || pc.Resolving? || pc.Revoking? || pc.Consuming? || pc.Minting? || pc.Dropping?
  }

  /** The handler owns an admission permit. */
  predicate HasPermit(pc: Pc) {
    pc.Admitted? || HasGuard(pc) || pc.Leaving?
  }

  /** The exchange is suspended at an await. */
  predicate AtAwait(pc: Pc) {
    pc.Arrived? || pc.Checking? || pc.Resolving? || pc.Revoking? || pc.Minting?
  }

  ghost predicate Enabled(w: World, s: State, ev: Event) {
    && ev.e in w.tokens && ev.e in s.exchanges
    && var pc := s.exchanges[ev.e].pc;
       match ev
       case Admit(_, _) => pc.Arrived?
       case Reject(_) => pc.Admitted?
       case Begin(_, now, at) => pc.Admitted? && now <= at && s.clock <= at
       case CheckAnswered(_, _) => pc.Checking?
       case UserAnswered(_, _) => pc.Resolving?
       case RevokeAnswered(_, _) => pc.Revoking?
       case Consume(_, now, at) => pc.Consuming? && now <= at && s.clock <= at
       case Mint(_, token, now, at) => pc.Minting? && now <= at && s.clock <= at && Sha256(token) !in s.origin
       case Cancel(_) => AtAwait(pc)
       case DropGuard(_) => pc.Dropping?
       case Release(_) => pc.Leaving?
  }

  /** What the event makes of its own exchange. */
  function Moved(w: World, s: State, ev: Event): Exchange
    requires ev.e in w.tokens && ev.e in s.exchanges
  {
    var ex := s.exchanges[ev.e];
    match ev
    case Admit(_, allowed) => ex.(pc := if allowed && s.permits > 0 then Admitted else Ended(Refused))
    case Reject(_) => ex.(pc := Leaving(Refused))
    case Begin(e, now, _) =>
      if !FitsHeader(w.tokens[e])
      then ex.(pc := Leaving(Failed(TokenValidationFailed)))
      else if BeginUse(s.inFlight, s.used, KeyOf(w, e), now).ok then Exchange(Checking, ex.log + [Began])
      else ex.(pc := Leaving(Failed(TokenReplayed)))
    case CheckAnswered(_, reply) =>
      (match Ownership(w.clientId, reply)
       case Err(error) => ex.(pc := Dropping(Failed(error)))
       case Ok(scopes) =>
         if GrantsReadUser(scopes) then Exchange(Resolving, ex.log + [Owned(scopes)])
         else Exchange(Revoking(Err(ScopeNotGranted)), ex.log + [Owned(scopes), Looked(Err(ScopeNotGranted))]))
    case UserAnswered(_, reply) =>
      var outcome := AccountOf(w.identities, reply);
      Exchange(Revoking(outcome), ex.log + [Looked(outcome)])
    case RevokeAnswered(_, reply) =>
      if !ex.pc.Revoking? then ex
      else if IsRevoked(reply) then Exchange(Consuming(ex.pc.outcome), ex.log + [TriedRevoking(true)])
      else Exchange(Dropping(Failed(TokenRevocationFailed)), ex.log + [TriedRevoking(false)])
    case Consume(e, now, _) =>
      if !ex.pc.Consuming? then ex
      else if !MarkConsumed(s.used, KeyOf(w, e), now).ok then ex.(pc := Dropping(Failed(ReplayCacheUnavailable)))
      else (match ex.pc.outcome
            case Err(error) => Exchange(Dropping(Failed(error)), ex.log + [Consumed(now)])
            case Ok(resolved) => Exchange(Minting(resolved), ex.log + [Consumed(now)]))
    case Mint(_, token, now, _) =>
      if !ex.pc.Minting? then ex
      else if Sessions.Mint(s.sessions, Sha256(token), AccountFor(ex.pc.resolved), now, w.ttl).granted
      then Exchange(Dropping(Granted(token)), ex.log + [MintedSession(Sha256(token), now + w.ttl)])
      else ex.(pc := Dropping(Failed(SessionCapacity)))
    case Cancel(_) => ex.(pc := if ex.pc.Arrived? then Ended(Cancelled) else Dropping(Cancelled))
    case DropGuard(_) => if ex.pc.Dropping? then ex.(pc := Leaving(ex.pc.end)) else ex
    case Release(_) => if ex.pc.Leaving? then ex.(pc := Ended(ex.pc.end)) else ex
  }

  function AccountFor(resolved: Resolved): Account {
    Account(resolved.identityId, resolved.user.id, resolved.user.login)
  }

  ghost function Next(w: World, s: State, ev: Event): State
    requires Enabled(w, s, ev)
  {
    var e, ex := ev.e, Moved(w, s, ev);
    var key := KeyOf(w, e);
    var s1 := s.(exchanges := s.exchanges[e := ex]);
    match ev
    case Admit(_, _) => if ex.pc.Admitted? then s1.(permits := s.permits - 1) else s1
    case Release(_) => s1.(permits := s.permits + 1)
    case Begin(_, now, at) =>
      // An oversized token is refused before the replay record is consulted.
      if ex.pc == Leaving(Failed(TokenValidationFailed)) then s1.(clock := at)
      else
        var begun := BeginUse(s.inFlight, s.used, key, now);
        s1.(clock := at, inFlight := begun.inFlight, used := begun.used)
    case Consume(_, now, at) =>
      var marked := MarkConsumed(s.used, key, now);
      s1.(clock := at, used := marked.used,
          promises := if marked.ok then s.promises + [Promise(key, now + DEVICE_TOKEN_REPLAY_TTL)] else s.promises)
    case Mint(_, token, now, at) =>
      var minted := Sessions.Mint(s.sessions, Sha256(token), AccountFor(s.exchanges[e].pc.resolved), now, w.ttl);
      s1.(clock := at, sessions := minted.sessions,
          origin := s.origin[Sha256(token) := e])
    case DropGuard(_) => s1.(inFlight := s.inFlight - {key})
    case _ => s1
  }

  ghost predicate Init(w: World, s: State) {
    && s.permits == Limiter.DEVICE_EXCHANGE_MAX_CONCURRENT
    && s.inFlight == {} && s.used == map[] && s.sessions == map[] && s.promises == [] && s.origin == map[]
    && s.exchanges.Keys == w.tokens.Keys
    && forall e :: e in s.exchanges ==> s.exchanges[e] == Exchange(Arrived, [])
  }

  ghost predicate IsRun(w: World, states: seq<State>, events: seq<Event>) {
    && |states| == |events| + 1
    && Init(w, states[0])
    && forall i :: 0 <= i < |events| ==>
         Enabled(w, states[i], events[i]) && states[i + 1] == Next(w, states[i], events[i])
  }

  // ---- What holds of one exchange ----

  /** An account GitHub reported with two-factor authentication on, under a configured identity that matches it. */
  ghost predicate Proven(w: World, resolved: Resolved) {
    && resolved.user.twoFactor == Some(true)
    && exists identity :: identity in w.identities && identity.id == resolved.identityId
                          && MatchesAccount(identity, resolved.user.id, resolved.user.login)
  }

  /** An exchange does its work in one fixed order, each part on top of the parts before. */
  ghost predicate InOrder(w: World, log: seq<Did>) {
    && |log| <= 6
    && (|log| > 0 ==> log[0].Began?)
    && (|log| > 1 ==> log[1].Owned?)
    && (|log| > 2 ==>
          log[2].Looked? && (log[2].outcome.Ok? ==> GrantsReadUser(log[1].scopes) && Proven(w, log[2].outcome.value)))
    && (|log| > 3 ==> log[3].TriedRevoking?)
    && (|log| > 4 ==> log[4].Consumed? && log[3].ok)
    && (|log| > 5 ==> log[5].MintedSession? && log[2].outcome.Ok?)
  }

  ghost predicate EndOk(end: End, log: seq<Did>)
    requires |log| > 3 ==> log[3].TriedRevoking?
    requires |log| > 5 ==> log[5].MintedSession?
  {
    match end
    case Granted(token) => |log| == 6 && log[5].key == Sha256(token)
    case Failed(error) =>
      && |log| in {0, 1, 4, 5}
      && (|log| == 4 ==> (error == TokenRevocationFailed <==> !log[3].ok))
    case Refused => |log| == 0
    case Cancelled => |log| in {0, 1, 2, 3, 5}
  }

  ghost predicate ExchangeOk(w: World, ex: Exchange) {
    && InOrder(w, ex.log)
    && match ex.pc
       case Arrived => |ex.log| == 0
       case Admitted => |ex.log| == 0
       case Checking => |ex.log| == 1
       case Resolving => |ex.log| == 2 && GrantsReadUser(ex.log[1].scopes)
       case Revoking(outcome) => |ex.log| == 3 && ex.log[2].outcome == outcome
       case Consuming(outcome) => |ex.log| == 4 && ex.log[2].outcome == outcome && ex.log[3].ok
       case Minting(resolved) => |ex.log| == 5 && ex.log[2].outcome == Ok(resolved)
       case Dropping(end) => |ex.log| >= 1 && EndOk(end, ex.log)
       case Leaving(end) => EndOk(end, ex.log)
       case Ended(end) => EndOk(end, ex.log)
  }

  lemma AccountIsProven(w: World, reply: UserReply)
    ensures AccountOf(w.identities, reply).Ok? ==> Proven(w, AccountOf(w.identities, reply).value)
  {
  }

  lemma MovedIsOk(w: World, s: State, ev: Event)
    requires Enabled(w, s, ev) && ExchangeOk(w, s.exchanges[ev.e])
    ensures ExchangeOk(w, Moved(w, s, ev))
    ensures s.exchanges[ev.e].log <= Moved(w, s, ev).log
  {
    if ev.UserAnswered? {
      AccountIsProven(w, ev.user);
    } else if ev.DropGuard? || ev.Release? || ev.Cancel? || ev.Reject? || ev.Admit? {
      assert Moved(w, s, ev).log == s.exchanges[ev.e].log;
    } else {
      WorkIsOk(w, s, ev);
    }
  }

  /** The events by which an exchange does its own work. */
  lemma WorkIsOk(w: World, s: State, ev: Event)
    requires Enabled(w, s, ev) && ExchangeOk(w, s.exchanges[ev.e])
    requires ev.Begin? || ev.CheckAnswered? || ev.RevokeAnswered? || ev.Consume? || ev.Mint?
    ensures ExchangeOk(w, Moved(w, s, ev)) && s.exchanges[ev.e].log <= Moved(w, s, ev).log
  {
  }

  // ---- What holds of the shared state ----

  predicate Guarded(w: World, s: State, e: nat) {
    e in w.tokens && e in s.exchanges && HasGuard(s.exchanges[e].pc)
  }

  /** Guards of different exchanges are for different tokens, and `inFlight` is exactly the guarded tokens. */
  ghost predicate GuardsOk(w: World, s: State) {
    && (forall e, f :: Guarded(w, s, e) && Guarded(w, s, f) && e != f ==> KeyOf(w, e) != KeyOf(w, f))
    && (forall e :: Guarded(w, s, e) ==> KeyOf(w, e) in s.inFlight)
    && (forall key :: key in s.inFlight ==> exists e :: Guarded(w, s, e) && KeyOf(w, e) == key)
  }

  /** A guarded token that has not been consumed in this exchange is not in the used record at all. */
  ghost predicate UnusedOk(w: World, s: State) {
    forall e :: Guarded(w, s, e) && |s.exchanges[e].log| <= 4 ==> KeyOf(w, e) !in s.used
  }

  ghost predicate PromisesOk(w: World, s: State) {
    && Honoured(s.used, s.clock, s.promises)
    && forall e :: HasConsumed(w, s, e) ==> PromiseOf(w, s, e) in s.promises
  }

  /** Exchange `e` has recorded its token as used. */
  ghost predicate HasConsumed(w: World, s: State, e: nat) {
    e in w.tokens && e in s.exchanges && |s.exchanges[e].log| >= 5 && s.exchanges[e].log[4].Consumed?
  }

  ghost function PromiseOf(w: World, s: State, e: nat): Promise<Digest>
    requires HasConsumed(w, s, e)
  {
    Promise(KeyOf(w, e), s.exchanges[e].log[4].reading + DEVICE_TOKEN_REPLAY_TTL)
  }

  /** The session was minted by exchange `e`, as the last step of its complete log. */
  ghost predicate MintedBy(w: World, log: seq<Did>, key: Digest, entry: Entry<Account>) {
    && |log| == 6 && InOrder(w, log) && log[2].outcome.Ok?
    && log[5] == MintedSession(key, entry.until) && entry.value == AccountFor(log[2].outcome.value)
  }

  ghost predicate SessionsOk(w: World, s: State) {
    forall key :: key in s.sessions ==>
      key in s.origin && s.origin[key] in s.exchanges
          && MintedBy(w, s.exchanges[s.origin[key]].log, key, s.sessions[key])
  }

  ghost function Holders(s: State): set<nat> {
    set e | e in s.exchanges && HasPermit(s.exchanges[e].pc)
  }

  ghost predicate Inv(w: World, s: State) {
    && s.exchanges.Keys == w.tokens.Keys
    && (forall e :: e in s.exchanges ==> ExchangeOk(w, s.exchanges[e]))
    && GuardsOk(w, s)
    && UnusedOk(w, s)
    && PromisesOk(w, s)
    && SessionsOk(w, s)
    && s.permits + |Holders(s)| == Limiter.DEVICE_EXCHANGE_MAX_CONCURRENT
  }

  // ---- Every step keeps it ----

  /** How an event changes guards: not at all, or it takes or drops its own exchange's guard. */
  lemma GuardEffect(w: World, s: State, ev: Event)
    requires Enabled(w, s, ev)
    ensures var s', e := Next(w, s, ev), ev.e;
            && (forall f :: f != e ==> (Guarded(w, s', f) <==> Guarded(w, s, f)))
            && (|| (Guarded(w, s', e) == Guarded(w, s, e) && s'.inFlight == s.inFlight)
                || (!Guarded(w, s, e) && Guarded(w, s', e) && KeyOf(w, e) !in s.inFlight
                    && s'.inFlight == s.inFlight + {KeyOf(w, e)})
                || (Guarded(w, s, e) && !Guarded(w, s', e) && s'.inFlight == s.inFlight - {KeyOf(w, e)}))
  {
  }

  lemma GuardsKept(w: World, s: State, ev: Event)
    requires Enabled(w, s, ev) && GuardsOk(w, s)
    ensures GuardsOk(w, Next(w, s, ev))
  {
    var s', e := Next(w, s, ev), ev.e;
    GuardEffect(w, s, ev);
    forall x, y | Guarded(w, s', x) && Guarded(w, s', y) && x != y ensures KeyOf(w, x) != KeyOf(w, y) {
      assert x != e ==> Guarded(w, s, x);
      assert y != e ==> Guarded(w, s, y);
    }
    forall x | Guarded(w, s', x) ensures KeyOf(w, x) in s'.inFlight {
      assert x != e ==> Guarded(w, s, x);
    }
    forall key | key in s'.inFlight ensures exists x :: Guarded(w, s', x) && KeyOf(w, x) == key {
      if key in s.inFlight {
        var x :| Guarded(w, s, x) && KeyOf(w, x) == key;
        assert Guarded(w, s', x);
      } else {
        assert Guarded(w, s', e) && KeyOf(w, e) == key;
      }
    }
  }

  /** How an event changes permits: it takes or returns its own handler's permit, or leaves both alone. */
  lemma PermitEffect(w: World, s: State, ev: Event)
    requires Enabled(w, s, ev)
    ensures Next(w, s, ev).permits + (if HasPermit(Moved(w, s, ev).pc) then 1 else 0)
         == s.permits + (if HasPermit(s.exchanges[ev.e].pc) then 1 else 0)
  {
  }

  lemma PermitsKept(w: World, s: State, ev: Event)
    requires Enabled(w, s, ev) && s.permits + |Holders(s)| == Limiter.DEVICE_EXCHANGE_MAX_CONCURRENT
    ensures Next(w, s, ev).permits + |Holders(Next(w, s, ev))| == Limiter.DEVICE_EXCHANGE_MAX_CONCURRENT
  {
    PermitEffect(w, s, ev);
    PromisesGrow(w, s, ev);
    HoldersCount(s, Next(w, s, ev), ev.e);
  }

  lemma HoldersCount(s: State, s': State, e: nat)
    requires s'.exchanges.Keys == s.exchanges.Keys && e in s.exchanges
    requires forall f :: f in s.exchanges && f != e ==> s'.exchanges[f] == s.exchanges[f]
    ensures |Holders(s')| + (if HasPermit(s.exchanges[e].pc) then 1 else 0)
         == |Holders(s)| + (if HasPermit(s'.exchanges[e].pc) then 1 else 0)
  {
    forall f | f != e ensures f in Holders(s') <==> f in Holders(s) {
    }
    SetsApartByOne(Holders(s), Holders(s'), e);
  }

  lemma SetsApartByOne(a: set<nat>, b: set<nat>, e: nat)
    requires forall f :: f != e ==> (f in b <==> f in a)
    ensures |b| + (if e in a then 1 else 0) == |a| + (if e in b then 1 else 0)
  {
    assert a - {e} == b - {e};
    CountOne(a, e);
    CountOne(b, e);
  }

  /** Only purging and an exchange's own consumption touch the used record. */
  lemma UsedEffect(w: World, s: State, ev: Event)
    requires Enabled(w, s, ev)
    ensures var s', key := Next(w, s, ev), KeyOf(w, ev.e);
            && (forall k :: k != key && k in s'.used ==> k in s.used)
            && (key in s'.used && key !in s.used
                ==> ev.Consume? && |Moved(w, s, ev).log| == |s.exchanges[ev.e].log| + 1)
  {
  }

  lemma UnusedKept(w: World, s: State, ev: Event)
    requires Enabled(w, s, ev) && GuardsOk(w, s) && UnusedOk(w, s) && ExchangeOk(w, s.exchanges[ev.e])
    ensures UnusedOk(w, Next(w, s, ev))
  {
    var s' := Next(w, s, ev);
    forall x | Guarded(w, s', x) && |s'.exchanges[x].log| <= 4 ensures KeyOf(w, x) !in s'.used {
      if x != ev.e {
        UnusedElsewhere(w, s, ev, x);
      } else {
        UnusedHere(w, s, ev);
      }
    }
  }

  /** The event's own exchange: it holds its token unused until it consumes it itself. */
  lemma UnusedHere(w: World, s: State, ev: Event)
    requires Enabled(w, s, ev) && UnusedOk(w, s) && ExchangeOk(w, s.exchanges[ev.e])
    requires Guarded(w, Next(w, s, ev), ev.e) && |Next(w, s, ev).exchanges[ev.e].log| <= 4
    ensures KeyOf(w, ev.e) !in Next(w, s, ev).used
  {
    UsedEffect(w, s, ev);
    if Guarded(w, s, ev.e) {
      MovedIsOk(w, s, ev);
      assert KeyOf(w, ev.e) !in s.used;
    } else {
      assert ev.Begin?;
    }
  }

  /** Any other exchange: two exchanges for one token are never guarded at once. */
  lemma UnusedElsewhere(w: World, s: State, ev: Event, x: nat)
    requires Enabled(w, s, ev) && GuardsOk(w, s) && UnusedOk(w, s) && ExchangeOk(w, s.exchanges[ev.e])
    requires x != ev.e && Guarded(w, Next(w, s, ev), x) && |Next(w, s, ev).exchanges[x].log| <= 4
    ensures KeyOf(w, x) !in Next(w, s, ev).used
  {
    PromisesGrow(w, s, ev);
    assert x in s.exchanges && Guarded(w, s, x);
    UsedEffect(w, s, ev);
    if KeyOf(w, x) == KeyOf(w, ev.e) {
      assert !Guarded(w, s, ev.e);
    }
  }

  /** Only a successful `mark_consumed` puts the consumption into an exchange's log, with its promise. */
  lemma ConsumeEffect(w: World, s: State, ev: Event)
    requires Enabled(w, s, ev) && ExchangeOk(w, s.exchanges[ev.e])
    requires |s.exchanges[ev.e].log| < 5 <= |Moved(w, s, ev).log|
    ensures ev.Consume? && Moved(w, s, ev).log[4] == Consumed(ev.now)
    ensures Next(w, s, ev).promises == s.promises + [Promise(KeyOf(w, ev.e), ev.now + DEVICE_TOKEN_REPLAY_TTL)]
  {
  }

  lemma PromisesGrow(w: World, s: State, ev: Event)
    requires Enabled(w, s, ev)
    ensures s.promises <= Next(w, s, ev).promises
    ensures forall x :: x != ev.e && x in s.exchanges ==>
              x in Next(w, s, ev).exchanges && Next(w, s, ev).exchanges[x] == s.exchanges[x]
    ensures ev.e in Next(w, s, ev).exchanges && Next(w, s, ev).exchanges[ev.e] == Moved(w, s, ev)
    ensures Next(w, s, ev).exchanges.Keys == s.exchanges.Keys
  {
  }

  lemma PromisesKept(w: World, s: State, ev: Event)
    requires Enabled(w, s, ev) && PromisesOk(w, s) && ExchangeOk(w, s.exchanges[ev.e])
    requires s.exchanges.Keys == w.tokens.Keys
    ensures forall x :: HasConsumed(w, Next(w, s, ev), x) ==> PromiseOf(w, Next(w, s, ev), x) in Next(w, s, ev).promises
  {
    var s', e := Next(w, s, ev), ev.e;
    MovedIsOk(w, s, ev);
    PromisesGrow(w, s, ev);
    forall x | HasConsumed(w, s', x) ensures PromiseOf(w, s', x) in s'.promises {
      if x != e || |s.exchanges[e].log| >= 5 {
        assert s'.exchanges[x].log[4] == s.exchanges[x].log[4];
        assert HasConsumed(w, s, x);
        assert PromiseOf(w, s, x) in s.promises;
        assert PromiseOf(w, s', x) == PromiseOf(w, s, x);
      } else {
        ConsumeEffect(w, s, ev);
        assert s'.promises[|s.promises|] == PromiseOf(w, s', e);
      }
    }
  }

  lemma HonouredKept(w: World, s: State, ev: Event)
    requires Enabled(w, s, ev) && Honoured(s.used, s.clock, s.promises)
    requires ev.Consume? ==> KeyOf(w, ev.e) !in s.used
    ensures Honoured(Next(w, s, ev).used, Next(w, s, ev).clock, Next(w, s, ev).promises)
  {
    if ev.Begin? || ev.Consume? {
      PurgeHonours(s.used, s.clock, s.promises, ev.now, ev.at);
      HonouredAt(s.used, s.clock, s.promises, ev.at);
    }
    if ev.Consume? {
      InsertHonours(Retain(s.used, ev.now), ev.at, s.promises, KeyOf(w, ev.e),
                    Entry(ev.now + DEVICE_TOKEN_REPLAY_TTL, ()));
    } else if ev.Mint? {
      HonouredAt(s.used, s.clock, s.promises, ev.at);
    }
  }

  lemma HonouredAt(used: Used, clock: int, promises: seq<Promise<Digest>>, at: int)
    requires Honoured(used, clock, promises) && clock <= at
    ensures Honoured(used, at, promises)
  {
  }

  lemma OnlyMintingTouchesSessions(w: World, s: State, ev: Event)
    requires Enabled(w, s, ev) && !ev.Mint?
    ensures Next(w, s, ev).sessions == s.sessions && Next(w, s, ev).origin == s.origin
  {
  }

  lemma MintEffect(w: World, s: State, ev: Event)
    requires Enabled(w, s, ev) && ev.Mint? && ExchangeOk(w, s.exchanges[ev.e])
    ensures var s', key := Next(w, s, ev), Sha256(ev.token);
            && (forall k :: k in s'.sessions && k != key ==> k in s.sessions && s'.sessions[k] == s.sessions[k])
            && (forall k :: k in s.origin ==> k in s'.origin && s'.origin[k] == s.origin[k])
            && (key in s'.sessions && key !in s.sessions ==>
                  key in s'.origin && s'.origin[key] == ev.e && MintedBy(w, Moved(w, s, ev).log, key, s'.sessions[key]))
  {
    var ex := s.exchanges[ev.e];
    assert |ex.log| == 5 && ex.log[2].outcome == Ok(ex.pc.resolved);
    MovedIsOk(w, s, ev);
  }

  /** A session in the store was there before with the same origin, or this event minted it. */
  lemma SessionEffect(w: World, s: State, ev: Event, key: Digest)
    requires Enabled(w, s, ev) && SessionsOk(w, s) && ExchangeOk(w, s.exchanges[ev.e]) && key in Next(w, s, ev).sessions
    ensures var s' := Next(w, s, ev);
            || (key in s.sessions && s'.sessions[key] == s.sessions[key] && key in s'.origin
                && s'.origin[key] == s.origin[key])
            || (key in s'.origin && s'.origin[key] == ev.e && MintedBy(w, Moved(w, s, ev).log, key, s'.sessions[key]))
  {
    if ev.Mint? {
      MintEffect(w, s, ev);
      assert Sha256(ev.token) !in s.sessions;
    } else {
      OnlyMintingTouchesSessions(w, s, ev);
    }
  }

  /** A complete history grows no further. */
  lemma CompleteStays(w: World, s: State, ev: Event)
    requires Enabled(w, s, ev) && ExchangeOk(w, s.exchanges[ev.e])
    ensures |s.exchanges[ev.e].log| == 6 ==> Moved(w, s, ev).log == s.exchanges[ev.e].log
  {
    MovedIsOk(w, s, ev);
  }

  lemma SessionsKept(w: World, s: State, ev: Event)
    requires Enabled(w, s, ev) && SessionsOk(w, s) && ExchangeOk(w, s.exchanges[ev.e])
    ensures SessionsOk(w, Next(w, s, ev))
  {
    var s', e := Next(w, s, ev), ev.e;
    PromisesGrow(w, s, ev);
    CompleteStays(w, s, ev);
    forall key | key in s'.sessions
      ensures key in s'.origin && s'.origin[key] in s'.exchanges
              && MintedBy(w, s'.exchanges[s'.origin[key]].log, key, s'.sessions[key])
    {
      SessionEffect(w, s, ev, key);
    }
  }

  /** Every step of every exchange keeps the invariant. */
  lemma StepKeepsInv(w: World, s: State, ev: Event)
    requires Enabled(w, s, ev) && Inv(w, s)
    ensures Inv(w, Next(w, s, ev))
  {
    var s' := Next(w, s, ev);
    assert ExchangeOk(w, s.exchanges[ev.e]);
    MovedIsOk(w, s, ev);
    PromisesGrow(w, s, ev);
    assert forall e :: e in s'.exchanges ==> ExchangeOk(w, s'.exchanges[e]);
    assert GuardsOk(w, s') by { GuardsKept(w, s, ev); }
    assert UnusedOk(w, s') by { UnusedKept(w, s, ev); }
    assert PromisesOk(w, s') by {
      PromisesKept(w, s, ev);
      assert ev.Consume? ==> Guarded(w, s, ev.e) && |s.exchanges[ev.e].log| == 4;
      HonouredKept(w, s, ev);
    }
    assert SessionsOk(w, s') by { SessionsKept(w, s, ev); }
    PermitsKept(w, s, ev);
  }
}
