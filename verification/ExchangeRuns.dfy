/**
 * What an exchange can count on: it always has a next step of its own, it is over after nine of them,
 * and with good answers and room in the stores it is granted, whatever the run was before.
 */
module ExchangeRuns {
  import opened Prelude
  import opened Text
  import opened Config
  import opened Identity
  import opened Expiring
  import opened Sessions
  import opened DeviceExchange
  import opened ExchangeTheorems
  import opened ExchangeEvents

  /** The most steps an exchange still takes. */
  ghost function StepsLeft(pc: Pc): nat {
    match pc
    case Arrived => 9
    case Admitted => 8
    case Checking => 7
    case Resolving => 6
    case Revoking(_) => 5
    case Consuming(_) => 4
    case Minting(_) => 3
    case Dropping(_) => 2
    case Leaving(_) => 1
    case Ended(_) => 0
  }

  ghost function OwnSteps(events: seq<Event>, i: nat, e: nat): nat
    requires i <= |events|
  {
    if i == 0 then 0 else OwnSteps(events, i - 1, e) + if events[i - 1].e == e then 1 else 0
  }

  lemma MovedIsCloser(w: World, s: State, ev: Event)
    requires Enabled(w, s, ev)
    ensures StepsLeft(Moved(w, s, ev).pc) < StepsLeft(s.exchanges[ev.e].pc)
  {
  }

  lemma StepIsCounted(w: World, s: State, ev: Event, e: nat)
    requires Enabled(w, s, ev) && e in s.exchanges
    ensures var left := Next(w, s, ev).exchanges;
            && e in left
            && (if ev.e == e then StepsLeft(left[e].pc) < StepsLeft(s.exchanges[e].pc) else left[e] == s.exchanges[e])
  {
    MovedIsCloser(w, s, ev);
  }

  /** An exchange takes at most nine steps, whatever GitHub answers and the other exchanges do. */
  lemma {:induction false} ExchangesAreBounded(w: World, states: seq<State>, events: seq<Event>, i: nat, e: nat)
    requires IsRun(w, states, events) && i < |states| && e in w.tokens
    ensures e in states[i].exchanges && OwnSteps(events, i, e) + StepsLeft(states[i].exchanges[e].pc) <= 9
  {
    if i > 0 {
      ExchangesAreBounded(w, states, events, i - 1, e);
      StepIsCounted(w, states[i - 1], events[i - 1], e);
    }
  }

  /** An exchange under way can go on at any later time and whatever is answered, without the others' help. */
  lemma ExchangeCanGoOn(w: World, s: State, e: nat, at: int, token: string, check: CheckReply, user: UserReply,
                        revoke: RevokeReply)
    returns (ev: Event)
    requires e in w.tokens && e in s.exchanges && !s.exchanges[e].pc.Ended?
    requires s.clock <= at && Sha256(token) !in s.origin
    ensures ev.e == e && !ev.Cancel? && Enabled(w, s, ev)
    ensures ev.CheckAnswered? ==> ev.check == check
    ensures ev.UserAnswered? ==> ev.user == user
    ensures ev.RevokeAnswered? ==> ev.revoke == revoke
    ensures ev.Begin? || ev.Consume? || ev.Mint? ==> ev.now == at == ev.at
  {
    match s.exchanges[e].pc
    case Arrived => ev := Event.Admit(e, true);
    case Admitted => ev := Event.Begin(e, at, at);
    case Checking => ev := CheckAnswered(e, check);
    case Resolving => ev := UserAnswered(e, user);
    case Revoking(_) => ev := RevokeAnswered(e, revoke);
    case Consuming(_) => ev := Event.Consume(e, at, at);
    case Minting(_) => ev := Event.Mint(e, token, at, at);
    case Dropping(_) => ev := DropGuard(e);
    case Leaving(_) => ev := Release(e);
  }

  lemma Extend(w: World, states: seq<State>, events: seq<Event>, ev: Event)
    returns (states': seq<State>, events': seq<Event>)
    requires IsRun(w, states, events) && Enabled(w, states[|events|], ev)
    ensures IsRun(w, states', events') && states <= states' && events <= events' && |events'| == |events| + 1
    ensures states'[|events'|] == Next(w, states[|events|], ev) && events'[|events|] == ev
  {
    states', events' := states + [Next(w, states[|events|], ev)], events + [ev];
  }

  /** What the token, GitHub and the stores have to offer for a login. */
  ghost predicate Good(w: World, s: State, e: nat, at: int, token: string, scopes: seq<string>, user: User) {
    && e in w.tokens && w.tokens[e] != "" && Utf8Length(w.tokens[e]) <= 16384
    && s.clock <= at && s.permits > 0
    && KeyOf(w, e) !in s.inFlight && KeyOf(w, e) !in Retain(s.used, at)
    && |Retain(s.used, at)| < 65536 && |Retain(s.sessions, at)| < 4096
    && HasScope(scopes) && HasAccount(w, user) && user.twoFactor == Some(true) && Sha256(token) !in s.origin
  }

  /** Up to the guard. */
  lemma Entering(w: World, states: seq<State>, events: seq<Event>, e: nat, at: int)
    returns (states': seq<State>, events': seq<Event>)
    requires IsRun(w, states, events) && e in w.tokens && e in states[|events|].exchanges
    requires var s := states[|events|];
             && s.exchanges[e].pc == Arrived && s.clock <= at && s.permits > 0
             && w.tokens[e] != "" && Utf8Length(w.tokens[e]) <= 16384
             && KeyOf(w, e) !in s.inFlight && KeyOf(w, e) !in Retain(s.used, at)
    ensures IsRun(w, states', events') && states <= states' && events <= events'
    ensures var s, s' := states[|events|], states'[|events'|];
            && e in s'.exchanges && s'.exchanges[e].pc == Checking
            && s'.clock == at && s'.used == Retain(s.used, at) && s'.sessions == s.sessions && s'.origin == s.origin
  {
    states', events' := Extend(w, states, events, Event.Admit(e, true));
    states', events' := Extend(w, states', events', Event.Begin(e, at, at));
  }

  /** Up to GitHub's answer about the account. */
  lemma Opening(w: World, states: seq<State>, events: seq<Event>, e: nat, at: int, token: string, scopes: seq<string>,
                user: User)
    returns (states': seq<State>, events': seq<Event>)
    requires IsRun(w, states, events) && e in states[|events|].exchanges && states[|events|].exchanges[e].pc == Arrived
    requires Good(w, states[|events|], e, at, token, scopes, user)
    ensures IsRun(w, states', events') && states <= states' && events <= events'
    ensures var s, s' := states[|events|], states'[|events'|];
            && e in s'.exchanges && s'.exchanges[e].pc.Revoking? && s'.exchanges[e].pc.outcome.Ok?
            && UserOutcome(w, Profile(user), s'.exchanges[e].pc.outcome)
            && s'.clock == at && s'.used == Retain(s.used, at) && s'.sessions == s.sessions && s'.origin == s.origin
  {
    states', events' := Entering(w, states, events, e, at);
    states', events' := Extend(w, states', events', CheckAnswered(e, TokenInfo(w.clientId, scopes)));
    UserOutcomeMeans(w, Profile(user));
    states', events' := Extend(w, states', events', UserAnswered(e, Profile(user)));
  }

  /** From there to the session. */
  lemma Closing(w: World, states: seq<State>, events: seq<Event>, e: nat, at: int, token: string)
    returns (states': seq<State>, events': seq<Event>)
    requires IsRun(w, states, events) && e in w.tokens && e in states[|events|].exchanges
    requires states[|events|].exchanges[e].pc.Revoking? && states[|events|].exchanges[e].pc.outcome.Ok?
    requires var s := states[|events|];
             && s.clock <= at && |Retain(s.used, at)| < 65536 && |Retain(s.sessions, at)| < 4096
             && Sha256(token) !in s.origin
    ensures IsRun(w, states', events') && states <= states' && events <= events'
    ensures var s, s' := states[|events|], states'[|events'|];
            && e in s'.exchanges && s'.exchanges[e].pc == Dropping(Granted(token))
            && Stored(s', token, at + w.ttl, AccountFor(s.exchanges[e].pc.outcome.value))
  {
    var resolved := states[|events|].exchanges[e].pc.outcome.value;
    states', events' := Extend(w, states, events, RevokeAnswered(e, RevokeStatus(204)));
    assert states'[|events'|].exchanges[e].pc == Consuming(Ok(resolved));
    states', events' := Extend(w, states', events', Event.Consume(e, at, at));
    assert states'[|events'|].exchanges[e].pc == Minting(resolved);
    MintStores(w, states'[|events'|], e, at, token);
    states', events' := Extend(w, states', events', Event.Mint(e, token, at, at));
  }

  ghost predicate Stored(s: State, token: string, until: int, account: Account) {
    Sha256(token) in s.sessions && s.sessions[Sha256(token)] == Entry(until, account)
  }

  lemma MintStores(w: World, s: State, e: nat, at: int, token: string)
    requires e in w.tokens && e in s.exchanges && s.exchanges[e].pc.Minting?
    requires s.clock <= at && |Retain(s.sessions, at)| < 4096 && Sha256(token) !in s.origin
    ensures var ev := Event.Mint(e, token, at, at);
            && Enabled(w, s, ev) && Next(w, s, ev).exchanges[e].pc == Dropping(Granted(token))
            && Stored(Next(w, s, ev), token, at + w.ttl, AccountFor(s.exchanges[e].pc.resolved))
  {
  }

  /** And out: the guard and the permit are given back. */
  lemma Departure(w: World, states: seq<State>, events: seq<Event>, e: nat, end: End)
    returns (states': seq<State>, events': seq<Event>)
    requires IsRun(w, states, events) && e in w.tokens && e in states[|events|].exchanges
    requires states[|events|].exchanges[e].pc == Dropping(end)
    ensures IsRun(w, states', events') && states <= states' && events <= events'
    ensures var s, s' := states[|events|], states'[|events'|];
            && e in s'.exchanges && s'.exchanges[e].pc == Ended(end) && s'.sessions == s.sessions
            && KeyOf(w, e) !in s'.inFlight && s'.permits == s.permits + 1 && s'.used == s.used
  {
    states', events' := Extend(w, states, events, DropGuard(e));
    states', events' := Extend(w, states', events', Release(e));
  }

  /**
   * Wherever a run stands, an exchange that has just arrived can be granted: with a permit free, a token
   * that fits and is neither in flight nor used, room in both stores, and good answers, a session for the
   * account is stored under the token drawn.
   */
  lemma GoodLoginIsGranted(w: World, states: seq<State>, events: seq<Event>, e: nat, at: int, token: string,
                           scopes: seq<string>, user: User)
    returns (states': seq<State>, events': seq<Event>, identity: IdentityConfig)
    requires IsRun(w, states, events) && e in states[|events|].exchanges && states[|events|].exchanges[e].pc == Arrived
    requires Good(w, states[|events|], e, at, token, scopes, user)
    ensures IsRun(w, states', events') && states <= states' && events <= events'
    ensures identity in w.identities && IsAccount(identity, user)
    ensures var s' := states'[|events'|];
            && e in s'.exchanges && s'.exchanges[e].pc == Ended(Granted(token))
            && Stored(s', token, at + w.ttl, Account(identity.id, user.id, user.login))
  {
    var mid, sofar := Opening(w, states, events, e, at, token, scopes, user);
    var resolved := mid[|sofar|].exchanges[e].pc.outcome.value;
    identity :| identity in w.identities && IsAccount(identity, user) && identity.id == resolved.identityId;
    var used := states[|events|].used;
    assert Retain(Retain(used, at), at) == Retain(used, at);
    mid, sofar := Closing(w, mid, sofar, e, at, token);
    states', events' := Departure(w, mid, sofar, e, Granted(token));
  }

  /**
   * At every await of the work the exchange can be cancelled, and is then gone in two more steps: the
   * permit is free again, the token not in flight, and neither store changed.
   */
  lemma CancellationGivesBack(w: World, states: seq<State>, events: seq<Event>, e: nat)
    returns (states': seq<State>, events': seq<Event>)
    requires IsRun(w, states, events) && e in w.tokens && e in states[|events|].exchanges
    requires var pc := states[|events|].exchanges[e].pc;
             pc.Checking? || pc.Resolving? || pc.Revoking? || pc.Minting?
    ensures IsRun(w, states', events') && states <= states' && events <= events' && Cancel(e) in events'
    ensures var s, s' := states[|events|], states'[|events'|];
            && e in s'.exchanges && s'.exchanges[e].pc == Ended(Cancelled)
            && KeyOf(w, e) !in s'.inFlight && s'.permits == s.permits + 1
            && s'.used == s.used && s'.sessions == s.sessions
  {
    var mid, sofar := Extend(w, states, events, Cancel(e));
    assert sofar[|events|] == Cancel(e);
    states', events' := Departure(w, mid, sofar, e, Cancelled);
  }
}
