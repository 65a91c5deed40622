/**
 * The device-token exchange told by its events alone: what GitHub answered, what the clock read, who
 * was cancelled. Every entry of an exchange's history, every stored session and every way an exchange
 * ends goes back to events of that exchange.
 */
module ExchangeEvents {
  import opened Prelude
  import opened Text
  import opened Config
  import opened Identity
  import opened Expiring
  import opened Sessions
  import opened DeviceExchange
  import opened ExchangeTheorems

  // ---- What the answers mean ----

  ghost predicate HasScope(scopes: seq<string>) {
    "read:user" in scopes || "user" in scopes
  }

  /** A configured account identity with this user id, and this login ignoring case if it names one. */
  ghost predicate IsAccount(identity: IdentityConfig, user: User) {
    && identity.kind == GithubAccount && identity.githubUserId == Some(user.id)
    && (identity.githubLogin.Some? ==> EqIgnoreAsciiCase(identity.githubLogin.value, user.login))
  }

  ghost predicate HasAccount(w: World, user: User) {
    exists identity :: identity in w.identities && IsAccount(identity, user)
  }

  /** The account outcome that a profile request leads to. */
  ghost predicate UserOutcome(w: World, reply: UserReply, outcome: Result<Resolved, FlowError>) {
    match reply
    case UserFailed => outcome == Err(IdentityProviderUnavailable)
    case UserStatus(code) => outcome == Err(if code == 401 then TokenValidationFailed else IdentityProviderUnavailable)
    case Profile(user) =>
      if !HasAccount(w, user) then outcome == Err(ClaimsDenied)
      else if user.twoFactor != Some(true) then outcome == Err(TwoFactorRequired)
      else
        && outcome.Ok? && outcome.value.user == user
        && exists identity :: identity in w.identities && IsAccount(identity, user)
                              && identity.id == outcome.value.identityId
  }

  /** The event is one of exchange `e` and is what put this entry into its history. */
  ghost predicate Caused(w: World, ev: Event, e: nat, did: Did) {
    ev.e == e
    && match did
       case Began => ev.Begin?
       case Owned(scopes) => ev == CheckAnswered(e, TokenInfo(w.clientId, scopes))
       case Looked(outcome) =>
         || (ev.UserAnswered? && UserOutcome(w, ev.user, outcome))
         || (ev.CheckAnswered? && ev.check.TokenInfo? && !HasScope(ev.check.scopes) && outcome == Err(ScopeNotGranted))
       case TriedRevoking(ok) =>
         ev.RevokeAnswered? && (ok <==> ev.revoke == RevokeStatus(204) || ev.revoke == RevokeStatus(404))
       case Consumed(reading) => ev.Consume? && ev.now == reading
       case MintedSession(key, until) => ev.Mint? && Sha256(ev.token) == key && until == ev.now + w.ttl
  }

  lemma UserOutcomeMeans(w: World, reply: UserReply)
    ensures UserOutcome(w, reply, AccountOf(w.identities, reply))
  {
    if reply.Profile? {
      var user := reply.user;
      forall identity ensures MatchesAccount(identity, user.id, user.login) <==> IsAccount(identity, user) {
        MatchesAccountMeans(identity, user.id, user.login);
      }
      var found := FindAccount(w.identities, user.id, user.login);
      if HasAccount(w, user) {
        var identity :| identity in w.identities && IsAccount(identity, user);
        var i :| 0 <= i < |w.identities| && w.identities[i] == identity;
        assert MatchesAccount(w.identities[i], user.id, user.login);
      }
      if found.Some? {
        assert found.value in w.identities && IsAccount(found.value, user);
      }
    }
  }

  /** What an event adds to its exchange's history, it caused; and profiles are only asked for under a scope. */
  lemma StepCauses(w: World, s: State, ev: Event)
    requires Enabled(w, s, ev) && ExchangeOk(w, s.exchanges[ev.e])
    ensures var before, after := s.exchanges[ev.e].log, Moved(w, s, ev).log;
            && before <= after
            && forall x :: |before| <= x < |after| ==> Caused(w, ev, ev.e, after[x])
    ensures Moved(w, s, ev).pc.Resolving? ==> |Moved(w, s, ev).log| == 2 && Moved(w, s, ev).log[1].Owned?
                                              && HasScope(Moved(w, s, ev).log[1].scopes)
  {
    if ev.UserAnswered? {
      UserOutcomeMeans(w, ev.user);
    }
  }

  // ---- Histories ----

  /** `ns` gives for each entry the event that caused it, in order. */
  ghost predicate Sources(w: World, events: seq<Event>, i: nat, e: nat, log: seq<Did>, ns: seq<nat>) {
    && |ns| == |log| && i <= |events|
    && (forall x :: 0 <= x < |ns| ==> ns[x] < i && Caused(w, events[ns[x]], e, log[x]))
    && (forall x, y :: 0 <= x < y < |ns| ==> ns[x] <= ns[y])
  }

  lemma SourcesLater(w: World, events: seq<Event>, i: nat, e: nat, log: seq<Did>, ns: seq<nat>, log': seq<Did>)
    returns (ns': seq<nat>)
    requires Sources(w, events, i, e, log, ns) && i < |events| && log <= log'
    requires forall x :: |log| <= x < |log'| ==> Caused(w, events[i], e, log'[x])
    ensures Sources(w, events, i + 1, e, log', ns')
  {
    ns' := ns + seq(|log'| - |log|, _ => i);
    forall x | 0 <= x < |ns'| ensures ns'[x] < i + 1 && Caused(w, events[ns'[x]], e, log'[x]) {
      if x < |log| {
        assert log'[x] == log[x] && ns'[x] == ns[x];
      } else {
        assert ns'[x] == i;
      }
    }
  }

  ghost predicate HasSources(w: World, events: seq<Event>, i: nat, e: nat, s: State) {
    e in s.exchanges && exists ns :: Sources(w, events, i, e, s.exchanges[e].log, ns)
  }

  lemma StepSources(w: World, states: seq<State>, events: seq<Event>, i: nat, e: nat)
    requires IsRun(w, states, events) && i < |events| && e in w.tokens && HasSources(w, events, i, e, states[i])
    ensures HasSources(w, events, i + 1, e, states[i + 1])
  {
    var s, ev := states[i], events[i];
    var ns :| Sources(w, events, i, e, s.exchanges[e].log, ns);
    RunKeepsInv(w, states, events, i);
    PromisesGrow(w, s, ev);
    if ev.e == e {
      StepCauses(w, s, ev);
    }
    var ns' := SourcesLater(w, events, i, e, s.exchanges[e].log, ns, states[i + 1].exchanges[e].log);
  }

  /** Every entry of every history goes back to an event. */
  lemma HistoryHasSources(w: World, states: seq<State>, events: seq<Event>, i: nat, e: nat) returns (ns: seq<nat>)
    requires IsRun(w, states, events) && i < |states| && e in w.tokens
    ensures e in states[i].exchanges && Sources(w, events, i, e, states[i].exchanges[e].log, ns)
  {
    var sourced := (n: int) => 0 <= n < |states| && HasSources(w, events, n, e, states[n]);
    assert sourced(0) by { assert Sources(w, events, 0, e, [], []); }
    forall n | 0 <= n < i && sourced(n) ensures sourced(n + 1) {
      StepSources(w, states, events, n, e);
    }
    HoldsAlong(sourced, i);
    ns :| Sources(w, events, i, e, states[i].exchanges[e].log, ns);
  }

  /** Whoever is being asked for a profile, or was, has shown the scope. */
  ghost predicate ScopeShown(ex: Exchange) {
    (ex.pc.Resolving? || (|ex.log| > 2 && ex.log[2].Looked? && ex.log[2].outcome != Err(ScopeNotGranted))) ==>
      |ex.log| > 1 && ex.log[1].Owned? && HasScope(ex.log[1].scopes)
  }

  lemma ScopeStep(w: World, s: State, ev: Event)
    requires Enabled(w, s, ev) && ExchangeOk(w, s.exchanges[ev.e]) && ScopeShown(s.exchanges[ev.e])
    ensures ScopeShown(Moved(w, s, ev))
  {
    StepCauses(w, s, ev);
  }

  lemma ScopeStepInRun(w: World, states: seq<State>, events: seq<Event>, i: nat, e: nat)
    requires IsRun(w, states, events) && i < |events| && e in states[i].exchanges && ScopeShown(states[i].exchanges[e])
    ensures e in states[i + 1].exchanges && ScopeShown(states[i + 1].exchanges[e])
  {
    RunKeepsInv(w, states, events, i);
    PromisesGrow(w, states[i], events[i]);
    if events[i].e == e {
      ScopeStep(w, states[i], events[i]);
    }
  }

  lemma ScopeIsShown(w: World, states: seq<State>, events: seq<Event>, i: nat, e: nat)
    requires IsRun(w, states, events) && i < |states| && e in w.tokens
    ensures e in states[i].exchanges && ScopeShown(states[i].exchanges[e])
  {
    var shown := (n: int) => 0 <= n < |states| && e in states[n].exchanges && ScopeShown(states[n].exchanges[e]);
    forall n | 0 <= n < i && shown(n) ensures shown(n + 1) {
      ScopeStepInRun(w, states, events, n, e);
    }
    HoldsAlong(shown, i);
  }

  /**
   * Every session in the store, by the events of the exchange that minted it: begun under the guard,
   * a token check in which GitHub named this application and a scope that shows the profile, a profile
   * with two-factor authentication of a configured account, a revocation answered 204 or 404, the
   * consumption and the mint, in this order; and the session is for that account until the mint's
   * reading plus the session lifetime.
   */
  lemma SessionFromEvents(w: World, states: seq<State>, events: seq<Event>, i: nat, key: Digest)
    returns (e: nat, ns: seq<nat>, scopes: seq<string>, user: User, identity: IdentityConfig)
    requires IsRun(w, states, events) && i < |states| && key in states[i].sessions
    ensures e in w.tokens && |ns| == 6 && ns[0] < ns[1] < ns[2] < ns[3] < ns[4] < ns[5] < i <= |events|
    ensures events[ns[0]].Begin? && events[ns[0]].e == e
    ensures events[ns[1]] == CheckAnswered(e, TokenInfo(w.clientId, scopes))
    ensures "read:user" in scopes || "user" in scopes
    ensures events[ns[2]] == UserAnswered(e, Profile(user)) && user.twoFactor == Some(true)
    ensures identity in w.identities && IsAccount(identity, user)
    ensures events[ns[3]] in {RevokeAnswered(e, RevokeStatus(204)), RevokeAnswered(e, RevokeStatus(404))}
    ensures events[ns[4]].Consume? && events[ns[4]].e == e
    ensures events[ns[5]].Mint? && events[ns[5]].e == e && Sha256(events[ns[5]].token) == key
    ensures states[i].sessions[key] == Entry(events[ns[5]].now + w.ttl, Account(identity.id, user.id, user.login))
  {
    e := SessionProvenance(w, states, events, i, key);
    var log := states[i].exchanges[e].log;
    ns := HistoryHasSources(w, states, events, i, e);
    ScopeIsShown(w, states, events, i, e);
    scopes := log[1].scopes;
    assert Caused(w, events[ns[0]], e, log[0]) && Caused(w, events[ns[1]], e, log[1]);
    assert Caused(w, events[ns[2]], e, log[2]) && Caused(w, events[ns[3]], e, log[3]);
    assert Caused(w, events[ns[4]], e, log[4]) && Caused(w, events[ns[5]], e, log[5]);
    user := events[ns[2]].user.user;
    identity :| identity in w.identities && IsAccount(identity, user) && identity.id == log[2].outcome.value.identityId;
  }

  // ---- Ends ----

  /** At the event's reading 65,536 tokens are recorded as used, and the exchange's own is not among them. */
  ghost predicate NoRoomToConsume(w: World, s: State, ev: Event, e: nat)
    requires ev.Consume? && e in w.tokens
  {
    |Retain(s.used, ev.now)| >= 65536 && KeyOf(w, e) !in Retain(s.used, ev.now)
  }

  /** The event ends exchange `e` like this, for this reason. */
  ghost predicate EndedBy(w: World, s: State, ev: Event, e: nat, end: End) {
    && ev.e == e && e in w.tokens && e in s.exchanges
    && match end
       case Granted(token) => ev.Mint? && ev.token == token && |Retain(s.sessions, ev.now)| < 4096
       case Refused => ev.Reject? || (ev.Admit? && (!ev.allowed || s.permits == 0))
       case Cancelled => ev.Cancel?
       case Failed(error) =>
         || (error == TokenValidationFailed && ev.Begin? && (w.tokens[e] == "" || Utf8Length(w.tokens[e]) > 16384))
         || (error == TokenReplayed && ev.Begin? && w.tokens[e] != "" && Utf8Length(w.tokens[e]) <= 16384
             && (KeyOf(w, e) in s.inFlight || (KeyOf(w, e) in s.used && s.used[KeyOf(w, e)].until > ev.now)))
         || (error == TokenValidationFailed && ev.CheckAnswered?
             && (ev.check == CheckStatus(404) || (ev.check.TokenInfo? && ev.check.clientId != w.clientId)))
         || (error == IdentityProviderUnavailable && ev.CheckAnswered?
             && (ev.check.CheckFailed? || (ev.check.CheckStatus? && ev.check.code != 404)))
         || (error == TokenRevocationFailed && ev.RevokeAnswered?
             && ev.revoke != RevokeStatus(204) && ev.revoke != RevokeStatus(404))
         || (error == ReplayCacheUnavailable && ev.Consume? && NoRoomToConsume(w, s, ev, e))
         || (ev.Consume? && !NoRoomToConsume(w, s, ev, e)
             && |s.exchanges[e].log| > 2 && s.exchanges[e].log[2] == Looked(Err(error)))
         || (error == SessionCapacity && ev.Mint? && |Retain(s.sessions, ev.now)| >= 4096)
  }

  lemma StepEnds(w: World, s: State, ev: Event)
    requires Enabled(w, s, ev) && ExchangeOk(w, s.exchanges[ev.e])
    ensures EndOf(s.exchanges[ev.e].pc).None? ==>
              forall end :: EndOf(Moved(w, s, ev).pc) == Some(end) <==> EndedBy(w, s, ev, ev.e, end)
    ensures EndOf(s.exchanges[ev.e].pc).Some? ==> EndOf(Moved(w, s, ev).pc) == EndOf(s.exchanges[ev.e].pc)
  {
    if ev.Begin? || ev.CheckAnswered? || ev.Consume? {
      RefusalEnds(w, s, ev);
    }
  }

  lemma RefusalEnds(w: World, s: State, ev: Event)
    requires Enabled(w, s, ev) && ExchangeOk(w, s.exchanges[ev.e]) && (ev.Begin? || ev.CheckAnswered? || ev.Consume?)
    ensures EndOf(s.exchanges[ev.e].pc).None?
    ensures forall end :: EndOf(Moved(w, s, ev).pc) == Some(end) <==> EndedBy(w, s, ev, ev.e, end)
  {
  }

  lemma StepEndsOne(w: World, s: State, ev: Event, e: nat)
    requires Enabled(w, s, ev) && e in s.exchanges && ExchangeOk(w, s.exchanges[ev.e])
    ensures var before, after := s.exchanges, Next(w, s, ev).exchanges;
            && e in after
            && (EndOf(before[e].pc).Some? ==> EndOf(after[e].pc) == EndOf(before[e].pc))
            && (EndOf(before[e].pc).None? ==>
                  forall end :: EndOf(after[e].pc) == Some(end) <==> EndedBy(w, s, ev, e, end))
  {
    PromisesGrow(w, s, ev);
    StepEnds(w, s, ev);
    if ev.e != e {
      assert Next(w, s, ev).exchanges[e] == s.exchanges[e];
    }
  }

  /** An exchange under way is ended by a step, and in that way, exactly when the event gives the reason. */
  lemma EndsExactlyThen(w: World, states: seq<State>, events: seq<Event>, n: nat, e: nat)
    requires IsRun(w, states, events) && n < |events| && e in w.tokens
    ensures e in states[n].exchanges && e in states[n + 1].exchanges
    ensures var before, after := EndOf(states[n].exchanges[e].pc), EndOf(states[n + 1].exchanges[e].pc);
            && (before.Some? ==> after == before)
            && (before.None? ==> forall end :: after == Some(end) <==> EndedBy(w, states[n], events[n], e, end))
  {
    RunKeepsInv(w, states, events, n);
    StepEndsOne(w, states[n], events[n], e);
  }

  ghost predicate HasEndOf(s: State, e: nat, end: End) {
    e in s.exchanges && EndOf(s.exchanges[e].pc) == Some(end)
  }

  /** Every exchange that has come to an end was ended so by one event, for a reason in what that event brought. */
  lemma {:induction false} EndsAreExact(w: World, states: seq<State>, events: seq<Event>, i: nat, e: nat, end: End)
    returns (n: nat)
    requires IsRun(w, states, events) && i < |states| && e in w.tokens && HasEndOf(states[i], e, end)
    ensures n < i && n < |events| && EndedBy(w, states[n], events[n], e, end)
  {
    assert i > 0;
    EndsExactlyThen(w, states, events, i - 1, e);
    if HasEndOf(states[i - 1], e, end) {
      n := EndsAreExact(w, states, events, i - 1, e, end);
    } else {
      n := i - 1;
    }
  }

  ghost predicate HasEnded(s: State, e: nat, end: Option<End>, log: seq<Did>) {
    e in s.exchanges && end.Some? && EndOf(s.exchanges[e].pc) == end && s.exchanges[e].log == log
  }

  lemma EndStep(w: World, s: State, ev: Event, e: nat, end: Option<End>, log: seq<Did>)
    requires Enabled(w, s, ev) && Inv(w, s) && HasEnded(s, e, end, log)
    ensures HasEnded(Next(w, s, ev), e, end, log)
  {
    PromisesGrow(w, s, ev);
    if ev.e == e {
      StepEnds(w, s, ev);
      EndedMovesNothing(w, s, ev);
    }
  }

  lemma EndStepInRun(w: World, states: seq<State>, events: seq<Event>, i: nat, e: nat, end: Option<End>, log: seq<Did>)
    requires IsRun(w, states, events) && i < |events| && HasEnded(states[i], e, end, log)
    ensures HasEnded(states[i + 1], e, end, log)
  {
    RunKeepsInv(w, states, events, i);
    EndStep(w, states[i], events[i], e, end, log);
  }

  lemma EndStays(w: World, states: seq<State>, events: seq<Event>, i: nat, j: nat, e: nat)
    requires IsRun(w, states, events) && i <= j < |states| && e in w.tokens && e in states[i].exchanges
    requires EndOf(states[i].exchanges[e].pc).Some?
    ensures HasEnded(states[j], e, EndOf(states[i].exchanges[e].pc), states[i].exchanges[e].log)
  {
    var end, log := EndOf(states[i].exchanges[e].pc), states[i].exchanges[e].log;
    var ended := (n: int) => 0 <= n < |states| && HasEnded(states[n], e, end, log);
    forall n | i <= n < j && ended(n) ensures ended(n + 1) {
      EndStepInRun(w, states, events, n, e, end, log);
    }
    HoldsBetween(ended, i, j);
  }

  lemma EndedMovesNothing(w: World, s: State, ev: Event)
    requires Enabled(w, s, ev) && EndOf(s.exchanges[ev.e].pc).Some?
    ensures Moved(w, s, ev).log == s.exchanges[ev.e].log && (ev.DropGuard? || ev.Release?)
  {
  }

  /**
   * A token that GitHub says belongs to another application ends its exchange as invalid: no revocation
   * is ever answered to it, before or after, and no session ever comes of it.
   */
  lemma ForeignTokenIsRefused(w: World, states: seq<State>, events: seq<Event>, n: nat, i: nat, e: nat,
                              id: string, scopes: seq<string>)
    requires IsRun(w, states, events) && n < i < |states| && e in w.tokens
    requires events[n] == CheckAnswered(e, TokenInfo(id, scopes)) && id != w.clientId
    ensures e in states[i].exchanges && EndOf(states[i].exchanges[e].pc) == Some(Failed(TokenValidationFailed))
    ensures states[i].exchanges[e].log == [Began]
    ensures forall m :: 0 <= m < i ==> !(events[m].RevokeAnswered? && events[m].e == e)
    ensures forall key :: key in states[i].sessions ==> key in states[i].origin && states[i].origin[key] != e
  {
    var s, ev := states[n], events[n];
    RunKeepsInv(w, states, events, n);
    PromisesGrow(w, s, ev);
    ForeignStep(w, s, ev);
    EndStays(w, states, events, n + 1, i, e);
    forall m | 0 <= m < i ensures !(events[m].RevokeAnswered? && events[m].e == e) {
      if events[m].RevokeAnswered? && events[m].e == e {
        RevocationIsLogged(w, states, events, m, i, e);
      }
    }
    RunKeepsInv(w, states, events, i);
    forall key | key in states[i].sessions ensures key in states[i].origin && states[i].origin[key] != e {
      assert MintedBy(w, states[i].exchanges[states[i].origin[key]].log, key, states[i].sessions[key]);
    }
  }

  lemma ForeignStep(w: World, s: State, ev: Event)
    requires Enabled(w, s, ev) && ExchangeOk(w, s.exchanges[ev.e])
    requires ev.CheckAnswered? && ev.check.TokenInfo? && ev.check.clientId != w.clientId
    ensures Moved(w, s, ev).pc == Dropping(Failed(TokenValidationFailed)) && Moved(w, s, ev).log == [Began]
  {
    assert s.exchanges[ev.e].log == [s.exchanges[ev.e].log[0]];
  }

  lemma RevocationIsLogged(w: World, states: seq<State>, events: seq<Event>, m: nat, i: nat, e: nat)
    requires IsRun(w, states, events) && m < i < |states| && e in w.tokens
    requires events[m].RevokeAnswered? && events[m].e == e
    ensures e in states[i].exchanges && |states[i].exchanges[e].log| >= 4
  {
    RunKeepsInv(w, states, events, m);
    PromisesGrow(w, states[m], events[m]);
    assert ExchangeOk(w, states[m].exchanges[e]);
    LogsGrow(w, states, events, m + 1, i, e);
  }

  // ---- The replay record ----

  /** What is recorded as used was consumed by an event, until that event's reading plus one hour. */
  lemma {:induction false} UsedWasConsumed(w: World, states: seq<State>, events: seq<Event>, i: nat, key: Digest)
    returns (m: nat)
    requires IsRun(w, states, events) && i < |states| && key in states[i].used
    ensures m < i && m < |events| && events[m].Consume? && events[m].e in w.tokens && KeyOf(w, events[m].e) == key
    ensures states[i].used[key].until == events[m].now + 3600
  {
    var s, ev := states[i - 1], events[i - 1];
    assert Enabled(w, s, ev);
    UsedStep(w, s, ev, key);
    if key in s.used && s.used[key] == states[i].used[key] {
      m := UsedWasConsumed(w, states, events, i - 1, key);
    } else {
      m := i - 1;
    }
  }

  lemma UsedStep(w: World, s: State, ev: Event, key: Digest)
    requires Enabled(w, s, ev) && key in Next(w, s, ev).used
    ensures || (key in s.used && Next(w, s, ev).used[key] == s.used[key])
            || (ev.Consume? && KeyOf(w, ev.e) == key && Next(w, s, ev).used[key].until == ev.now + 3600)
  {
  }

  lemma BeginRefused(w: World, s: State, ev: Event)
    requires Enabled(w, s, ev) && ev.Begin? && HasEndOf(Next(w, s, ev), ev.e, Failed(TokenReplayed))
    ensures var key := KeyOf(w, ev.e);
            key in s.inFlight || (key in s.used && s.used[key].until > ev.now)
  {
  }

  /**
   * A token refused as a replay is one: another exchange holds a live guard for it, or some exchange
   * consumed it with a reading less than one hour before this one.
   */
  lemma ReplayRefusalIsJustified(w: World, states: seq<State>, events: seq<Event>, n: nat)
    requires IsRun(w, states, events) && n < |events| && events[n].Begin? && events[n].e in w.tokens
    requires events[n].e in states[n + 1].exchanges
    requires EndOf(states[n + 1].exchanges[events[n].e].pc) == Some(Failed(TokenReplayed))
    ensures || (exists f :: f != events[n].e && Guarded(w, states[n], f) && w.tokens[f] == w.tokens[events[n].e])
            || (exists m :: 0 <= m < n && events[m].Consume? && events[m].e in w.tokens
                            && w.tokens[events[m].e] == w.tokens[events[n].e] && events[n].now < events[m].now + 3600)
  {
    var s, ev := states[n], events[n];
    RunKeepsInv(w, states, events, n);
    BeginRefused(w, s, ev);
    if KeyOf(w, ev.e) in s.inFlight {
      var f :| Guarded(w, s, f) && KeyOf(w, f) == KeyOf(w, ev.e);
    } else {
      var m := UsedWasConsumed(w, states, events, n, KeyOf(w, ev.e));
    }
  }
}
