/** What the device-token exchange guarantees in every run. */
module ExchangeTheorems {
  import opened Prelude
  import opened Expiring
  import opened Sessions
  import opened DeviceExchange
  import Limiter

  lemma {:induction false} RunKeepsInv(w: World, states: seq<State>, events: seq<Event>, i: nat)
    requires IsRun(w, states, events) && i < |states|
    ensures Inv(w, states[i])
  {
    if i == 0 {
      assert Holders(states[0]) == {};
    } else {
      RunKeepsInv(w, states, events, i - 1);
      StepKeepsInv(w, states[i - 1], events[i - 1]);
    }
  }

  lemma LogStep(w: World, s: State, ev: Event, e: nat)
    requires Enabled(w, s, ev) && Inv(w, s) && e in w.tokens
    ensures e in s.exchanges && e in Next(w, s, ev).exchanges
    ensures s.exchanges[e].log <= Next(w, s, ev).exchanges[e].log
  {
    PromisesGrow(w, s, ev);
    assert ExchangeOk(w, s.exchanges[ev.e]);
    MovedIsOk(w, s, ev);
  }

  lemma LogStepInRun(w: World, states: seq<State>, events: seq<Event>, j: nat, e: nat)
    requires IsRun(w, states, events) && j < |events| && e in w.tokens
    ensures e in states[j].exchanges && e in states[j + 1].exchanges
    ensures states[j].exchanges[e].log <= states[j + 1].exchanges[e].log
  {
    RunKeepsInv(w, states, events, j);
    LogStep(w, states[j], events[j], e);
  }

  lemma {:induction false} PrefixesChain(logs: seq<seq<Did>>, i: nat, j: nat)
    requires i <= j < |logs| && forall n :: 0 <= n < |logs| - 1 ==> logs[n] <= logs[n + 1]
    ensures logs[i] <= logs[j]
    decreases j
  {
    if i < j {
      PrefixesChain(logs, i, j - 1);
      assert logs[j - 1] <= logs[j - 1 + 1];
    }
  }

  /** An exchange's history is never rewritten. */
  lemma LogsGrow(w: World, states: seq<State>, events: seq<Event>, i: nat, j: nat, e: nat)
    requires IsRun(w, states, events) && i <= j < |states| && e in w.tokens
    requires e in states[i].exchanges
    ensures e in states[j].exchanges && states[i].exchanges[e].log <= states[j].exchanges[e].log
  {
    forall n | 0 <= n < |states| ensures e in states[n].exchanges {
      RunKeepsInv(w, states, events, n);
    }
    var logs := seq(|states|, n requires 0 <= n < |states| && e in states[n].exchanges => states[n].exchanges[e].log);
    forall n | 0 <= n < |logs| - 1 ensures logs[n] <= logs[n + 1] {
      LogStepInRun(w, states, events, n, e);
    }
    PrefixesChain(logs, i, j);
  }

  // ---- Single use ----

  lemma BeginChecksSize(w: World, s: State, ev: Event)
    requires Enabled(w, s, ev) && ExchangeOk(w, s.exchanges[ev.e])
    requires s.exchanges[ev.e].log == [] && Moved(w, s, ev).log != []
    ensures FitsHeader(w.tokens[ev.e])
  {
  }

  /** Only tokens of acceptable size ever get past the first check. */
  lemma {:induction false} BegunTokensFit(w: World, states: seq<State>, events: seq<Event>, i: nat, e: nat)
    requires IsRun(w, states, events) && i < |states| && e in w.tokens && e in states[i].exchanges
    requires states[i].exchanges[e].log != []
    ensures FitsHeader(w.tokens[e])
  {
    if i > 0 {
      var s, ev := states[i - 1], events[i - 1];
      LogStepInRun(w, states, events, i - 1, e);
      if s.exchanges[e].log != [] {
        BegunTokensFit(w, states, events, i - 1, e);
      } else {
        RunKeepsInv(w, states, events, i - 1);
        PromisesGrow(w, s, ev);
        BeginChecksSize(w, s, ev);
      }
    }
  }

  /**
   * After an exchange recorded its token as used with clock reading r, no exchange can begin with
   * that token at a lock time before r plus one hour, whatever happens in between.
   */
  lemma DeviceTokenIsSingleUse(w: World, states: seq<State>, events: seq<Event>, i: nat, j: nat, e: nat)
    requires IsRun(w, states, events) && i <= j < |events| && HasConsumed(w, states[i], e)
    requires events[j].Begin? && w.tokens[events[j].e] == w.tokens[e]
    requires events[j].at < states[i].exchanges[e].log[4].reading + DEVICE_TOKEN_REPLAY_TTL
    ensures states[j + 1].exchanges[events[j].e].pc == Leaving(Failed(TokenReplayed))
    ensures states[j + 1].inFlight == states[j].inFlight
  {
    RunKeepsInv(w, states, events, j);
    LogsGrow(w, states, events, i, j, e);
    var s, now := states[j], events[j].now;
    assert s.exchanges[e].log[4] == states[i].exchanges[e].log[4];
    var promise := PromiseOf(w, s, e);
    assert promise in s.promises;
    assert promise.key in s.used && s.used[promise.key].until >= promise.until;
    assert promise.key in Retain(s.used, now);
    BegunTokensFit(w, states, events, i, e);
  }

  /** At all times the in-flight set is exactly the tokens of the live guards, one guard each. */
  lemma InFlightIsTheLiveGuards(w: World, states: seq<State>, events: seq<Event>, i: nat)
    requires IsRun(w, states, events) && i < |states|
    ensures forall key :: key in states[i].inFlight <==> exists e :: Guarded(w, states[i], e) && KeyOf(w, e) == key
    ensures forall e, f :: Guarded(w, states[i], e) && Guarded(w, states[i], f) && KeyOf(w, e) == KeyOf(w, f) ==> e == f
  {
    RunKeepsInv(w, states, events, i);
  }

  ghost function KeysOf(w: World, es: set<nat>): set<Digest>
    requires forall e :: e in es ==> e in w.tokens
  {
    set e | e in es :: KeyOf(w, e)
  }

  lemma {:induction false} NoMoreKeysThanExchanges(w: World, es: set<nat>)
    requires forall e :: e in es ==> e in w.tokens
    ensures |KeysOf(w, es)| <= |es|
  {
    if es != {} {
      var e :| e in es;
      NoMoreKeysThanExchanges(w, es - {e});
      assert KeysOf(w, es) == KeysOf(w, es - {e}) + {KeyOf(w, e)};
    } else {
      assert KeysOf(w, es) == {};
    }
  }

  /** Never more than 8 tokens are in flight: every guard lives inside an admission permit. */
  lemma InFlightIsBounded(w: World, states: seq<State>, events: seq<Event>, i: nat)
    requires IsRun(w, states, events) && i < |states|
    ensures |states[i].inFlight| <= Limiter.DEVICE_EXCHANGE_MAX_CONCURRENT
    ensures states[i].permits <= Limiter.DEVICE_EXCHANGE_MAX_CONCURRENT
  {
    RunKeepsInv(w, states, events, i);
    var s := states[i];
    NoMoreKeysThanExchanges(w, Holders(s));
    assert s.inFlight <= KeysOf(w, Holders(s));
    SubsetIsSmaller(s.inFlight, KeysOf(w, Holders(s)));
  }

  // ---- Sessions ----

  /**
   * Every session in the store comes from one exchange that, in this order, began under the replay
   * guard, proved the token belongs to this application with a scope that grants the profile, found a
   * configured account with two-factor authentication, revoked the token, recorded it as used, and
   * only then minted.
   */
  lemma SessionProvenance(w: World, states: seq<State>, events: seq<Event>, i: nat, key: Digest) returns (e: nat)
    requires IsRun(w, states, events) && i < |states| && key in states[i].sessions
    ensures e in w.tokens && e in states[i].exchanges && |states[i].exchanges[e].log| == 6
    ensures var log := states[i].exchanges[e].log;
            && log[0] == Began
            && log[1].Owned? && GrantsReadUser(log[1].scopes)
            && log[2].Looked? && log[2].outcome.Ok? && Proven(w, log[2].outcome.value)
            && log[3] == TriedRevoking(true)
            && log[4].Consumed? && PromiseOf(w, states[i], e) in states[i].promises
            && log[5] == MintedSession(key, states[i].sessions[key].until)
            && states[i].sessions[key].value == AccountFor(log[2].outcome.value)
  {
    RunKeepsInv(w, states, events, i);
    e := states[i].origin[key];
    assert HasConsumed(w, states[i], e);
  }

  /** How often an exchange has tried to revoke its token. */
  ghost function Revocations(log: seq<Did>): nat {
    if log == [] then 0 else Revocations(log[..|log| - 1]) + (if log[|log| - 1].TriedRevoking? then 1 else 0)
  }

  lemma RevocationsInOrder(w: World, log: seq<Did>)
    requires InOrder(w, log)
    ensures Revocations(log) == if |log| > 3 then 1 else 0
  {
  }

  function EndOf(pc: Pc): Option<End> {
    match pc
    case Dropping(end) => Some(end)
    case Leaving(end) => Some(end)
    case Ended(end) => Some(end)
    case _ => None
  }

  /** Once the ownership check has passed, an exchange that is not cancelled tries revocation exactly once. */
  lemma RevocationTriedExactlyOnce(w: World, states: seq<State>, events: seq<Event>, i: nat, e: nat)
    requires IsRun(w, states, events) && i < |states| && e in w.tokens
    ensures e in states[i].exchanges
    ensures var ex := states[i].exchanges[e];
            (exists d :: d in ex.log && d.Owned?) && EndOf(ex.pc).Some? && EndOf(ex.pc) != Some(Cancelled)
            ==> Revocations(ex.log) == 1
  {
    RunKeepsInv(w, states, events, i);
    EndedTriedOnce(w, states[i].exchanges[e]);
  }

  lemma EndedTriedOnce(w: World, ex: Exchange)
    requires ExchangeOk(w, ex)
    ensures (exists d :: d in ex.log && d.Owned?) && EndOf(ex.pc).Some? && EndOf(ex.pc) != Some(Cancelled)
            ==> Revocations(ex.log) == 1
  {
    RevocationsInOrder(w, ex.log);
    if d :| d in ex.log && d.Owned? {
      assert |ex.log| > 1;
    }
  }

  /**
   * An exchange that drops its guard without having recorded the token, as after a failed revocation,
   * leaves it retryable at once: the next begin with it succeeds at any reading.
   */
  lemma UnconsumedTokenIsRetryable(w: World, states: seq<State>, events: seq<Event>, i: nat, now: int)
    requires IsRun(w, states, events) && i < |events| && events[i].DropGuard?
    requires |states[i].exchanges[events[i].e].log| <= 4
    ensures BeginUse(states[i + 1].inFlight, states[i + 1].used, KeyOf(w, events[i].e), now).ok
  {
    RunKeepsInv(w, states, events, i);
    assert Guarded(w, states[i], events[i].e);
  }

  /** A failed revocation ends the exchange with the token unrecorded and no session. */
  lemma FailedRevocationLeavesNothing(w: World, states: seq<State>, events: seq<Event>, i: nat, e: nat)
    requires IsRun(w, states, events) && i < |states| && e in w.tokens && e in states[i].exchanges
    requires TriedRevoking(false) in states[i].exchanges[e].log
    ensures EndOf(states[i].exchanges[e].pc) == Some(Failed(TokenRevocationFailed))
    ensures |states[i].exchanges[e].log| == 4 && !HasConsumed(w, states[i], e)
    ensures forall key :: key in states[i].sessions ==> key in states[i].origin && states[i].origin[key] != e
  {
    RunKeepsInv(w, states, events, i);
    FailedIsOver(w, states[i].exchanges[e]);
    forall key | key in states[i].sessions ensures key in states[i].origin && states[i].origin[key] != e {
      assert MintedBy(w, states[i].exchanges[states[i].origin[key]].log, key, states[i].sessions[key]);
    }
  }

  lemma FailedIsOver(w: World, ex: Exchange)
    requires ExchangeOk(w, ex) && TriedRevoking(false) in ex.log
    ensures EndOf(ex.pc) == Some(Failed(TokenRevocationFailed)) && |ex.log| == 4
  {
  }

  // ---- The session store of a run is that of its mints ----

  /** The call on the session store that an event makes, if it is a mint. */
  ghost function MintOf(w: World, s: State, ev: Event): seq<MintCall>
    requires Enabled(w, s, ev)
  {
    if ev.Mint? then [MintCall(Sha256(ev.token), AccountFor(s.exchanges[ev.e].pc.resolved), ev.now)] else []
  }

  /** The mints among the first `i` events, in order. */
  ghost function Mints(w: World, states: seq<State>, events: seq<Event>, i: nat): seq<MintCall>
    requires IsRun(w, states, events) && i <= |events|
  {
    if i == 0 then []
    else
      assert Enabled(w, states[i - 1], events[i - 1]);
      Mints(w, states, events, i - 1) + MintOf(w, states[i - 1], events[i - 1])
  }

  lemma MintsStep(calls: seq<MintCall>, c: MintCall, ttl: int)
    ensures Sessions.After(calls + [c], ttl)
            == Sessions.Mint(Sessions.After(calls, ttl), c.key, c.account, c.now, ttl).sessions
  {
    assert (calls + [c])[..|calls|] == calls;
  }

  /** What one event does to the session store and to the tokens drawn. */
  lemma StepMints(w: World, s: State, ev: Event)
    requires Enabled(w, s, ev)
    ensures ev.Mint? ==> var key := Sha256(ev.token);
              && key !in s.origin && Next(w, s, ev).origin.Keys == s.origin.Keys + {key}
              && Next(w, s, ev).sessions
                 == Sessions.Mint(s.sessions, key, AccountFor(s.exchanges[ev.e].pc.resolved), ev.now, w.ttl).sessions
    ensures !ev.Mint? ==> Next(w, s, ev).sessions == s.sessions && Next(w, s, ev).origin == s.origin
  {
  }

  /** The keys of the calls are exactly the tokens drawn, each of them once. */
  ghost predicate DrawnOnce(calls: seq<MintCall>, drawn: set<Digest>) {
    && FreshTokens(calls)
    && (forall i :: 0 <= i < |calls| ==> calls[i].key in drawn)
  }

  lemma DrawnOnceMore(calls: seq<MintCall>, drawn: set<Digest>, c: MintCall)
    requires DrawnOnce(calls, drawn) && c.key !in drawn
    ensures DrawnOnce(calls + [c], drawn + {c.key})
  {
  }

  /** The store is what the calls make of an empty one, and the calls are for the tokens drawn. */
  ghost predicate Follows(s: State, calls: seq<MintCall>, ttl: int) {
    s.sessions == Sessions.After(calls, ttl) && DrawnOnce(calls, s.origin.Keys)
  }

  lemma FollowsStep(w: World, s: State, ev: Event, calls: seq<MintCall>)
    requires Enabled(w, s, ev) && Follows(s, calls, w.ttl)
    ensures Follows(Next(w, s, ev), calls + MintOf(w, s, ev), w.ttl)
  {
    StepMints(w, s, ev);
    if ev.Mint? {
      var c := MintOf(w, s, ev)[0];
      MintsStep(calls, c, w.ttl);
      DrawnOnceMore(calls, s.origin.Keys, c);
      assert calls + MintOf(w, s, ev) == calls + [c];
    } else {
      assert calls + MintOf(w, s, ev) == calls;
    }
  }

  /**
   * At every moment of every run the session store is what the run's mints make of an empty store,
   * and no two of them are for the same token: what is proved of such calls holds of this store.
   */
  lemma {:induction false} StoreFollowsMints(w: World, states: seq<State>, events: seq<Event>, i: nat)
    requires IsRun(w, states, events) && i <= |events|
    ensures Follows(states[i], Mints(w, states, events, i), w.ttl)
  {
    if i > 0 {
      StoreFollowsMints(w, states, events, i - 1);
      FollowsStep(w, states[i - 1], events[i - 1], Mints(w, states, events, i - 1));
    }
  }

  /**
   * In every run a session token is accepted for an account exactly when one of the run's mints granted
   * it to that account, it is unexpired, and no later mint read a time at or after its expiry.
   */
  lemma RunAcceptsIffUnpurged(w: World, states: seq<State>, events: seq<Event>, i: nat, key: Digest, now: int)
    requires IsRun(w, states, events) && i <= |events|
    ensures var calls := Mints(w, states, events, i);
            forall account :: Lookup(states[i].sessions, key, now) == Some(account)
              <==> GrantHolds(calls, w.ttl, key, account, now)
  {
    var calls := Mints(w, states, events, i);
    StoreFollowsMints(w, states, events, i);
    assert states[i].sessions == Sessions.After(calls, w.ttl);
    AcceptedIffUnpurged(calls, w.ttl, key, now);
  }

  /** A mint about to happen in a run, readings in order, is refused exactly when 4096 of its mints are live. */
  lemma RunRefusesIffFull(w: World, states: seq<State>, events: seq<Event>, i: nat, ev: Event)
    requires IsRun(w, states, events) && i <= |events| && Enabled(w, states[i], ev) && ev.Mint?
    requires NondecreasingReadings(Mints(w, states, events, i) + MintOf(w, states[i], ev))
    ensures var c, log := MintOf(w, states[i], ev)[0], Sessions.Log(Mints(w, states, events, i), w.ttl);
            !Sessions.Mint(states[i].sessions, c.key, c.account, c.now, w.ttl).granted
            <==> |LiveKeys(log, c.now)| >= MAX_OAUTH_SESSIONS
  {
    var calls, c := Mints(w, states, events, i), MintOf(w, states[i], ev)[0];
    assert calls + [c] == calls + MintOf(w, states[i], ev);
    StoreFollowsMints(w, states, events, i);
    NextRefusedIffFull(calls, c, w.ttl);
  }
}
