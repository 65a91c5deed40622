/**
 * The cache of GitHub's token-signing keys. Any number of callers look up keys; on a miss one of them
 * refreshes under an async mutex while the others wait. Every access to the cache is one step, a fetch
 * may fail, and a caller may be cancelled wherever it awaits.
 */
module JwksRefresh {
  import opened Prelude

  const JWKS_MIN_REFRESH_INTERVAL := 60
  const JWKS_MAX_STALENESS := 86400

  datatype Jwk = Jwk(kty: string, kid: string, alg: Option<string>, use: Option<string>, n: string, e: string)

  type Keys = map<string, Jwk>

  // ---- The key filter of fetch_jwks ----

  predicate Acceptable(key: Jwk) {
    && key.kty == "RSA"
    && (key.alg.Some? ==> key.alg.value == "RS256")
    && (key.use.Some? ==> key.use.value == "sig")
    && key.kid != []
  }

  /** An RSA key with a kid, for RS256 signatures if it says what it is for. */
  ghost predicate IsSigningKey(key: Jwk) {
    key.kty == "RSA" && key.alg in {None, Some("RS256")} && key.use in {None, Some("sig")} && key.kid != ""
  }

  /** The key at `x` is the last signing key of the document with this kid. */
  ghost predicate IsLastOf(document: seq<Jwk>, x: nat, kid: string) {
    && x < |document| && IsSigningKey(document[x]) && document[x].kid == kid
    && forall y :: x < y < |document| ==> !(IsSigningKey(document[y]) && document[y].kid == kid)
  }

  lemma LastOfInit(document: seq<Jwk>, x: nat, kid: string)
    requires document != [] && !(IsSigningKey(document[|document| - 1]) && document[|document| - 1].kid == kid)
    ensures IsLastOf(document, x, kid) <==> IsLastOf(document[..|document| - 1], x, kid)
  {
  }

  lemma {:induction false} LastWithMeans(document: seq<Jwk>, kid: string)
    ensures forall key :: LastWith(document, kid) == Some(key) <==>
              exists x: nat :: IsLastOf(document, x, kid) && document[x] == key
    ensures LastWith(document, kid) == None <==>
            forall x :: 0 <= x < |document| ==> !(IsSigningKey(document[x]) && document[x].kid == kid)
  {
    if document != [] {
      var n := |document| - 1;
      LastWithMeans(document[..n], kid);
      if IsSigningKey(document[n]) && document[n].kid == kid {
        assert IsLastOf(document, n, kid);
      } else {
        forall x: nat ensures IsLastOf(document, x, kid) <==> IsLastOf(document[..n], x, kid) {
          LastOfInit(document, x, kid);
        }
      }
    }
  }

  /** The last acceptable key with this kid in the document. */
  ghost function LastWith(document: seq<Jwk>, kid: string): (r: Option<Jwk>)
    ensures r.Some? ==> r.value in document && Acceptable(r.value) && r.value.kid == kid
    ensures r.None? ==> forall key :: key in document && Acceptable(key) ==> key.kid != kid
  {
    if document == [] then None
    else
      var init, last := document[..|document| - 1], document[|document| - 1];
      assert document == init + [last];
      if Acceptable(last) && last.kid == kid then Some(last) else LastWith(init, kid)
  }

  lemma FilteredMeans(document: seq<Jwk>, keys: Keys)
    requires forall kid :: Find(keys, kid) == LastWith(document, kid)
    ensures |keys| == 0 <==> forall kid :: LastWith(document, kid) == None
    ensures |keys| == 0 <==> forall x :: 0 <= x < |document| ==> !IsSigningKey(document[x])
    ensures forall kid :: kid in keys ==> exists x: nat :: IsLastOf(document, x, kid)
    ensures forall x: nat, kid :: IsLastOf(document, x, kid) ==> kid in keys && keys[kid] == document[x]
  {
    forall kid | kid in keys ensures exists x: nat :: IsLastOf(document, x, kid) {
      assert Find(keys, kid) == LastWith(document, kid);
      LastWithMeans(document, kid);
    }
    forall x: nat, kid | IsLastOf(document, x, kid) ensures kid in keys && keys[kid] == document[x] {
      LastWithMeans(document, kid);
      assert Find(keys, kid) == LastWith(document, kid) == Some(document[x]);
    }
    forall x | 0 <= x < |document| && IsSigningKey(document[x]) ensures document[x].kid in keys {
      LastWithMeans(document, document[x].kid);
      assert Find(keys, document[x].kid) == LastWith(document, document[x].kid);
    }
    if |keys| > 0 {
      var kid :| kid in keys;
      assert Find(keys, kid) == LastWith(document, kid);
      var x: nat :| IsLastOf(document, x, kid);
    } else {
      forall kid ensures LastWith(document, kid) == None {
        assert Find(keys, kid) == LastWith(document, kid);
      }
    }
  }

  ghost function Find(keys: Keys, kid: string): Option<Jwk> {
    if kid in keys then Some(keys[kid]) else None
  }

  /** Keeps the acceptable keys by kid, the last one where a kid repeats; a document without any is an error. */
  method FilterKeys(document: seq<Jwk>) returns (r: Option<Keys>)
    ensures r.None? <==> forall kid :: LastWith(document, kid) == None
    ensures r.Some? ==> forall kid :: Find(r.value, kid) == LastWith(document, kid)
    ensures r.None? <==> forall x :: 0 <= x < |document| ==> !IsSigningKey(document[x])
    ensures r.Some? ==> forall kid :: kid in r.value ==> exists x: nat :: IsLastOf(document, x, kid)
    ensures r.Some? ==> forall x: nat, kid :: IsLastOf(document, x, kid) ==>
                          kid in r.value && r.value[kid] == document[x]
  {
    var keys: Keys := map[];
    for i := 0 to |document|
      invariant forall kid :: Find(keys, kid) == LastWith(document[..i], kid)
    {
      assert document[..i + 1][..i] == document[..i];
      if Acceptable(document[i]) {
        keys := keys[document[i].kid := document[i]];
      }
    }
    assert document[..|document|] == document;
    FilteredMeans(document, keys);
    if |keys| == 0 {
      return None;
    }
    return Some(keys);
  }

  // ---- The cache ----

  datatype Cache = Cache(fetchedAt: Option<int>, lastAttempt: Option<int>, keys: Keys)

  const EMPTY_CACHE := Cache(None, None, map[])

  datatype JwkError = KeyDiscovery | InvalidToken

  /** `Instant::elapsed`, which never goes below zero. */
  function Elapsed(since: int, now: int): nat {
    if now > since then now - since else 0
  }

  function CachedJwk(cache: Cache, kid: string, ttl: nat, now: int): Option<Jwk> {
    if cache.fetchedAt.Some? && Elapsed(cache.fetchedAt.value, now) < ttl && kid in cache.keys
    then Some(cache.keys[kid]) else None
  }

  predicate MayFetch(cache: Cache, now: int) {
    cache.lastAttempt.Some? ==> Elapsed(cache.lastAttempt.value, now) >= JWKS_MIN_REFRESH_INTERVAL
  }

  /** The lookup that ends `jwk_for` after a refresh was tried or skipped. */
  function FinalJwk(cache: Cache, kid: string, ttl: nat, now: int): Result<Jwk, JwkError> {
    if cache.fetchedAt.None? || Elapsed(cache.fetchedAt.value, now) >= ttl + JWKS_MAX_STALENESS then Err(KeyDiscovery)
    else if kid in cache.keys then Ok(cache.keys[kid]) else Err(InvalidToken)
  }

  class JwksCache {
    var cache: Cache

    constructor ()
      ensures cache == EMPTY_CACHE
    {
      cache := EMPTY_CACHE;
    }

    /**
     * Claims the right to fetch, stamping the attempt with a second clock reading. A claim that is
     * granted shuts out every other claim for 60 seconds from the stamp; lookups see no difference.
     */
    method TryStamp(now: int, later: int) returns (allowed: bool)
      modifies this
      ensures allowed <==>
              old(cache).lastAttempt.None? || now >= old(cache).lastAttempt.value + JWKS_MIN_REFRESH_INTERVAL
      ensures allowed ==> forall t :: MayFetch(cache, t) <==> t >= later + JWKS_MIN_REFRESH_INTERVAL
      ensures !allowed ==> cache == old(cache)
      ensures forall kid, ttl, t :: CachedJwk(cache, kid, ttl, t) == CachedJwk(old(cache), kid, ttl, t)
                                    && FinalJwk(cache, kid, ttl, t) == FinalJwk(old(cache), kid, ttl, t)
    {
      allowed := MayFetch(cache, now);
      if allowed {
        cache := cache.(lastAttempt := Some(later));
      }
    }

    /**
     * From the stored fetch on, and with no trace of the one before, lookups serve exactly the new
     * keys until they are too old; who may fetch next does not change.
     */
    method StoreKeys(keys: Keys, now: int)
      modifies this
      ensures forall kid, ttl: nat, t :: now <= t ==> FinalJwk(cache, kid, ttl, t) == AnswerFrom(keys, now, kid, ttl, t)
      ensures forall kid, ttl: nat, t :: now <= t < now + ttl ==>
                CachedJwk(cache, kid, ttl, t) == if kid in keys then Some(keys[kid]) else None
      ensures forall t :: MayFetch(cache, t) <==> MayFetch(old(cache), t)
    {
      cache := cache.(keys := keys);
      cache := cache.(fetchedAt := Some(now));
    }
  }

  /** What a fetch of `keys`, stored at `at`, answers at `now`: its keys until it is ttl plus 24 hours old. */
  function AnswerFrom(keys: Keys, at: int, kid: string, ttl: nat, now: int): Result<Jwk, JwkError> {
    if now - at >= ttl + JWKS_MAX_STALENESS then Err(KeyDiscovery)
    else if kid in keys then Ok(keys[kid]) else Err(InvalidToken)
  }

  // ---- Callers ----

  datatype Pc =
    | Start
    | Waiting
    | Rechecking
    | Stamping
    | Fetching
    | Storing(keys: Keys)
    | Answering
    | Answered(result: Result<Jwk, JwkError>)
    | Gone

  datatype World = World(kids: map<nat, string>, ttl: nat)

  datatype State = State(clock: int, cache: Cache, pcs: map<nat, Pc>)

  datatype Event =
    | Look(c: nat, now: int)
    | Acquire(c: nat)
    | Recheck(c: nat, now: int)
    | Stamp(c: nat, now: int, later: int)
    | FetchEnds(c: nat, fetched: Option<Keys>)
    | Store(c: nat, now: int)
    | Answer(c: nat, now: int)
    | Cancel(c: nat)

  /** The caller holds the refresh mutex. */
  predicate Refreshing(pc: Pc) {
    pc.Rechecking? || pc.Stamping? || pc.Fetching? || pc.Storing? || pc.Answering?
  }

  ghost predicate Enabled(w: World, s: State, ev: Event) {
    && ev.c in w.kids && ev.c in s.pcs
    && var pc := s.pcs[ev.c];
       match ev
       case Look(_, now) => pc.Start? && s.clock <= now
       case Acquire(_) => pc.Waiting? && forall d :: d in s.pcs ==> !Refreshing(s.pcs[d])
       case Recheck(_, now) => pc.Rechecking? && s.clock <= now
       case Stamp(_, now, later) => pc.Stamping? && s.clock <= now <= later
       case FetchEnds(_, _) => pc.Fetching?
       case Store(_, now) => pc.Storing? && s.clock <= now
       case Answer(_, now) => pc.Answering? && s.clock <= now
       case Cancel(_) => !pc.Answered? && !pc.Gone?
  }

  function Next(w: World, s: State, ev: Event): State
    requires ev.c in w.kids && ev.c in s.pcs
  {
    var c := ev.c;
    var kid := w.kids[c];
    match ev
    case Look(_, now) =>
      var hit := CachedJwk(s.cache, kid, w.ttl, now);
      s.(clock := now, pcs := s.pcs[c := if hit.Some? then Answered(Ok(hit.value)) else Waiting])
    case Acquire(_) => s.(pcs := s.pcs[c := Rechecking])
    case Recheck(_, now) =>
      var hit := CachedJwk(s.cache, kid, w.ttl, now);
      s.(clock := now, pcs := s.pcs[c := if hit.Some? then Answered(Ok(hit.value)) else Stamping])
    case Stamp(_, now, later) =>
      if MayFetch(s.cache, now) then
        s.(clock := later, cache := s.cache.(lastAttempt := Some(later)), pcs := s.pcs[c := Fetching])
      else s.(clock := later, pcs := s.pcs[c := Answering])
    case FetchEnds(_, fetched) =>
      s.(pcs := s.pcs[c := if fetched.Some? then Storing(fetched.value) else Answering])
    case Store(_, now) =>
      if !s.pcs[c].Storing? then s
      else s.(clock := now, cache := Cache(Some(now), s.cache.lastAttempt, s.pcs[c].keys), pcs := s.pcs[c := Answering])
    case Answer(_, now) => s.(clock := now, pcs := s.pcs[c := Answered(FinalJwk(s.cache, kid, w.ttl, now))])
    case Cancel(_) => s.(pcs := s.pcs[c := Gone])
  }

  ghost predicate Init(w: World, s: State) {
    && s.cache == EMPTY_CACHE
    && s.pcs.Keys == w.kids.Keys
    && forall c :: c in s.pcs ==> s.pcs[c] == Start
  }

  ghost predicate IsRun(w: World, states: seq<State>, events: seq<Event>) {
    && |states| == |events| + 1
    && Init(w, states[0])
    && forall i :: 0 <= i < |events| ==>
         Enabled(w, states[i], events[i]) && states[i + 1] == Next(w, states[i], events[i])
  }

  // ---- The invariant ----

  ghost predicate Inv(w: World, s: State) {
    && s.pcs.Keys == w.kids.Keys
    && (forall c, d :: c in s.pcs && d in s.pcs && Refreshing(s.pcs[c]) && Refreshing(s.pcs[d]) ==> c == d)
    && (s.cache.lastAttempt.Some? ==> s.cache.lastAttempt.value <= s.clock)
    && (s.cache.fetchedAt.Some? ==> s.cache.fetchedAt.value <= s.clock)
  }

  lemma StepKeepsInv(w: World, s: State, ev: Event)
    requires Enabled(w, s, ev) && Inv(w, s)
    ensures Inv(w, Next(w, s, ev)) && s.clock <= Next(w, s, ev).clock
  {
  }

  lemma {:induction false} RunKeepsInv(w: World, states: seq<State>, events: seq<Event>, i: nat)
    requires IsRun(w, states, events) && i < |states|
    ensures Inv(w, states[i])
  {
    if i > 0 {
      RunKeepsInv(w, states, events, i - 1);
      StepKeepsInv(w, states[i - 1], events[i - 1]);
    }
  }

  /** At most one fetch is in progress at any time. */
  lemma OneFetchAtATime(w: World, states: seq<State>, events: seq<Event>, i: nat, c: nat, d: nat)
    requires IsRun(w, states, events) && i < |states| && c in states[i].pcs && d in states[i].pcs
    requires states[i].pcs[c].Fetching? && states[i].pcs[d].Fetching?
    ensures c == d
  {
    RunKeepsInv(w, states, events, i);
  }

  // ---- Stamps and fetches, as observed along a run ----

  /** The values the attempt stamp has taken on by state `i`, in order. */
  ghost function Stamps(states: seq<State>, i: nat): seq<int>
    requires i < |states|
  {
    if i == 0 then []
    else
      var before, after := states[i - 1].cache.lastAttempt, states[i].cache.lastAttempt;
      Stamps(states, i - 1) + (if after != before && after.Some? then [after.value] else [])
  }

  /** The callers that begin a fetch between states `i` and `i + 1`. */
  ghost function Beginners(states: seq<State>, i: nat): set<nat>
    requires i + 1 < |states|
  {
    set c | c in states[i + 1].pcs && states[i + 1].pcs[c].Fetching?
        && !(c in states[i].pcs && states[i].pcs[c].Fetching?)
  }

  /** How many fetches have begun by state `i`. */
  ghost function FetchesBegun(states: seq<State>, i: nat): nat
    requires i < |states|
  {
    if i == 0 then 0 else FetchesBegun(states, i - 1) + |Beginners(states, i - 1)|
  }

  ghost predicate Spaced(stamps: seq<int>) {
    forall i :: 0 <= i < |stamps| - 1 ==> stamps[i] + JWKS_MIN_REFRESH_INTERVAL <= stamps[i + 1]
  }

  /** One step: it begins a fetch exactly when it moves the stamp, and then by 60 seconds or more. */
  lemma StepStamps(w: World, states: seq<State>, events: seq<Event>, i: nat)
    requires IsRun(w, states, events) && i < |events|
    ensures var before, after := states[i].cache.lastAttempt, states[i + 1].cache.lastAttempt;
            && states[i].clock <= states[i + 1].clock
            && |Beginners(states, i)| == (if after != before then 1 else 0)
            && (after != before ==> after.Some? && after.value == states[i + 1].clock
                                    && (before.Some? ==> before.value + JWKS_MIN_REFRESH_INTERVAL <= after.value))
  {
    RunKeepsInv(w, states, events, i);
    StepKeepsInv(w, states[i], events[i]);
    var s, ev := states[i], events[i];
    if ev.Stamp? && MayFetch(s.cache, ev.now) {
      assert Beginners(states, i) == {ev.c};
    } else {
      assert Beginners(states, i) == {};
    }
  }

  lemma SpacedStep(stamps: seq<int>, before: Option<int>, after: Option<int>)
    requires Spaced(stamps) && before == if stamps == [] then None else Some(stamps[|stamps| - 1])
    requires after != before
             ==> after.Some? && (before.Some? ==> before.value + JWKS_MIN_REFRESH_INTERVAL <= after.value)
    ensures Spaced(stamps + (if after != before && after.Some? then [after.value] else []))
  {
  }

  /** Stamps are at least 60 seconds apart, and exactly as many fetches have begun as stamps were made. */
  lemma {:induction false} OneFetchPerStamp(w: World, states: seq<State>, events: seq<Event>, i: nat)
    requires IsRun(w, states, events) && i < |states|
    ensures Spaced(Stamps(states, i)) && FetchesBegun(states, i) == |Stamps(states, i)|
    ensures var stamps := Stamps(states, i);
            states[i].cache.lastAttempt == if stamps == [] then None else Some(stamps[|stamps| - 1])
  {
    if i > 0 {
      OneFetchPerStamp(w, states, events, i - 1);
      StepStamps(w, states, events, i - 1);
      SpacedStep(Stamps(states, i - 1), states[i - 1].cache.lastAttempt, states[i].cache.lastAttempt);
    }
  }

  /** What the spacing of fetches is about: the clock, the attempt stamp and the fetches begun at one state. */
  datatype Sample = Sample(clock: int, stamp: Option<int>, begun: nat)

  ghost function SampleAt(states: seq<State>, i: nat): Sample
    requires i < |states|
  {
    Sample(states[i].clock, states[i].cache.lastAttempt, FetchesBegun(states, i))
  }

  /** From one sample to the next at most one fetch begins, and only with a new stamp a minute past the old one. */
  ghost predicate Paced(a: Sample, b: Sample) {
    && a.clock <= b.clock && b.begun == a.begun + (if b.stamp != a.stamp then 1 else 0)
    && (b.stamp != a.stamp ==> b.stamp == Some(b.clock)
                               && (a.stamp.Some? ==> a.stamp.value + JWKS_MIN_REFRESH_INTERVAL <= b.clock))
  }

  /** After n fetches from `a` on, the stamp is at least n - 1 minutes past the clock at `a`. */
  ghost predicate Covers(a: Sample, b: Sample) {
    && a.clock <= b.clock && a.begun <= b.begun
    && (a.begun < b.begun ==>
          b.stamp.Some? && JWKS_MIN_REFRESH_INTERVAL * (b.begun - a.begun - 1) <= b.stamp.value - a.clock)
  }

  lemma {:induction false} PaceCovers(samples: seq<Sample>, i: nat, j: nat)
    requires i <= j < |samples| && forall n :: 0 <= n < |samples| - 1 ==> Paced(samples[n], samples[n + 1])
    ensures Covers(samples[i], samples[j])
    decreases j
  {
    if i < j {
      PaceCovers(samples, i, j - 1);
      assert Paced(samples[j - 1], samples[j - 1 + 1]);
    }
  }

  lemma StepIsPaced(w: World, states: seq<State>, events: seq<Event>, i: nat)
    requires IsRun(w, states, events) && i < |events|
    ensures Paced(SampleAt(states, i), SampleAt(states, i + 1))
  {
    StepStamps(w, states, events, i);
  }

  lemma RunCovers(w: World, states: seq<State>, events: seq<Event>, i: nat, j: nat)
    requires IsRun(w, states, events) && i <= j < |states|
    ensures Covers(SampleAt(states, i), SampleAt(states, j))
  {
    var samples := seq(|states|, n requires 0 <= n < |states| => SampleAt(states, n));
    forall n | 0 <= n < |samples| - 1 ensures Paced(samples[n], samples[n + 1]) {
      StepIsPaced(w, states, events, n);
    }
    PaceCovers(samples, i, j);
  }

  ghost predicate StampPast(a: Sample) {
    a.stamp.Some? ==> a.stamp.value <= a.clock
  }

  lemma StampIsPast(w: World, states: seq<State>, events: seq<Event>, i: nat)
    requires IsRun(w, states, events) && i < |states|
    ensures StampPast(SampleAt(states, i))
  {
    RunKeepsInv(w, states, events, i);
  }

  lemma CoversMeaning(a: Sample, b: Sample)
    requires Covers(a, b) && StampPast(b)
    ensures a.begun <= b.begun
    ensures b.begun > a.begun ==> JWKS_MIN_REFRESH_INTERVAL * (b.begun - a.begun - 1) <= b.clock - a.clock
  {
  }

  /**
   * Whatever the callers, failures and cancellations: between two states of a run the fetches begun
   * are at most one more than the full minutes that pass.
   */
  lemma FetchesAreSpaced(w: World, states: seq<State>, events: seq<Event>, i: nat, j: nat)
    requires IsRun(w, states, events) && i <= j < |states|
    ensures FetchesBegun(states, i) <= FetchesBegun(states, j)
    ensures FetchesBegun(states, j) > FetchesBegun(states, i) ==>
              JWKS_MIN_REFRESH_INTERVAL * (FetchesBegun(states, j) - FetchesBegun(states, i) - 1)
              <= states[j].clock - states[i].clock
  {
    RunCovers(w, states, events, i, j);
    StampIsPast(w, states, events, j);
    CoversMeaning(SampleAt(states, i), SampleAt(states, j));
  }

  // ---- Which fetch an answer comes from ----

  predicate Succeeds(ev: Event) {
    ev.FetchEnds? && ev.fetched.Some?
  }

  /** No event of caller `c` from `lo` up to `hi`. */
  ghost predicate Quiet(events: seq<Event>, c: nat, lo: nat, hi: nat)
    requires hi <= |events|
  {
    forall q :: lo <= q < hi ==> events[q].c != c
  }

  /** The fetch that succeeded at event `j` is stored at event `m`, its caller's next. */
  ghost predicate StoredAt(events: seq<Event>, j: nat, m: nat) {
    && j < m < |events| && Succeeds(events[j]) && events[m].Store? && events[m].c == events[j].c
    && Quiet(events, events[j].c, j + 1, m)
  }

  /** The fetch that succeeded at event `j` is lost at event `m`: its caller is cancelled before storing it. */
  ghost predicate LostAt(events: seq<Event>, j: nat, m: nat) {
    && j < m < |events| && Succeeds(events[j]) && events[m].Cancel? && events[m].c == events[j].c
    && Quiet(events, events[j].c, j + 1, m)
  }

  ghost predicate StoredBefore(events: seq<Event>, j: nat, i: nat) {
    exists m: nat :: m < i && StoredAt(events, j, m)
  }

  ghost predicate LostBefore(events: seq<Event>, j: nat, i: nat) {
    exists m: nat :: m < i && LostAt(events, j, m)
  }

  /** A fetch that succeeded is in its caller's hands, under the mutex, until that caller's next event. */
  lemma {:induction false} FetchIsHeld(w: World, states: seq<State>, events: seq<Event>, j: nat, i: nat)
    requires IsRun(w, states, events) && j < i < |states| && Succeeds(events[j]) && Quiet(events, events[j].c, j + 1, i)
    ensures events[j].c in states[i].pcs && states[i].pcs[events[j].c] == Storing(events[j].fetched.value)
    ensures forall d :: d in states[i].pcs && d != events[j].c ==> !Refreshing(states[i].pcs[d])
    decreases i
  {
    RunKeepsInv(w, states, events, i);
    assert Enabled(w, states[i - 1], events[i - 1]);
    if j < i - 1 {
      FetchIsHeld(w, states, events, j, i - 1);
    }
  }

  /**
   * What becomes of a successful fetch: its own caller still holds it, or stored it, or was cancelled
   * with it; until then nobody else holds the refresh mutex.
   */
  lemma FetchIsStoredOrLost(w: World, states: seq<State>, events: seq<Event>, j: nat, i: nat)
    requires IsRun(w, states, events) && j < i < |states| && Succeeds(events[j])
    ensures events[j].c in states[i].pcs
    ensures || (Quiet(events, events[j].c, j + 1, i) && states[i].pcs[events[j].c] == Storing(events[j].fetched.value))
            || StoredBefore(events, j, i)
            || (LostBefore(events, j, i) && states[i].pcs[events[j].c] == Gone)
    ensures forall q, d ::
              (j < q <= i && Quiet(events, events[j].c, j + 1, q) && d in states[q].pcs && d != events[j].c) ==>
              !Refreshing(states[q].pcs[d])
  {
    forall q, d | j < q <= i && Quiet(events, events[j].c, j + 1, q) && d in states[q].pcs && d != events[j].c
      ensures !Refreshing(states[q].pcs[d])
    {
      FetchIsHeld(w, states, events, j, q);
    }
    RunKeepsInv(w, states, events, i);
    assert Enabled(w, states[j], events[j]);
    if Quiet(events, events[j].c, j + 1, i) {
      FetchIsHeld(w, states, events, j, i);
    } else {
      var m := NextOf(events, events[j].c, j + 1, i);
      FetchIsHeld(w, states, events, j, m);
      assert Enabled(w, states[m], events[m]);
      assert StoredAt(events, j, m) || LostAt(events, j, m);
      if LostAt(events, j, m) {
        GoneStays(w, states, events, m + 1, i, events[j].c);
      }
    }
  }

  lemma {:induction false} GoneStays(w: World, states: seq<State>, events: seq<Event>, m: nat, i: nat, c: nat)
    requires IsRun(w, states, events) && m <= i < |states| && c in states[m].pcs && states[m].pcs[c] == Gone
    ensures c in states[i].pcs && states[i].pcs[c] == Gone
    decreases i
  {
    if m < i {
      GoneStays(w, states, events, m, i - 1, c);
      assert Enabled(w, states[i - 1], events[i - 1]);
    }
  }

  /** The first event of caller `c` from `lo` on. */
  lemma {:induction false} NextOf(events: seq<Event>, c: nat, lo: nat, hi: nat) returns (m: nat)
    requires lo <= hi <= |events| && !Quiet(events, c, lo, hi)
    ensures lo <= m < hi && events[m].c == c && Quiet(events, c, lo, m)
    decreases hi - lo
  {
    if events[lo].c == c {
      m := lo;
    } else {
      m := NextOf(events, c, lo + 1, hi);
    }
  }

  /** Keys in a caller's hands came from its own successful fetch. */
  lemma {:induction false} HeldKeysWereFetched(w: World, states: seq<State>, events: seq<Event>, i: nat, c: nat)
    returns (j: nat)
    requires IsRun(w, states, events) && i < |states| && c in states[i].pcs && states[i].pcs[c].Storing?
    ensures j < i && Succeeds(events[j]) && events[j].c == c && Quiet(events, c, j + 1, i)
    ensures states[i].pcs[c].keys == events[j].fetched.value
  {
    assert Enabled(w, states[i - 1], events[i - 1]);
    if events[i - 1].c == c {
      j := i - 1;
    } else {
      j := HeldKeysWereFetched(w, states, events, i - 1, c);
    }
  }

  ghost predicate NoStore(events: seq<Event>, lo: nat, hi: nat)
    requires hi <= |events|
  {
    forall q :: lo <= q < hi ==> !events[q].Store?
  }

  /** Fetch `j`, stored at event `m`, is what the cache holds after `i` events. */
  ghost predicate Holds(events: seq<Event>, i: nat, j: nat, m: nat)
    requires i <= |events|
  {
    StoredAt(events, j, m) && m < i && NoStore(events, m + 1, i)
  }

  ghost predicate Serves(events: seq<Event>, i: nat, j: nat)
    requires i <= |events|
  {
    exists m: nat :: Holds(events, i, j, m)
  }

  /** The cache is empty until a first store, and from then on what the last stored fetch put there. */
  lemma {:induction false} CacheIsLastStored(w: World, states: seq<State>, events: seq<Event>, i: nat)
    requires IsRun(w, states, events) && i < |states|
    ensures NoStore(events, 0, i) ==> states[i].cache.fetchedAt == None
    ensures !NoStore(events, 0, i) ==> exists j: nat, m: nat :: Holds(events, i, j, m)
    ensures forall j: nat, m: nat :: Holds(events, i, j, m) ==>
              states[i].cache.keys == events[j].fetched.value && states[i].cache.fetchedAt == Some(events[m].now)
  {
    if i > 0 {
      var s, ev := states[i - 1], events[i - 1];
      CacheIsLastStored(w, states, events, i - 1);
      assert Enabled(w, s, ev);
      if ev.Store? {
        var j := HeldKeysWereFetched(w, states, events, i - 1, ev.c);
        StoreIsHeld(events, i - 1, i, j);
      } else {
        HoldsLater(events, i - 1, i);
        assert NoStore(events, 0, i) <==> NoStore(events, 0, i - 1);
      }
    }
  }

  lemma HoldsLater(events: seq<Event>, i: nat, next: nat)
    requires next == i + 1 <= |events| && !events[i].Store?
    ensures forall j: nat, m: nat :: Holds(events, next, j, m) <==> Holds(events, i, j, m)
  {
  }

  /** Right after a store, the fetch stored is the one its caller made last. */
  lemma StoreIsHeld(events: seq<Event>, m: nat, next: nat, j: nat)
    requires next == m + 1 <= |events| && StoredAt(events, j, m)
    ensures Holds(events, next, j, m)
    ensures forall j': nat, m': nat :: Holds(events, next, j', m') ==> m' == m && j' == j
  {
  }

  /** Event `i` makes its caller return. */
  ghost predicate Answers(states: seq<State>, events: seq<Event>, i: nat)
    requires |states| == |events| + 1 && i < |events|
  {
    events[i].c in states[i + 1].pcs && states[i + 1].pcs[events[i].c].Answered?
  }

  /**
   * Every answer is the one the last stored fetch gives at that moment: its keys until it is ttl plus
   * 24 hours old and never after, whichever path the call took and whatever failed or was cancelled
   * since; before any store there is none to give.
   */
  lemma EveryAnswerIsRight(w: World, states: seq<State>, events: seq<Event>, i: nat)
    requires IsRun(w, states, events) && i < |events| && Answers(states, events, i)
    ensures NoStore(events, 0, i) ==> states[i + 1].pcs[events[i].c].result == Err(KeyDiscovery)
    ensures !NoStore(events, 0, i) ==> exists j: nat, m: nat :: Holds(events, i, j, m)
    ensures forall j: nat, m: nat :: Holds(events, i, j, m) ==>
              states[i + 1].pcs[events[i].c].result
              == AnswerFrom(events[j].fetched.value, events[m].now, w.kids[events[i].c], w.ttl, states[i + 1].clock)
  {
    RunKeepsInv(w, states, events, i);
    CacheIsLastStored(w, states, events, i);
    assert Enabled(w, states[i], events[i]);
  }

  /** `j` is the last fetch that succeeded before event `i`. */
  ghost predicate LatestSuccess(events: seq<Event>, i: nat, j: nat)
    requires i <= |events|
  {
    j < i && Succeeds(events[j]) && forall q :: j < q < i ==> !Succeeds(events[q])
  }

  /**
   * The cache serves the latest successful fetch exactly when that fetch's caller has stored it. A
   * caller that holds the refresh mutex therefore sees it exactly when its fetcher was not cancelled
   * first; one that only looks may also come before the store.
   */
  lemma LatestSuccessIsServedIffStored(w: World, states: seq<State>, events: seq<Event>, i: nat, j: nat)
    requires IsRun(w, states, events) && i < |states| && LatestSuccess(events, i, j)
    ensures Serves(events, i, j) <==> StoredBefore(events, j, i)
    ensures (exists d :: d in states[i].pcs && Refreshing(states[i].pcs[d]) && !states[i].pcs[d].Storing?) ==>
              (Serves(events, i, j) <==> !LostBefore(events, j, i))
  {
    FetchIsStoredOrLost(w, states, events, j, i);
    if StoredBefore(events, j, i) {
      var m: nat :| m < i && StoredAt(events, j, m);
      StoredStays(w, states, events, i, j, m);
      NotBoth(events, j, i);
    }
  }

  lemma NotBoth(events: seq<Event>, j: nat, i: nat)
    ensures !(StoredBefore(events, j, i) && LostBefore(events, j, i))
  {
  }

  /** Before another fetch can succeed, the caller of the one before has moved on. */
  lemma NoNewerWhileHeld(w: World, states: seq<State>, events: seq<Event>, j: nat, j': nat)
    requires IsRun(w, states, events) && j < j' < |events| && Succeeds(events[j]) && Succeeds(events[j'])
    ensures !Quiet(events, events[j].c, j + 1, j')
  {
    assert Enabled(w, states[j'], events[j']);
    if Quiet(events, events[j].c, j + 1, j') {
      FetchIsHeld(w, states, events, j, j');
    }
  }

  /** Nothing is stored after the latest successful fetch was. */
  lemma StoredStays(w: World, states: seq<State>, events: seq<Event>, i: nat, j: nat, m: nat)
    requires IsRun(w, states, events) && i < |states| && LatestSuccess(events, i, j) && m < i && StoredAt(events, j, m)
    ensures Holds(events, i, j, m)
  {
    forall q | m < q < i ensures !events[q].Store? {
      if events[q].Store? {
        assert Enabled(w, states[q], events[q]);
        var j' := HeldKeysWereFetched(w, states, events, q, events[q].c);
        if j' < j {
          NoNewerWhileHeld(w, states, events, j', j);
        }
      }
    }
  }

  /**
   * An answer comes from the latest successful fetch exactly when that fetch was stored first; for a
   * caller that went through the refresh mutex, exactly when its fetcher was not cancelled before
   * storing it.
   */
  lemma AnswerIsLatestSuccessIffNotLost(w: World, states: seq<State>, events: seq<Event>, i: nat, j: nat)
    requires IsRun(w, states, events) && i < |events| && Answers(states, events, i) && LatestSuccess(events, i, j)
    ensures Serves(events, i, j) <==> StoredBefore(events, j, i)
    ensures !events[i].Look? ==> (Serves(events, i, j) <==> !LostBefore(events, j, i))
    ensures forall m: nat :: Holds(events, i, j, m) ==>
              states[i + 1].pcs[events[i].c].result
              == AnswerFrom(events[j].fetched.value, events[m].now, w.kids[events[i].c], w.ttl, states[i + 1].clock)
  {
    LatestSuccessIsServedIffStored(w, states, events, i, j);
    EveryAnswerIsRight(w, states, events, i);
    assert Enabled(w, states[i], events[i]);
  }

  // ---- A fetch lost to cancellation ----

  lemma Extend(w: World, states: seq<State>, events: seq<Event>, ev: Event)
      returns (states': seq<State>, events': seq<Event>)
    requires IsRun(w, states, events) && Enabled(w, states[|events|], ev)
    ensures states' == states + [Next(w, states[|events|], ev)] && events' == events + [ev]
            && IsRun(w, states', events')
  {
    states', events' := states + [Next(w, states[|events|], ev)], events + [ev];
  }

  /** A caller that misses goes through the mutex and fetches successfully. */
  lemma Refresh(w: World, states: seq<State>, events: seq<Event>, c: nat, now: int, keys: Keys)
    returns (states': seq<State>, events': seq<Event>)
    requires IsRun(w, states, events) && c in w.kids && c in states[|events|].pcs
    requires var s := states[|events|];
             && s.pcs[c] == Start && s.clock <= now && MayFetch(s.cache, now)
             && CachedJwk(s.cache, w.kids[c], w.ttl, now) == None
             && forall d :: d in s.pcs ==> !Refreshing(s.pcs[d])
    ensures IsRun(w, states', events') && |events'| == |events| + 5 && events <= events'
    ensures events'[|events| + 4] == FetchEnds(c, Some(keys))
    ensures var s := states[|events|];
            states'[|events'|] == State(now, s.cache.(lastAttempt := Some(now)), s.pcs[c := Storing(keys)])
  {
    var s := states[|events|];
    states', events' := Extend(w, states, events, Look(c, now));
    assert states'[|events'|] == s.(clock := now, pcs := s.pcs[c := Waiting]);
    states', events' := Extend(w, states', events', Acquire(c));
    states', events' := Extend(w, states', events', Recheck(c, now));
    assert states'[|events'|].pcs == s.pcs[c := Stamping];
    states', events' := Extend(w, states', events', Stamp(c, now, now));
    states', events' := Extend(w, states', events', FetchEnds(c, Some(keys)));
  }

  const THREE_CALLERS := World(map[0 := "a", 1 := "b", 2 := "a"], 300)

  /** Caller 0 fetches, stores and returns. */
  lemma FirstRefresh(key: Jwk) returns (states: seq<State>, events: seq<Event>)
    ensures var w := THREE_CALLERS;
            IsRun(w, states, events) && states[|events|].clock == 0
            && states[|events|].cache == Cache(Some(0), Some(0), map["a" := key])
            && (exists r :: states[|events|].pcs == map[0 := Answered(r), 1 := Start, 2 := Start])
  {
    var w := THREE_CALLERS;
    states, events := [State(0, EMPTY_CACHE, map[0 := Start, 1 := Start, 2 := Start])], [];
    states, events := Refresh(w, states, events, 0, 0, map["a" := key]);
    states, events := Extend(w, states, events, Store(0, 0));
    states, events := Extend(w, states, events, Answer(0, 0));
    var r := states[|events|].pcs[0].result;
    assert states[|events|].pcs == map[0 := Answered(r), 1 := Start, 2 := Start];
  }

  /** Caller 1, after another kid, fetches and is cancelled. */
  lemma LostRefresh(older: Jwk, newer: Jwk) returns (states: seq<State>, events: seq<Event>, j: nat)
    ensures var w := THREE_CALLERS;
            IsRun(w, states, events) && states[|events|].clock == 60
            && states[|events|].cache == Cache(Some(0), Some(60), map["a" := older])
            && 2 in states[|events|].pcs && states[|events|].pcs[2] == Start
    ensures |events| == j + 2 && events[j] == FetchEnds(1, Some(map["a" := newer])) && events[j + 1] == Cancel(1)
  {
    var w := THREE_CALLERS;
    states, events := FirstRefresh(older);
    assert "b" != "a" by { assert "b"[0] != "a"[0]; }
    states, events := Refresh(w, states, events, 1, 60, map["a" := newer]);
    j := |events| - 1;
    states, events := Extend(w, states, events, Cancel(1));
  }

  /**
   * A refresher cancelled after its fetch succeeded and before it stored the keys: the next caller for
   * that kid is served the older key, although the latest successful fetch has the newer one.
   */
  lemma LostFetchServesOlderKey(older: Jwk, newer: Jwk) returns (states: seq<State>, events: seq<Event>, j: nat)
    ensures IsRun(THREE_CALLERS, states, events) && LatestSuccess(events, |events|, j)
            && LostBefore(events, j, |events|)
    ensures events[j].fetched.value == map["a" := newer]
    ensures events[|events| - 1] == Look(2, 70) && THREE_CALLERS.kids[2] == "a"
    ensures 2 in states[|events|].pcs && states[|events|].pcs[2] == Answered(Ok(older))
  {
    states, events, j := LostRefresh(older, newer);
    states, events := Extend(THREE_CALLERS, states, events, Look(2, 70));
    assert LostAt(events, j, j + 1);
  }

  // ---- When a call is answered at once, and when it fetches ----

  /**
   * A look, first or under the mutex, answers exactly when the last stored fetch lists the kid and was
   * stored less than the time to live ago.
   */
  lemma LookAnswersIffFresh(w: World, states: seq<State>, events: seq<Event>, i: nat)
    requires IsRun(w, states, events) && i < |events| && (events[i].Look? || events[i].Recheck?)
    ensures Answers(states, events, i) <==>
            exists j: nat, m: nat :: Holds(events, i, j, m) && w.kids[events[i].c] in events[j].fetched.value
                                     && states[i + 1].clock - events[m].now < w.ttl
  {
    CacheIsLastStored(w, states, events, i);
    assert Enabled(w, states[i], events[i]);
    RunKeepsInv(w, states, events, i);
  }

  /** A claim begins a fetch exactly when no stamp was made in the last 60 seconds; otherwise the call answers. */
  lemma ClaimFetchesIffSpaced(w: World, states: seq<State>, events: seq<Event>, i: nat)
    requires IsRun(w, states, events) && i < |events| && events[i].Stamp?
    ensures var stamps, c := Stamps(states, i), events[i].c;
            && c in states[i + 1].pcs
            && (states[i + 1].pcs[c].Fetching? <==>
                stamps == [] || events[i].now >= stamps[|stamps| - 1] + JWKS_MIN_REFRESH_INTERVAL)
            && (!states[i + 1].pcs[c].Fetching? ==> states[i + 1].pcs[c].Answering?)
  {
    OneFetchPerStamp(w, states, events, i);
    assert Enabled(w, states[i], events[i]);
  }

  // ---- Every caller gets its answer ----

  /** The most steps a caller still takes. */
  ghost function StepsLeft(pc: Pc): nat {
    match pc
    case Start => 7
    case Waiting => 6
    case Rechecking => 5
    case Stamping => 4
    case Fetching => 3
    case Storing(_) => 2
    case Answering => 1
    case Answered(_) => 0
    case Gone => 0
  }

  ghost function OwnSteps(events: seq<Event>, i: nat, c: nat): nat
    requires i <= |events|
  {
    if i == 0 then 0 else OwnSteps(events, i - 1, c) + if events[i - 1].c == c then 1 else 0
  }

  lemma StepIsCounted(w: World, s: State, ev: Event, c: nat)
    requires Enabled(w, s, ev) && c in s.pcs
    ensures var pcs := Next(w, s, ev).pcs;
            && c in pcs
            && (if ev.c == c then StepsLeft(pcs[c]) < StepsLeft(s.pcs[c]) else pcs[c] == s.pcs[c])
            && (pcs[c].Gone? <==> s.pcs[c].Gone? || ev == Cancel(c))
  {
  }

  /** A caller takes at most seven steps, and it goes without an answer exactly if it is cancelled. */
  lemma {:induction false} CallersAreBounded(w: World, states: seq<State>, events: seq<Event>, i: nat, c: nat)
    requires IsRun(w, states, events) && i < |states| && c in w.kids
    ensures c in states[i].pcs && OwnSteps(events, i, c) + StepsLeft(states[i].pcs[c]) <= 7
    ensures states[i].pcs[c].Gone? <==> exists m :: 0 <= m < i && events[m] == Cancel(c)
  {
    if i > 0 {
      CallersAreBounded(w, states, events, i - 1, c);
      StepIsCounted(w, states[i - 1], events[i - 1], c);
    }
  }

  /** While a caller is waiting for its answer, some caller can step at any later time, without being cancelled. */
  lemma SomeCallerCanStep(w: World, s: State, c: nat, now: int, fetched: Option<Keys>) returns (ev: Event)
    requires s.pcs.Keys == w.kids.Keys && c in s.pcs && s.clock <= now
    requires !s.pcs[c].Answered? && !s.pcs[c].Gone?
    ensures !ev.Cancel? && Enabled(w, s, ev)
    ensures ev.FetchEnds? ==> ev.fetched == fetched
  {
    var d := c;
    if s.pcs[c].Waiting? && exists b :: b in s.pcs && Refreshing(s.pcs[b]) {
      d :| d in s.pcs && Refreshing(s.pcs[d]);
    }
    match s.pcs[d]
    case Start => ev := Look(d, now);
    case Waiting => ev := Acquire(d);
    case Rechecking => ev := Recheck(d, now);
    case Stamping => ev := Event.Stamp(d, now, now);
    case Fetching => ev := FetchEnds(d, fetched);
    case Storing(_) => ev := Event.Store(d, now);
    case Answering => ev := Event.Answer(d, now);
  }
}
