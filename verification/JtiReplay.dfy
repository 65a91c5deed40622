/** The replay cache of GitHub Actions OIDC tokens, keyed by `jti` (section 4.1.7 of RFC 7519). */
module JtiReplay {
  import opened Prelude
  import opened Expiring

  const MAX_SEEN_JTIS := 65536
  const JWT_LEEWAY_SECONDS := 60

  datatype JtiError = TokenReplayed | ReplayCacheUnavailable

  type Seen = map<string, Entry<()>>

  /** When a recorded jti may be forgotten: the token's remaining life by the wall clock, plus leeway. */
  function Until(exp: nat, now: int, wall: int): int {
    now + (if exp > wall then exp - wall else 0) + JWT_LEEWAY_SECONDS
  }

  datatype Recorded = Recorded(seen: Seen, result: Result<(), JtiError>)

  function Record(seen: Seen, jti: string, exp: nat, now: int, wall: int): Recorded {
    var kept := Retain(seen, now);
    if jti in kept then Recorded(kept, Err(TokenReplayed))
    else if |kept| >= MAX_SEEN_JTIS then Recorded(kept, Err(ReplayCacheUnavailable))
    else Recorded(kept[jti := Entry(Until(exp, now, wall), ())], Ok(()))
  }

  class JtiCache {
    var seen: Seen

    constructor ()
      ensures seen == map[]
    {
      seen := map[];
    }

    /** `record_jti` under its mutex; `now` and `wall` were read before. */
    method RecordJti(jti: string, exp: nat, now: int, wall: int) returns (result: Result<(), JtiError>)
      modifies this
      ensures Recorded(seen, result) == Record(old(seen), jti, exp, now, wall)
    {
      seen := Retain(seen, now);
      if jti in seen {
        return Err(TokenReplayed);
      }
      if |seen| >= MAX_SEEN_JTIS {
        return Err(ReplayCacheUnavailable);
      }
      seen := seen[jti := Entry(Until(exp, now, wall), ())];
      return Ok(());
    }
  }

  // ---- Runs ----

  /** One call of `record_jti`: the readings it took and the time `at` it held the lock. */
  datatype Attempt = Attempt(jti: string, exp: nat, now: int, wall: int, at: int)

  /** Lock times only grow, and no monotonic reading is later than its own lock time; wall readings are free. */
  ghost predicate Timed(attempts: seq<Attempt>) {
    && (forall i :: 0 <= i < |attempts| ==> attempts[i].now <= attempts[i].at)
    && (forall i, j :: 0 <= i < j < |attempts| ==> attempts[i].at <= attempts[j].at)
  }

  ghost predicate NondecreasingReadings(attempts: seq<Attempt>) {
    forall i, j :: 0 <= i < j < |attempts| ==> attempts[i].now <= attempts[j].now
  }

  /** The cache after a sequence of calls on an empty cache. */
  function After(attempts: seq<Attempt>): Seen {
    if attempts == [] then map[]
    else
      var a := attempts[|attempts| - 1];
      Record(After(attempts[..|attempts| - 1]), a.jti, a.exp, a.now, a.wall).seen
  }

  lemma AfterStep(attempts: seq<Attempt>, a: Attempt)
    ensures After(attempts + [a]) == Record(After(attempts), a.jti, a.exp, a.now, a.wall).seen
  {
    assert (attempts + [a])[..|attempts|] == attempts;
  }

  function ResultOf(attempts: seq<Attempt>, i: nat): Result<(), JtiError>
    requires i < |attempts|
  {
    var a := attempts[i];
    Record(After(attempts[..i]), a.jti, a.exp, a.now, a.wall).result
  }

  /** The promises made by the accepted calls. */
  function Promises(attempts: seq<Attempt>): seq<Promise<string>> {
    if attempts == [] then []
    else
      var n, a := |attempts| - 1, attempts[|attempts| - 1];
      var before := Promises(attempts[..n]);
      if Record(After(attempts[..n]), a.jti, a.exp, a.now, a.wall).result.Ok?
      then before + [Promise(a.jti, Until(a.exp, a.now, a.wall))] else before
  }

  lemma {:induction false} PromisesHonoured(attempts: seq<Attempt>, at: int)
    requires Timed(attempts) && (attempts != [] ==> attempts[|attempts| - 1].at <= at)
    ensures Honoured(After(attempts), at, Promises(attempts))
  {
    if attempts != [] {
      var n, a := |attempts| - 1, attempts[|attempts| - 1];
      var before := After(attempts[..n]);
      var kept := Retain(before, a.now);
      PromisesHonoured(attempts[..n], a.at);
      PurgeHonours(before, a.at, Promises(attempts[..n]), a.now, at);
      if a.jti !in kept {
        InsertHonours(kept, at, Promises(attempts[..n]), a.jti, Entry(Until(a.exp, a.now, a.wall), ()));
      }
    }
  }

  lemma {:induction false} AcceptedIsPromised(attempts: seq<Attempt>, i: nat) returns (p: nat)
    requires i < |attempts| && ResultOf(attempts, i).Ok?
    ensures p < |Promises(attempts)|
    ensures Promises(attempts)[p] == Promise(attempts[i].jti, Until(attempts[i].exp, attempts[i].now, attempts[i].wall))
  {
    var n := |attempts| - 1;
    if i == n {
      p := |Promises(attempts)| - 1;
    } else {
      assert attempts[..n][..i] == attempts[..i];
      p := AcceptedIsPromised(attempts[..n], i);
    }
  }

  /**
   * Between two acceptances of one jti the lock time passes the first one's expiry in the cache, even
   * when the calls read the clock long before they got the lock.
   */
  lemma AcceptancesAreApart(attempts: seq<Attempt>, i: nat, j: nat)
    requires Timed(attempts) && i < j < |attempts| && attempts[i].jti == attempts[j].jti
    requires ResultOf(attempts, i).Ok? && ResultOf(attempts, j).Ok?
    ensures attempts[j].at >= Until(attempts[i].exp, attempts[i].now, attempts[i].wall)
  {
    var a := attempts[j];
    var earlier := attempts[..j];
    assert earlier[..i] == attempts[..i];
    var p := AcceptedIsPromised(earlier, i);
    PromisesHonoured(earlier, a.at);
    PurgeHonours(After(earlier), a.at, Promises(earlier), a.now, a.at);
    assert Promises(earlier)[p].key == a.jti;
  }

  /** With both clocks showing the same time, that is the token's own expiry plus the leeway. */
  lemma OneAcceptancePerLifetime(attempts: seq<Attempt>, i: nat, j: nat)
    requires Timed(attempts) && i < j < |attempts| && attempts[i].jti == attempts[j].jti
    requires ResultOf(attempts, i).Ok? && ResultOf(attempts, j).Ok? && attempts[i].wall == attempts[i].now
    ensures attempts[j].at >= attempts[i].exp + JWT_LEEWAY_SECONDS
  {
    AcceptancesAreApart(attempts, i, j);
  }

  // ---- When exactly a jti can be accepted again ----

  lemma RetainShrinks(seen: Seen, now: int)
    ensures |Retain(seen, now)| <= |seen|
  {
    SubsetIsSmaller(Retain(seen, now).Keys, seen.Keys);
    assert |Retain(seen, now)| == |Retain(seen, now).Keys| && |seen| == |seen.Keys|;
  }

  lemma {:induction false} CacheIsBounded(attempts: seq<Attempt>)
    ensures |After(attempts)| <= MAX_SEEN_JTIS
  {
    if attempts != [] {
      var n, a := |attempts| - 1, attempts[|attempts| - 1];
      CacheIsBounded(attempts[..n]);
      RetainShrinks(After(attempts[..n]), a.now);
    }
  }

  /** An expired entry leaves room for itself even in a full cache. */
  lemma ExpiryMakesRoom(seen: Seen, jti: string, now: int)
    requires |seen| <= MAX_SEEN_JTIS && jti in seen && seen[jti].until <= now
    ensures jti !in Retain(seen, now) && |Retain(seen, now)| < MAX_SEEN_JTIS
  {
    var kept := Retain(seen, now);
    SubsetIsSmaller(kept.Keys, seen.Keys - {jti});
    assert |kept| == |kept.Keys| && |seen| == |seen.Keys|;
  }

  /** From its expiry in the cache on, a jti just accepted is accepted again. */
  lemma AcceptsAgain(attempts: seq<Attempt>, exp: nat, now: int, wall: int)
    requires attempts != [] && ResultOf(attempts, |attempts| - 1).Ok? && UntilOf(attempts[|attempts| - 1]) <= now
    ensures Record(After(attempts), attempts[|attempts| - 1].jti, exp, now, wall).result.Ok?
  {
    var a := attempts[|attempts| - 1];
    CacheIsBounded(attempts);
    ExpiryMakesRoom(After(attempts), a.jti, now);
  }

  /** `all` continues the run in time and ends with another acceptance of the jti just accepted. */
  ghost predicate AcceptedAgain(attempts: seq<Attempt>, all: seq<Attempt>)
    requires attempts != []
  {
    attempts < all && Timed(all) && all[|all| - 1].jti == attempts[|attempts| - 1].jti && ResultOf(all, |all| - 1).Ok?
  }

  ghost predicate CanBeAcceptedAgainBy(attempts: seq<Attempt>, deadline: int)
    requires attempts != []
  {
    exists all: seq<Attempt> :: AcceptedAgain(attempts, all) && all[|all| - 1].at <= deadline
  }

  /**
   * After an acceptance, some continuation of the run accepts the jti again at a lock time up to
   * `deadline` exactly when neither the first one's cache expiry nor its lock time is past it: no
   * more and no less is guaranteed, whatever the cache holds.
   */
  lemma AcceptedAgainByIff(attempts: seq<Attempt>, deadline: int)
    requires Timed(attempts) && attempts != [] && ResultOf(attempts, |attempts| - 1).Ok?
    ensures var a := attempts[|attempts| - 1];
            CanBeAcceptedAgainBy(attempts, deadline) <==> UntilOf(a) <= deadline && a.at <= deadline
  {
    var a := attempts[|attempts| - 1];
    if CanBeAcceptedAgainBy(attempts, deadline) {
      var all: seq<Attempt> :| AcceptedAgain(attempts, all) && all[|all| - 1].at <= deadline;
      SecondIsLater(attempts, all);
    }
    if UntilOf(a) <= deadline && a.at <= deadline {
      var b := RepeatIsAccepted(attempts);
      var all := attempts + [b];
      assert AcceptedAgain(attempts, all) && all[|all| - 1].at <= deadline;
    }
  }

  lemma SecondIsLater(attempts: seq<Attempt>, all: seq<Attempt>)
    requires attempts != [] && ResultOf(attempts, |attempts| - 1).Ok? && AcceptedAgain(attempts, all)
    ensures all[|all| - 1].at >= UntilOf(attempts[|attempts| - 1]) && all[|all| - 1].at >= attempts[|attempts| - 1].at
  {
    var n := |attempts|;
    assert all[n - 1] == attempts[n - 1] && all[..n - 1] == attempts[..n - 1];
    AcceptancesAreApart(all, n - 1, |all| - 1);
  }

  lemma RepeatIsAccepted(attempts: seq<Attempt>) returns (b: Attempt)
    requires Timed(attempts) && attempts != [] && ResultOf(attempts, |attempts| - 1).Ok?
    ensures AcceptedAgain(attempts, attempts + [b])
    ensures var a := attempts[|attempts| - 1]; b.at == if UntilOf(a) > a.at then UntilOf(a) else a.at
  {
    var a := attempts[|attempts| - 1];
    var t := if UntilOf(a) > a.at then UntilOf(a) else a.at;
    b := Attempt(a.jti, a.exp, t, t, t);
    AcceptsAgain(attempts, a.exp, t, t);
    var all := attempts + [b];
    TimedAppend(attempts, b);
    assert all[..|attempts|] == attempts && all[|attempts|] == b;
  }

  lemma TimedAppend(attempts: seq<Attempt>, a: Attempt)
    requires Timed(attempts) && a.now <= a.at && (attempts != [] ==> attempts[|attempts| - 1].at <= a.at)
    ensures Timed(attempts + [a])
  {
  }

  /**
   * The leeway is not always kept: a jti can be accepted again before exp plus 60 seconds exactly when
   * the token was still unexpired, time passed between the two readings of the first call, and that
   * call got the lock before exp plus 60.
   */
  lemma EarlyAcceptanceIff(attempts: seq<Attempt>)
    requires Timed(attempts) && attempts != [] && ResultOf(attempts, |attempts| - 1).Ok?
    ensures var a := attempts[|attempts| - 1];
            CanBeAcceptedAgainBy(attempts, a.exp + JWT_LEEWAY_SECONDS - 1)
            <==> a.now < a.exp && a.now < a.wall && a.at < a.exp + JWT_LEEWAY_SECONDS
  {
    AcceptedAgainByIff(attempts, attempts[|attempts| - 1].exp + JWT_LEEWAY_SECONDS - 1);
  }

  /** Such a run: ten seconds between the readings, and a second acceptance at 150, ten before exp plus 60. */
  lemma SkewedRunAcceptsTwice(jti: string)
    ensures var attempts := [Attempt(jti, 100, 0, 10, 10), Attempt(jti, 100, 150, 150, 150)];
            && Timed(attempts) && ResultOf(attempts, 0).Ok? && ResultOf(attempts, 1).Ok?
            && attempts[1].at < attempts[0].exp + JWT_LEEWAY_SECONDS
  {
    var a, b := Attempt(jti, 100, 0, 10, 10), Attempt(jti, 100, 150, 150, 150);
    assert [a, b][..0] == [] && [a, b][..1] == [a] && [a][..0] == [];
    assert ResultOf([a], 0).Ok? by { assert Retain(After([]), 0) == map[]; }
    assert ResultOf([a, b], 0).Ok?;
    AcceptsAgain([a], 100, 150, 150);
  }

  // ---- When exactly the cache remembers, for readings in any order ----

  function UntilOf(a: Attempt): int {
    Until(a.exp, a.now, a.wall)
  }

  /** Attempt `j` was accepted for this jti, and no later call carried a reading from after its time. */
  ghost predicate Remembered(attempts: seq<Attempt>, jti: string, j: nat) {
    && j < |attempts| && attempts[j].jti == jti && ResultOf(attempts, j).Ok?
    && forall m :: j < m < |attempts| ==> attempts[m].now < UntilOf(attempts[j])
  }

  lemma RememberedStep(attempts: seq<Attempt>, jti: string, j: nat)
    requires j + 1 < |attempts|
    ensures Remembered(attempts, jti, j) <==>
            Remembered(attempts[..|attempts| - 1], jti, j) && attempts[|attempts| - 1].now < UntilOf(attempts[j])
  {
    var n := |attempts| - 1;
    var before := attempts[..n];
    assert before[..j] == attempts[..j];
    assert forall m :: j < m < n ==> before[m] == attempts[m];
  }

  /** The expiry under which the cache holds a jti, if it does. */
  function Held(seen: Seen, jti: string): Option<int> {
    if jti in seen then Some(seen[jti].until) else None
  }

  /** What one call does to what is held under any one jti. */
  lemma HeldStep(seen: Seen, a: Attempt, jti: string)
    ensures var after, kept := Record(seen, a.jti, a.exp, a.now, a.wall),
                               if Held(seen, jti).Some? && Held(seen, jti).value > a.now then Held(seen, jti) else None;
            && (after.result.Ok? && a.jti == jti ==> Held(after.seen, jti) == Some(UntilOf(a)) && kept == None)
            && (!(after.result.Ok? && a.jti == jti) ==> Held(after.seen, jti) == kept)
  {
  }

  lemma {:induction false} HeldIsRemembered(attempts: seq<Attempt>, jti: string)
    ensures forall j: nat :: Remembered(attempts, jti, j) ==> Held(After(attempts), jti) == Some(UntilOf(attempts[j]))
    ensures Held(After(attempts), jti).Some? ==> exists j: nat :: Remembered(attempts, jti, j)
  {
    if attempts != [] {
      var n, a := |attempts| - 1, attempts[|attempts| - 1];
      var before := attempts[..n];
      HeldIsRemembered(before, jti);
      HeldStep(After(before), a, jti);
      forall j: nat | Remembered(attempts, jti, j) ensures Held(After(attempts), jti) == Some(UntilOf(attempts[j])) {
        if j < n {
          RememberedStep(attempts, jti, j);
        }
      }
      if Held(After(attempts), jti).Some? {
        if ResultOf(attempts, n).Ok? && a.jti == jti {
          assert Remembered(attempts, jti, n);
        } else {
          var j: nat :| Remembered(before, jti, j);
          RememberedStep(attempts, jti, j);
        }
      }
    }
  }

  /**
   * A call is refused as a replay exactly when an earlier call was accepted for its jti and neither a
   * call in between nor this one reads a time at or after that acceptance's expiry.
   */
  lemma ReplayedIffRemembered(attempts: seq<Attempt>, i: nat)
    requires i < |attempts|
    ensures ResultOf(attempts, i) == Err(TokenReplayed) <==>
            exists j: nat :: Remembered(attempts[..i], attempts[i].jti, j) && attempts[i].now < UntilOf(attempts[j])
  {
    HeldIsRemembered(attempts[..i], attempts[i].jti);
  }

  /** Purging with a later reading first: a call with an older one accepts a jti that is live at that older reading. */
  lemma StaleReadingForgets(jti: string, other: string)
    requires jti != other
    ensures var attempts := [Attempt(jti, 0, 0, 0, 0), Attempt(other, 0, 60, 60, 60), Attempt(jti, 0, 59, 59, 60)];
            Timed(attempts) && ResultOf(attempts, 2).Ok? && LiveAt(Log(attempts[..2]), jti, attempts[2].now)
  {
    var a, b, c := Attempt(jti, 0, 0, 0, 0), Attempt(other, 0, 60, 60, 60), Attempt(jti, 0, 59, 59, 60);
    var attempts := [a, b, c];
    assert attempts[..2] == [] + [a] + [b];
    AfterStep([], a);
    LogStep([], a);
    assert After([] + [a]) == map[jti := Entry(60, ())];
    AfterStep([] + [a], b);
    LogStep([] + [a], b);
    var seen := map[other := Entry(120, ())];
    assert Retain(After([] + [a]), 60) == map[] && After(attempts[..2]) == seen;
    assert Retain(seen, 59) == seen && |seen| == 1;
    LatestAppend([], Grant(jti, Entry(60, ())), jti);
    LatestAppend([] + [Grant(jti, Entry(60, ()))], Grant(other, Entry(120, ())), jti);
  }

  // ---- The purged cache against the full log ----

  /** Every acceptance ever, in order. */
  function Log(attempts: seq<Attempt>): seq<Grant<string, ()>> {
    if attempts == [] then []
    else
      var n, a := |attempts| - 1, attempts[|attempts| - 1];
      var before := Log(attempts[..n]);
      if Record(After(attempts[..n]), a.jti, a.exp, a.now, a.wall).result.Ok?
      then before + [Grant(a.jti, Entry(Until(a.exp, a.now, a.wall), ()))] else before
  }

  lemma LogStep(attempts: seq<Attempt>, a: Attempt)
    ensures Log(attempts + [a])
         == if Record(After(attempts), a.jti, a.exp, a.now, a.wall).result.Ok?
            then Log(attempts) + [Grant(a.jti, Entry(Until(a.exp, a.now, a.wall), ()))] else Log(attempts)
  {
    assert (attempts + [a])[..|attempts|] == attempts;
  }

  lemma {:induction false} CacheAgreesWithLog(attempts: seq<Attempt>, last: int)
    requires NondecreasingReadings(attempts) && (attempts != [] ==> attempts[|attempts| - 1].now <= last)
    ensures Agrees(After(attempts), Log(attempts), last)
  {
    if attempts != [] {
      var n, a := |attempts| - 1, attempts[|attempts| - 1];
      var before := After(attempts[..n]);
      CacheAgreesWithLog(attempts[..n], a.now);
      PurgeAgrees(before, Log(attempts[..n]), a.now, a.now);
      InsertAgrees(Retain(before, a.now), Log(attempts[..n]), a.now, a.jti, Entry(Until(a.exp, a.now, a.wall), ()));
    }
  }

  /**
   * With readings in order, the capped, purged cache answers as the unbounded log would: replayed
   * exactly when the jti is live in the log, unavailable exactly when it is not and 65,536 others are.
   */
  lemma CacheRefinesLog(attempts: seq<Attempt>, i: nat)
    requires NondecreasingReadings(attempts) && i < |attempts|
    ensures var a, log := attempts[i], Log(attempts[..i]);
            ResultOf(attempts, i) == if LiveAt(log, a.jti, a.now) then Err(TokenReplayed)
                                     else if |LiveKeys(log, a.now)| >= MAX_SEEN_JTIS then Err(ReplayCacheUnavailable)
                                     else Ok(())
  {
    var a, earlier := attempts[i], attempts[..i];
    CacheAgreesWithLog(earlier, a.now);
    PurgeAgrees(After(earlier), Log(earlier), a.now, a.now);
    LookupsAgree(After(earlier), Log(earlier), a.now, a.now, a.jti);
    var kept := Retain(After(earlier), a.now);
    assert |kept| == |kept.Keys|;
  }
}
