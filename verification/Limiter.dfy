/** The sliding-window limiter in front of the device-token exchange. */
module Limiter {
  import opened Prelude

  const DEVICE_EXCHANGE_MAX_CONCURRENT := 8
  const DEVICE_EXCHANGE_RATE_LIMIT := 10
  const DEVICE_EXCHANGE_RATE_WINDOW := 60
  const MAX_DEVICE_EXCHANGE_SOURCES := 4096

  /** The peer's IP address. */
  datatype Source = V4(bits: nat) | V6(bits: nat)

  type Attempts = map<Source, seq<int>>

  datatype LimitError = RateLimited | Busy

  /** `now.checked_sub(window).unwrap_or(now)`: a clock younger than the window has no cutoff before now. */
  function Cutoff(now: nat): int {
    if now >= DEVICE_EXCHANGE_RATE_WINDOW then now - DEVICE_EXCHANGE_RATE_WINDOW else now
  }

  /** Pops from the front while the front is at or before the cutoff. */
  function Prune(entries: seq<int>, cutoff: int): seq<int> {
    if entries == [] || entries[0] > cutoff then entries else Prune(entries[1..], cutoff)
  }

  function PruneAll(attempts: Attempts, cutoff: int): Attempts {
    map s | s in attempts && Prune(attempts[s], cutoff) != [] :: Prune(attempts[s], cutoff)
  }

  function Entries(attempts: Attempts, source: Source): seq<int> {
    if source in attempts then attempts[source] else []
  }

  datatype Admission = Admission(attempts: Attempts, recorded: bool)

  /** The part of `admit` under its mutex. */
  function Admit(attempts: Attempts, source: Source, now: nat): Admission {
    var cutoff := Cutoff(now);
    var full := |attempts| >= MAX_DEVICE_EXCHANGE_SOURCES && source !in attempts;
    var attempts1 := if full then PruneAll(attempts, cutoff) else attempts;
    if full && |attempts1| >= MAX_DEVICE_EXCHANGE_SOURCES then Admission(attempts1, false)
    else
      var entries := Prune(Entries(attempts1, source), cutoff);
      if |entries| >= DEVICE_EXCHANGE_RATE_LIMIT then Admission(attempts1[source := entries], false)
      else Admission(attempts1[source := entries + [now]], true)
  }

  method PruneDeque(entries: seq<int>, cutoff: int) returns (kept: seq<int>)
    ensures kept == Prune(entries, cutoff)
  {
    kept := entries;
    while kept != [] && kept[0] <= cutoff
      invariant Prune(kept, cutoff) == Prune(entries, cutoff)
      decreases |kept|
    {
      kept := kept[1..];
    }
  }

  class DeviceExchangeLimiter {
    var attempts: Attempts
    var permits: nat

    constructor ()
      ensures attempts == map[] && permits == DEVICE_EXCHANGE_MAX_CONCURRENT
    {
      attempts, permits := map[], DEVICE_EXCHANGE_MAX_CONCURRENT;
    }

    /** `attempts.retain(..)`: prunes every deque and drops the sources left empty. */
    method RetainSources(cutoff: int)
      modifies this`attempts
      ensures attempts == PruneAll(old(attempts), cutoff)
    {
      var todo := attempts.Keys;
      var kept: Attempts := map[];
      while todo != {}
        invariant todo <= attempts.Keys
        invariant attempts == old(attempts)
        invariant forall s :: s in kept <==> s in attempts && s !in todo && Prune(attempts[s], cutoff) != []
        invariant forall s :: s in kept ==> kept[s] == Prune(attempts[s], cutoff)
        decreases |todo|
      {
        var s :| s in todo;
        var entries := PruneDeque(attempts[s], cutoff);
        if entries != [] {
          kept := kept[s := entries];
        }
        todo := todo - {s};
      }
      attempts := kept;
    }

    /** `admit`: record the attempt, then try to take a permit. A refused permit leaves the attempt recorded. */
    method TryAdmit(source: Source, now: nat) returns (r: Result<(), LimitError>)
      modifies this
      ensures attempts == Admit(old(attempts), source, now).attempts
      ensures r == (if !Admit(old(attempts), source, now).recorded then Err(RateLimited)
                    else if old(permits) == 0 then Err(Busy) else Ok(()))
      ensures permits == if r.Ok? then old(permits) - 1 else old(permits)
    {
      var cutoff := Cutoff(now);
      if |attempts| >= MAX_DEVICE_EXCHANGE_SOURCES && source !in attempts {
        RetainSources(cutoff);
        if |attempts| >= MAX_DEVICE_EXCHANGE_SOURCES {
          return Err(RateLimited);
        }
      }
      var entries := PruneDeque(if source in attempts then attempts[source] else [], cutoff);
      attempts := attempts[source := entries];
      if |entries| >= DEVICE_EXCHANGE_RATE_LIMIT {
        return Err(RateLimited);
      }
      attempts := attempts[source := entries + [now]];
      if permits == 0 {
        return Err(Busy);
      }
      permits := permits - 1;
      return Ok(());
    }

    /** Dropping the admission permit at the end of the handler. */
    method Release()
      modifies this`permits
      ensures permits == old(permits) + 1
    {
      permits := permits + 1;
    }
  }

  // ---- Pruning ----

  /** Pruning twice is pruning once, so pruning the whole map never changes a later per-source count. */
  lemma {:induction false} PruneTwice(entries: seq<int>, early: int, late: int)
    requires early <= late
    ensures Prune(Prune(entries, early), late) == Prune(entries, late)
  {
    if entries != [] && entries[0] <= early {
      PruneTwice(entries[1..], early, late);
    }
  }

  lemma WholeMapPruningIsInvisible(attempts: Attempts, source: Source, early: int, late: int)
    requires early <= late
    ensures Prune(Entries(PruneAll(attempts, early), source), late) == Prune(Entries(attempts, source), late)
  {
    PruneTwice(Entries(attempts, source), early, late);
  }

  ghost predicate Sorted(s: seq<int>) {
    forall i, j :: 0 <= i < j < |s| ==> s[i] <= s[j]
  }

  /** The attempts after `cutoff`, picked out of a log one by one. */
  ghost function Since(log: seq<int>, cutoff: int): seq<int> {
    if log == [] then []
    else (if log[0] > cutoff then [log[0]] else []) + Since(log[1..], cutoff)
  }

  lemma {:induction false} SinceOld(log: seq<int>, cutoff: int)
    requires forall i :: 0 <= i < |log| ==> log[i] <= cutoff
    ensures Since(log, cutoff) == []
  {
    if log != [] {
      SinceOld(log[1..], cutoff);
    }
  }

  lemma {:induction false} SinceNew(log: seq<int>, cutoff: int)
    requires forall i :: 0 <= i < |log| ==> log[i] > cutoff
    ensures Since(log, cutoff) == log
  {
    if log != [] {
      SinceNew(log[1..], cutoff);
    }
  }

  lemma SinceCons(x: int, rest: seq<int>, cutoff: int)
    ensures Since([x] + rest, cutoff) == (if x > cutoff then [x] else []) + Since(rest, cutoff)
  {
    assert ([x] + rest)[1..] == rest;
  }

  lemma {:induction false} SinceSplits(a: seq<int>, b: seq<int>, cutoff: int)
    ensures Since(a + b, cutoff) == Since(a, cutoff) + Since(b, cutoff)
  {
    if a == [] {
      assert a + b == b;
    } else {
      var x, rest := a[0], a[1..];
      assert a == [x] + rest && a + b == [x] + (rest + b);
      SinceSplits(rest, b, cutoff);
      SinceCons(x, rest, cutoff);
      SinceCons(x, rest + b, cutoff);
      ConcatAssociates(if x > cutoff then [x] else [], Since(rest, cutoff), Since(b, cutoff));
    }
  }

  /** On entries in order, popping from the front keeps exactly the ones after the cutoff. */
  lemma {:induction false} PruneIsSince(entries: seq<int>, cutoff: int)
    requires Sorted(entries)
    ensures Prune(entries, cutoff) == Since(entries, cutoff)
  {
    if entries != [] {
      if entries[0] > cutoff {
        SinceNew(entries, cutoff);
      } else {
        PruneIsSince(entries[1..], cutoff);
      }
    }
  }

  /** What pruning removes is a prefix at or before the cutoff. */
  lemma {:induction false} PruneIsSuffix(entries: seq<int>, cutoff: int)
    ensures |Prune(entries, cutoff)| <= |entries|
    ensures var n := |entries| - |Prune(entries, cutoff)|;
            entries[n..] == Prune(entries, cutoff) && forall i :: 0 <= i < n ==> entries[i] <= cutoff
  {
    if entries != [] && entries[0] <= cutoff {
      PruneIsSuffix(entries[1..], cutoff);
    }
  }

  // ---- Runs ----

  datatype Call = Call(source: Source, now: nat)

  /** Readings in lock order never go back. */
  ghost predicate Ordered(calls: seq<Call>) {
    forall i, j :: 0 <= i < j < |calls| ==> calls[i].now <= calls[j].now
  }

  /** The clock is at least one window old. */
  ghost predicate OldEnough(calls: seq<Call>) {
    forall i :: 0 <= i < |calls| ==> calls[i].now >= DEVICE_EXCHANGE_RATE_WINDOW
  }

  /** A call at reading `now` may follow `calls` in order. */
  ghost predicate Follows(calls: seq<Call>, now: nat) {
    Ordered(calls) && forall i :: 0 <= i < |calls| ==> calls[i].now <= now
  }

  ghost predicate Ready(calls: seq<Call>, now: nat) {
    Follows(calls, now) && OldEnough(calls) && now >= DEVICE_EXCHANGE_RATE_WINDOW
  }

  function After(calls: seq<Call>): Attempts {
    if calls == [] then map[]
    else Admit(After(calls[..|calls| - 1]), calls[|calls| - 1].source, calls[|calls| - 1].now).attempts
  }

  function IsRecorded(calls: seq<Call>, i: nat): bool
    requires i < |calls|
  {
    Admit(After(calls[..i]), calls[i].source, calls[i].now).recorded
  }

  /** Every attempt of `source` ever recorded, in order. */
  ghost function Log(calls: seq<Call>, source: Source): seq<int> {
    if calls == [] then []
    else
      var n := |calls| - 1;
      if calls[n].source == source && IsRecorded(calls, n) then Log(calls[..n], source) + [calls[n].now]
      else Log(calls[..n], source)
  }

  /** The deque is the tail of the log, and what is missing from it is at or before `horizon`. */
  ghost predicate Tail(entries: seq<int>, log: seq<int>, horizon: int) {
    && |entries| <= |log|
    && log[|log| - |entries|..] == entries
    && (forall i :: 0 <= i < |log| - |entries| ==> log[i] <= horizon)
  }

  /** The furthest that calls with readings up to `now` can have pruned: a young clock prunes up to itself. */
  function Reach(now: int): int {
    if now < 2 * DEVICE_EXCHANGE_RATE_WINDOW - 1 then DEVICE_EXCHANGE_RATE_WINDOW - 1
        else now - DEVICE_EXCHANGE_RATE_WINDOW
  }

  /** In order, and ten records on from any made at the age of a window or more, 60 seconds have passed. */
  ghost predicate LogOk(log: seq<int>, last: int) {
    && Sorted(log)
    && (forall i :: 0 <= i < |log| ==> log[i] <= last)
    && (forall i :: 0 <= i < |log| - DEVICE_EXCHANGE_RATE_LIMIT && log[i] >= DEVICE_EXCHANGE_RATE_WINDOW ==>
          log[i] + DEVICE_EXCHANGE_RATE_WINDOW <= log[i + DEVICE_EXCHANGE_RATE_LIMIT])
  }

  ghost predicate MapOk(attempts: Attempts) {
    && |attempts| <= MAX_DEVICE_EXCHANGE_SOURCES
    && forall s :: s in attempts ==> 1 <= |attempts[s]| <= DEVICE_EXCHANGE_RATE_LIMIT
  }

  lemma TailPruned(entries: seq<int>, log: seq<int>, horizon: int, cutoff: int)
    requires Tail(entries, log, horizon) && cutoff <= horizon
    ensures Tail(Prune(entries, cutoff), log, horizon)
  {
    PruneIsSuffix(entries, cutoff);
    var kept := Prune(entries, cutoff);
    var n, m := |log| - |entries|, |entries| - |kept|;
    assert log[n + m..] == entries[m..];
    forall i | 0 <= i < |log| - |kept| ensures log[i] <= horizon {
      if i >= n {
        assert log[i] == entries[i - n];
      }
    }
  }

  lemma TailPushed(entries: seq<int>, log: seq<int>, horizon: int, now: int)
    requires Tail(entries, log, horizon)
    ensures Tail(entries + [now], log + [now], horizon)
  {
    assert (log + [now])[|log| - |entries|..] == entries + [now];
  }

  /** Pruned to a cutoff, the tail is the part of the whole log after it. */
  lemma TailIsWindow(entries: seq<int>, log: seq<int>, cutoff: int)
    requires Tail(entries, log, cutoff) && Sorted(log)
    ensures Prune(entries, cutoff) == Since(log, cutoff)
  {
    var n := |log| - |entries|;
    SinceDropsOld(log[..n], entries, cutoff);
    assert log == log[..n] + entries;
    SortedSuffix(log, n);
    PruneIsSince(entries, cutoff);
  }

  lemma SinceDropsOld(gone: seq<int>, entries: seq<int>, cutoff: int)
    requires forall i :: 0 <= i < |gone| ==> gone[i] <= cutoff
    ensures Since(gone + entries, cutoff) == Since(entries, cutoff)
  {
    SinceSplits(gone, entries, cutoff);
    SinceOld(gone, cutoff);
  }

  lemma SortedSuffix(log: seq<int>, n: nat)
    requires Sorted(log) && n <= |log|
    ensures Sorted(log[n..])
  {
  }

  lemma LogPushed(entries: seq<int>, log: seq<int>, last: int, now: int)
    requires LogOk(log, last) && last <= now && Tail(entries, log, Reach(now)) && |entries| < DEVICE_EXCHANGE_RATE_LIMIT
    ensures LogOk(log + [now], now)
  {
  }

  lemma TailLater(entries: seq<int>, log: seq<int>, horizon: int, later: int)
    requires Tail(entries, log, horizon) && horizon <= later
    ensures Tail(entries, log, later)
  {
  }

  lemma LogLater(log: seq<int>, last: int, now: int)
    requires LogOk(log, last) && last <= now
    ensures LogOk(log, now)
  {
  }

  /** One call, seen from one source: its deque and its log move together. */
  lemma TrackStep(entries: seq<int>, log: seq<int>, now: nat, entries': seq<int>, recorded: bool)
    requires LogOk(log, now) && Tail(entries, log, Reach(now))
    requires var kept := Prune(entries, Cutoff(now));
             if recorded then |kept| < DEVICE_EXCHANGE_RATE_LIMIT && entries' == kept + [now]
                 else entries' in {entries, kept}
    ensures LogOk(if recorded then log + [now] else log, now)
    ensures Tail(entries', if recorded then log + [now] else log, Reach(now))
  {
    TailPruned(entries, log, Reach(now), Cutoff(now));
    if recorded {
      var kept := Prune(entries, Cutoff(now));
      TailPushed(kept, log, Reach(now), now);
      LogPushed(kept, log, now, now);
    }
  }

  lemma TrackCall(attempts: Attempts, log: seq<int>, c: Call, source: Source)
    requires LogOk(log, c.now) && Tail(Entries(attempts, source), log, Reach(c.now))
    ensures var after := Admit(attempts, c.source, c.now);
            var log' := if c.source == source && after.recorded then log + [c.now] else log;
            LogOk(log', c.now) && Tail(Entries(after.attempts, source), log', Reach(c.now))
  {
    var after := Admit(attempts, c.source, c.now);
    AdmitEffect(attempts, c.source, c.now, source);
    TrackStep(Entries(attempts, source), log, c.now, Entries(after.attempts, source),
              c.source == source && after.recorded);
  }

  lemma {:induction false} LimiterTracksLog(calls: seq<Call>, source: Source, now: nat)
    requires Follows(calls, now)
    ensures LogOk(Log(calls, source), now) && Tail(Entries(After(calls), source), Log(calls, source), Reach(now))
  {
    if calls != [] {
      var before, c := calls[..|calls| - 1], calls[|calls| - 1];
      LimiterTracksLog(before, source, c.now);
      TrackCall(After(before), Log(before, source), c, source);
      TailLater(Entries(After(calls), source), Log(calls, source), Reach(c.now), Reach(now));
      LogLater(Log(calls, source), c.now, now);
    }
  }

  /** Only readings are logged. */
  lemma {:induction false} LogIsOldEnough(calls: seq<Call>, source: Source)
    requires OldEnough(calls)
    ensures forall i :: 0 <= i < |Log(calls, source)| ==> Log(calls, source)[i] >= DEVICE_EXCHANGE_RATE_WINDOW
  {
    if calls != [] {
      LogIsOldEnough(calls[..|calls| - 1], source);
    }
  }

  /** What `admit` does to the deque of any one source. */
  lemma AdmitEffect(attempts: Attempts, caller: Source, now: nat, source: Source)
    ensures var after, entries := Admit(attempts, caller, now), Entries(attempts, source);
            var kept := Prune(entries, Cutoff(now));
            if caller == source && after.recorded
            then |kept| < DEVICE_EXCHANGE_RATE_LIMIT && Entries(after.attempts, source) == kept + [now]
            else Entries(after.attempts, source) in {entries, kept}
  {
    WholeMapPruningIsInvisible(attempts, source, Cutoff(now), Cutoff(now));
  }

  /** What `admit` decides, and what it leaves in the caller's own deque. */
  lemma AdmitDecision(attempts: Attempts, source: Source, now: nat)
    ensures var after, cutoff := Admit(attempts, source, now), Cutoff(now);
            var kept := Prune(Entries(attempts, source), cutoff);
            var noRoom := && source !in attempts && |attempts| >= MAX_DEVICE_EXCHANGE_SOURCES
                          && |PruneAll(attempts, cutoff)| >= MAX_DEVICE_EXCHANGE_SOURCES;
            && (!after.recorded <==> |kept| >= DEVICE_EXCHANGE_RATE_LIMIT || noRoom)
            && (source in after.attempts ==> after.attempts[source] == if after.recorded then kept + [now] else kept)
  {
    WholeMapPruningIsInvisible(attempts, source, Cutoff(now), Cutoff(now));
  }

  // ---- Theorems ----

  /** The number of recorded attempts at times in the half-open window [x, x + 60). */
  ghost function InSpan(log: seq<int>, x: int): set<nat> {
    set i: nat | i < |log| && x <= log[i] < x + DEVICE_EXCHANGE_RATE_WINDOW
  }

  ghost function Range(lo: nat, n: nat): (r: set<nat>)
    ensures |r| == n && forall i :: i in r <==> lo <= i < lo + n
  {
    if n == 0 then {} else Range(lo, n - 1) + {lo + n - 1}
  }

  lemma SpanIsBounded(log: seq<int>, last: int, x: int)
    requires LogOk(log, last) && forall i :: i in InSpan(log, x) ==> log[i] >= DEVICE_EXCHANGE_RATE_WINDOW
    ensures |InSpan(log, x)| <= DEVICE_EXCHANGE_RATE_LIMIT
  {
    var span := InSpan(log, x);
    if span != {} {
      var lo := FirstInSpan(log, x, 0);
      var hi := lo + DEVICE_EXCHANGE_RATE_LIMIT;
      assert hi < |log| ==> log[lo] + DEVICE_EXCHANGE_RATE_WINDOW <= log[hi];
      assert forall i :: i in span ==> i < hi;
      SubsetIsSmaller(span, Range(lo, DEVICE_EXCHANGE_RATE_LIMIT));
    }
  }

  /** The first attempt in the span, searching from `start`. */
  lemma FirstInSpan(log: seq<int>, x: int, start: nat) returns (lo: nat)
    requires Sorted(log) && start <= |log| && InSpan(log, x) != {}
    requires forall i :: i in InSpan(log, x) ==> start <= i
    ensures lo in InSpan(log, x) && forall i :: i in InSpan(log, x) ==> lo <= i
    decreases |log| - start
  {
    if start in InSpan(log, x) {
      lo := start;
    } else {
      var i :| i in InSpan(log, x);
      lo := FirstInSpan(log, x, start + 1);
    }
  }

  /**
   * With readings in order, no window of 60 seconds ever holds more than 10 recorded attempts of one
   * source: no window at all if the clock was old enough from the first call, and otherwise none that
   * starts once it is.
   */
  lemma AtMostTenPerWindow(calls: seq<Call>, source: Source, x: int)
    requires Ordered(calls) && (x >= DEVICE_EXCHANGE_RATE_WINDOW || OldEnough(calls))
    ensures |InSpan(Log(calls, source), x)| <= DEVICE_EXCHANGE_RATE_LIMIT
  {
    var last := if calls == [] then 0 else calls[|calls| - 1].now;
    LimiterTracksLog(calls, source, last);
    if OldEnough(calls) {
      LogIsOldEnough(calls, source);
    }
    SpanIsBounded(Log(calls, source), last, x);
  }

  /** The latest reading of any call so far. */
  ghost function LatestReading(calls: seq<Call>): int {
    if calls == [] then 0
    else
      var before, now := LatestReading(calls[..|calls| - 1]), calls[|calls| - 1].now;
      if now > before then now else before
  }

  lemma TailAfterCall(attempts: Attempts, log: seq<int>, last: int, c: Call, source: Source)
    requires Cutoff(c.now) <= last && Tail(Entries(attempts, source), log, last)
    ensures var after := Admit(attempts, c.source, c.now);
            Tail(Entries(after.attempts, source), if c.source == source && after.recorded then log + [c.now]
                 else log, last)
  {
    AdmitEffect(attempts, c.source, c.now, source);
    TailPruned(Entries(attempts, source), log, last, Cutoff(c.now));
    TailPushed(Prune(Entries(attempts, source), Cutoff(c.now)), log, last, c.now);
  }

  /** With readings in any order, a deque has dropped only what is outside the window at the latest reading. */
  lemma {:induction false} DequeIsATail(calls: seq<Call>, source: Source)
    requires OldEnough(calls)
    ensures Tail(Entries(After(calls), source), Log(calls, source), LatestReading(calls) - DEVICE_EXCHANGE_RATE_WINDOW)
  {
    if calls != [] {
      var before, c := calls[..|calls| - 1], calls[|calls| - 1];
      var horizon := LatestReading(calls) - DEVICE_EXCHANGE_RATE_WINDOW;
      DequeIsATail(before, source);
      TailLater(Entries(After(before), source), Log(before, source),
                LatestReading(before) - DEVICE_EXCHANGE_RATE_WINDOW, horizon);
      TailAfterCall(After(before), Log(before, source), horizon, c, source);
    }
  }

  /**
   * What holds for readings in any order: at every moment, of all attempts of a source ever recorded
   * at most 10 are less than 60 seconds older than the latest reading any call has brought.
   */
  lemma AtMostTenBeforeLatestReading(calls: seq<Call>, source: Source)
    requires OldEnough(calls)
    ensures |SinceLatest(Log(calls, source), LatestReading(calls))| <= DEVICE_EXCHANGE_RATE_LIMIT
  {
    var entries, log := Entries(After(calls), source), Log(calls, source);
    DequeIsATail(calls, source);
    MapStaysSmall(calls);
    SubsetIsSmaller(SinceLatest(log, LatestReading(calls)), Range(|log| - |entries|, |entries|));
  }

  /** The logged attempts less than 60 seconds older than `last`. */
  ghost function SinceLatest(log: seq<int>, last: int): set<nat> {
    set i: nat | i < |log| && log[i] > last - DEVICE_EXCHANGE_RATE_WINDOW
  }

  /** The map never exceeds 4096 sources and holds only deques of 1 to 10 attempts. */
  lemma {:induction false} MapStaysSmall(calls: seq<Call>)
    ensures MapOk(After(calls))
  {
    if calls != [] {
      MapStaysSmall(calls[..|calls| - 1]);
      AdmitKeepsMapOk(After(calls[..|calls| - 1]), calls[|calls| - 1].source, calls[|calls| - 1].now);
    }
  }

  lemma PruneAllKeepsMapOk(attempts: Attempts, cutoff: int)
    requires MapOk(attempts)
    ensures MapOk(PruneAll(attempts, cutoff))
  {
    var pruned := PruneAll(attempts, cutoff);
    forall s | s in pruned ensures 1 <= |pruned[s]| <= DEVICE_EXCHANGE_RATE_LIMIT {
      PruneIsSuffix(attempts[s], cutoff);
    }
    FullMapIsAllLive(attempts, cutoff);
  }

  lemma InsertKeepsMapOk(attempts: Attempts, source: Source, entries: seq<int>)
    requires MapOk(attempts) && (source in attempts || |attempts| < MAX_DEVICE_EXCHANGE_SOURCES)
    requires 1 <= |entries| <= DEVICE_EXCHANGE_RATE_LIMIT
    ensures MapOk(attempts[source := entries])
  {
  }

  lemma AdmitKeepsMapOk(attempts: Attempts, source: Source, now: nat)
    requires MapOk(attempts)
    ensures MapOk(Admit(attempts, source, now).attempts)
  {
    var cutoff := Cutoff(now);
    var full := |attempts| >= MAX_DEVICE_EXCHANGE_SOURCES && source !in attempts;
    var attempts1 := if full then PruneAll(attempts, cutoff) else attempts;
    PruneAllKeepsMapOk(attempts, cutoff);
    if !(full && |attempts1| >= MAX_DEVICE_EXCHANGE_SOURCES) {
      var entries := Prune(Entries(attempts1, source), cutoff);
      PruneIsSuffix(Entries(attempts1, source), cutoff);
      assert |entries| <= DEVICE_EXCHANGE_RATE_LIMIT;
      InsertKeepsMapOk(attempts1, source, if |entries| >= DEVICE_EXCHANGE_RATE_LIMIT then entries else entries + [now]);
    }
  }

  /** The source has an attempt inside the window at `now`, by the full log. */
  ghost predicate IsLive(calls: seq<Call>, now: int, source: Source) {
    Since(Log(calls, source), now - DEVICE_EXCHANGE_RATE_WINDOW) != []
  }

  ghost function LiveSources(calls: seq<Call>, now: int): set<Source> {
    set i | 0 <= i < |calls| && IsLive(calls, now, calls[i].source) :: calls[i].source
  }

  lemma {:induction false} LoggedSourcesCalled(calls: seq<Call>, source: Source)
    requires Log(calls, source) != []
    ensures exists i :: 0 <= i < |calls| && calls[i].source == source
  {
    var n := |calls| - 1;
    if calls[n].source != source {
      LoggedSourcesCalled(calls[..n], source);
      var i :| 0 <= i < n && calls[..n][i].source == source;
      assert calls[i].source == source;
    }
  }

  /** Pruned at `now`, the deque is the in-window part of the log. */
  ghost predicate PrunesToWindow(entries: seq<int>, log: seq<int>, now: int) {
    Prune(entries, now - DEVICE_EXCHANGE_RATE_WINDOW) == Since(log, now - DEVICE_EXCHANGE_RATE_WINDOW)
  }

  lemma LiveInMapIffLive(calls: seq<Call>, now: nat, source: Source)
    requires Ready(calls, now)
    ensures PrunesToWindow(Entries(After(calls), source), Log(calls, source), now)
  {
    LimiterTracksLog(calls, source, now);
    LogIsOldEnough(calls, source);
    ReachIsWindow(Entries(After(calls), source), Log(calls, source), now);
  }

  lemma ReachIsWindow(entries: seq<int>, log: seq<int>, now: int)
    requires Tail(entries, log, Reach(now)) && Sorted(log)
    requires forall i :: 0 <= i < |log| ==> log[i] >= DEVICE_EXCHANGE_RATE_WINDOW
    ensures PrunesToWindow(entries, log, now)
  {
    assert Tail(entries, log, now - DEVICE_EXCHANGE_RATE_WINDOW);
    TailIsWindow(entries, log, now - DEVICE_EXCHANGE_RATE_WINDOW);
  }

  lemma LiveSourcesMember(calls: seq<Call>, now: int, source: Source)
    ensures source in LiveSources(calls, now) <==> IsLive(calls, now, source)
  {
    if IsLive(calls, now, source) {
      LoggedSourcesCalled(calls, source);
    }
  }

  /** `live` is exactly the sources that pruning the map to the window leaves. */
  ghost predicate LivePart(attempts: Attempts, now: int, live: set<Source>) {
    forall s :: s in live <==> Prune(Entries(attempts, s), now - DEVICE_EXCHANGE_RATE_WINDOW) != []
  }

  lemma PrunedMapIsLive(calls: seq<Call>, now: nat)
    requires Ready(calls, now)
    ensures LivePart(After(calls), now, LiveSources(calls, now))
  {
    forall s ensures s in LiveSources(calls, now)
                     <==> Prune(Entries(After(calls), s), now - DEVICE_EXCHANGE_RATE_WINDOW) != []
    {
      LiveInMapIffLive(calls, now, s);
      LiveSourcesMember(calls, now, s);
    }
  }

  /** A map that is still full after pruning was all live. */
  lemma FullMapIsAllLive(attempts: Attempts, cutoff: int)
    requires MapOk(attempts)
    ensures |PruneAll(attempts, cutoff)| <= |attempts|
    ensures |PruneAll(attempts, cutoff)| >= MAX_DEVICE_EXCHANGE_SOURCES
            ==> PruneAll(attempts, cutoff).Keys == attempts.Keys
  {
    var live, all := PruneAll(attempts, cutoff).Keys, attempts.Keys;
    assert live <= all && all == live + (all - live);
    assert |all| == |live| + |all - live|;
    assert |all| == |attempts| && |PruneAll(attempts, cutoff)| == |live|;
    if |live| >= MAX_DEVICE_EXCHANGE_SOURCES {
      assert all - live == {};
    }
  }

  /** The rule: 10 attempts of this source are in the window, or none is and 4096 sources are live without it. */
  ghost predicate LogRefuses(log: seq<int>, live: set<Source>, now: int) {
    var window := Since(log, now - DEVICE_EXCHANGE_RATE_WINDOW);
    || |window| >= DEVICE_EXCHANGE_RATE_LIMIT
    || (window == [] && |live| >= MAX_DEVICE_EXCHANGE_SOURCES)
  }

  /** The decision in terms of the caller's window and the live sources. */
  lemma RefusalMeaning(attempts: Attempts, source: Source, now: nat, log: seq<int>, live: set<Source>)
    requires MapOk(attempts) && now >= DEVICE_EXCHANGE_RATE_WINDOW
    requires PrunesToWindow(Entries(attempts, source), log, now)
    requires LivePart(attempts, now, live)
    ensures !Admit(attempts, source, now).recorded <==> LogRefuses(log, live, now)
  {
    var cutoff := now - DEVICE_EXCHANGE_RATE_WINDOW;
    FullMapIsAllLive(attempts, cutoff);
    AdmitDecision(attempts, source, now);
    var pruned := PruneAll(attempts, cutoff);
    assert pruned.Keys == live;
    assert |pruned| == |pruned.Keys|;
  }

  /**
   * With readings in order the limiter decides as the full log of attempts would: it refuses exactly
   * when the source has 10 attempts in the window, or has none there and 4096 other sources do.
   */
  lemma LimiterRefinesLog(calls: seq<Call>, c: Call)
    requires Ready(calls, c.now)
    ensures !Admit(After(calls), c.source, c.now).recorded <==>
            LogRefuses(Log(calls, c.source), LiveSources(calls, c.now), c.now)
  {
    LiveInMapIffLive(calls, c.now, c.source);
    PrunedMapIsLive(calls, c.now);
    MapStaysSmall(calls);
    RefusalMeaning(After(calls), c.source, c.now, Log(calls, c.source), LiveSources(calls, c.now));
  }

  lemma DequeAfterCall(attempts: Attempts, source: Source, now: nat, log: seq<int>)
    requires now >= DEVICE_EXCHANGE_RATE_WINDOW && source in Admit(attempts, source, now).attempts
    requires PrunesToWindow(Entries(attempts, source), log, now)
    ensures var after := Admit(attempts, source, now);
            after.attempts[source]
                == Since(if after.recorded then log + [now] else log, now - DEVICE_EXCHANGE_RATE_WINDOW)
  {
    AdmitDecision(attempts, source, now);
    SinceSplits(log, [now], now - DEVICE_EXCHANGE_RATE_WINDOW);
    SinceNew([now], now - DEVICE_EXCHANGE_RATE_WINDOW);
  }

  /** After a call that is not refused for lack of room, the caller's deque is the in-window part of its log. */
  lemma DequeIsTheWindow(calls: seq<Call>, c: Call)
    requires Ready(calls, c.now) && c.source in Admit(After(calls), c.source, c.now).attempts
    ensures After(calls + [c]) == Admit(After(calls), c.source, c.now).attempts
    ensures After(calls + [c])[c.source] == Since(Log(calls + [c], c.source), c.now - DEVICE_EXCHANGE_RATE_WINDOW)
  {
    LiveInMapIffLive(calls, c.now, c.source);
    WindowAfterCall(calls, c, After(calls), Log(calls, c.source));
  }

  lemma WindowAfterCall(calls: seq<Call>, c: Call, attempts: Attempts, log: seq<int>)
    requires LeadsTo(calls, attempts) && IsLog(calls, c.source, log)
    requires c.now >= DEVICE_EXCHANGE_RATE_WINDOW && c.source in Admit(attempts, c.source, c.now).attempts
    requires PrunesToWindow(Entries(attempts, c.source), log, c.now)
    ensures LeadsTo(calls + [c], Admit(attempts, c.source, c.now).attempts)
    ensures Admit(attempts, c.source, c.now).attempts[c.source]
         == Since(Log(calls + [c], c.source), c.now - DEVICE_EXCHANGE_RATE_WINDOW)
  {
    DequeAfterCall(attempts, c.source, c.now, log);
    OneMoreCall(calls, attempts, log, c);
  }

  // ---- The two conditions are needed ----

  /** `n` calls of one source at one reading. */
  function Burst(source: Source, now: nat, n: nat): (calls: seq<Call>)
    ensures |calls| == n && forall i :: 0 <= i < n ==> calls[i] == Call(source, now)
  {
    if n == 0 then [] else Burst(source, now, n - 1) + [Call(source, now)]
  }

  function Copies(now: nat, n: nat): (times: seq<int>)
    ensures |times| == n && forall i :: 0 <= i < n ==> times[i] == now
  {
    if n == 0 then [] else Copies(now, n - 1) + [now]
  }

  lemma {:induction false} PruneCopies(now: nat, n: nat, cutoff: int)
    ensures Prune(Copies(now, n), cutoff) == if now > cutoff then Copies(now, n) else []
  {
    if n > 0 && now <= cutoff {
      assert Copies(now, n)[1..] == Copies(now, n - 1);
      PruneCopies(now, n - 1, cutoff);
    }
  }

  lemma AdmitAgain(source: Source, now: nat, had: nat)
    requires 1 <= had <= DEVICE_EXCHANGE_RATE_LIMIT
    ensures Admit(map[source := Copies(now, had)], source, now)
         == if now < DEVICE_EXCHANGE_RATE_WINDOW then Admission(map[source := Copies(now, 1)], true)
            else if had == DEVICE_EXCHANGE_RATE_LIMIT then Admission(map[source := Copies(now, had)], false)
            else Admission(map[source := Copies(now, had + 1)], true)
  {
    PruneCopies(now, had, Cutoff(now));
    var m, kept := map[source := Copies(now, had)], Prune(Copies(now, had), Cutoff(now));
    assert Entries(m, source) == Copies(now, had);
    assert m[source := kept] == map[source := kept] && m[source := kept + [now]] == map[source := kept + [now]];
    if now < DEVICE_EXCHANGE_RATE_WINDOW {
      assert kept + [now] == Copies(now, 1);
    } else {
      assert kept + [now] == Copies(now, had + 1);
    }
  }

  /** How many of `n` calls at one reading the deque holds afterwards. */
  function Held(now: nat, n: nat): nat {
    if now < DEVICE_EXCHANGE_RATE_WINDOW then 1
    else if n > DEVICE_EXCHANGE_RATE_LIMIT then DEVICE_EXCHANGE_RATE_LIMIT else n
  }

  lemma LogStep(calls: seq<Call>, c: Call)
    ensures Log(calls + [c], c.source)
         == if Admit(After(calls), c.source, c.now).recorded then Log(calls, c.source) + [c.now]
             else Log(calls, c.source)
    ensures After(calls + [c]) == Admit(After(calls), c.source, c.now).attempts
  {
    assert (calls + [c])[..|calls|] == calls;
  }

  /** One more call at one reading, from what the limiter holds and the log so far. */
  lemma OneMoreCall(calls: seq<Call>, attempts: Attempts, log: seq<int>, c: Call)
    requires LeadsTo(calls, attempts) && IsLog(calls, c.source, log)
    ensures LeadsTo(calls + [c], Admit(attempts, c.source, c.now).attempts)
    ensures IsLog(calls + [c], c.source, if Admit(attempts, c.source, c.now).recorded then log + [c.now] else log)
  {
    LogStep(calls, c);
  }

  lemma FirstAdmitted(source: Source, now: nat)
    ensures Admit(map[], source, now) == Admission(map[source := Copies(now, 1)], true)
  {
    assert Copies(now, 1) == [now];
    assert map[][source := [now]] == map[source := [now]];
  }

  /** What a burst leaves: the deque and the log. */
  ghost predicate BurstLeaves(calls: seq<Call>, source: Source, now: nat, n: nat) {
    && LeadsTo(calls, if n == 0 then map[] else map[source := Copies(now, Held(now, n))])
    && IsLog(calls, source, Copies(now, Recorded(now, n)))
  }

  lemma BurstStep(calls: seq<Call>, source: Source, now: nat, n: nat)
    requires BurstLeaves(calls, source, now, n)
    ensures BurstLeaves(calls + [Call(source, now)], source, now, n + 1)
  {
    var c, log := Call(source, now), Copies(now, Recorded(now, n));
    if n == 0 {
      FirstAdmitted(source, now);
      OneMoreCall(calls, map[], log, c);
    } else {
      AdmitAgain(source, now, Held(now, n));
      OneMoreCall(calls, map[source := Copies(now, Held(now, n))], log, c);
    }
  }

  lemma {:induction false} AfterBurst(source: Source, now: nat, n: nat)
    ensures BurstLeaves(Burst(source, now, n), source, now, n)
  {
    if n > 0 {
      AfterBurst(source, now, n - 1);
      BurstStep(Burst(source, now, n - 1), source, now, n - 1);
    }
  }

  /** How many of `n` calls at one reading are recorded in all. */
  function Recorded(now: nat, n: nat): nat {
    if now >= DEVICE_EXCHANGE_RATE_WINDOW && n > DEVICE_EXCHANGE_RATE_LIMIT then DEVICE_EXCHANGE_RATE_LIMIT else n
  }

  ghost predicate IsLog(calls: seq<Call>, source: Source, log: seq<int>) {
    Log(calls, source) == log
  }

  /**
   * A burst at one reading: from the age of one window on, 10 attempts are recorded and the rest
   * refused; on a younger clock the cutoff is the reading itself and every attempt is recorded.
   */
  lemma BurstIsLimitedIffClockIsOldEnough(source: Source, now: nat, n: nat)
    ensures Log(Burst(source, now, n), source)
         == Copies(now, if now >= DEVICE_EXCHANGE_RATE_WINDOW && n > DEVICE_EXCHANGE_RATE_LIMIT
                        then DEVICE_EXCHANGE_RATE_LIMIT else n)
  {
    AfterBurst(source, now, n);
  }

  /**
   * One second of lag is enough: ten attempts at any time t, one a window later, and one more whose
   * reading was taken a second before that, make eleven in the window from t.
   */
  lemma StaleReadingBreaksTheBound(source: Source, t: nat)
    requires t >= DEVICE_EXCHANGE_RATE_WINDOW
    ensures var calls := Burst(source, t, 10) + [Call(source, t + 60)] + [Call(source, t + 59)];
            LagsAtMost(calls, 1) && |InSpan(Log(calls, source), t)| > DEVICE_EXCHANGE_RATE_LIMIT
  {
    StaleRunLags(source, t, 10);
    StaleRunLog(source, t, 10);
    AllButOneInSpan(Copies(t, 10) + [t + 60] + [t + 59], 10, t);
  }

  lemma StaleRunLags(source: Source, t: nat, n: nat)
    requires t >= DEVICE_EXCHANGE_RATE_WINDOW
    ensures LagsAtMost(Burst(source, t, n) + [Call(source, t + 60)] + [Call(source, t + 59)], 1)
  {
  }

  lemma FullBurst(source: Source, t: nat, n: nat)
    requires t >= DEVICE_EXCHANGE_RATE_WINDOW && 1 <= n <= DEVICE_EXCHANGE_RATE_LIMIT
    ensures LeadsTo(Burst(source, t, n), map[source := Copies(t, n)])
            && IsLog(Burst(source, t, n), source, Copies(t, n))
  {
    AfterBurst(source, t, n);
  }

  lemma StaleRunLog(source: Source, t: nat, n: nat)
    requires t >= DEVICE_EXCHANGE_RATE_WINDOW && n == DEVICE_EXCHANGE_RATE_LIMIT
    ensures IsLog(Burst(source, t, n) + [Call(source, t + 60)] + [Call(source, t + 59)], source,
                  Copies(t, n) + [t + 60] + [t + 59])
  {
    FullBurst(source, t, n);
    PrunedThenStale(source, t);
    TwoMoreRecorded(Burst(source, t, n), map[source := Copies(t, n)], Copies(t, n), Call(source, t + 60),
                    Call(source, t + 59));
  }

  ghost predicate LeadsTo(calls: seq<Call>, attempts: Attempts) {
    After(calls) == attempts
  }

  lemma TwoMoreRecorded(calls: seq<Call>, attempts: Attempts, log: seq<int>, b: Call, c: Call)
    requires LeadsTo(calls, attempts) && b.source == c.source && IsLog(calls, c.source, log)
    requires Admit(attempts, b.source, b.now).recorded
    requires Admit(Admit(attempts, b.source, b.now).attempts, c.source, c.now).recorded
    ensures IsLog(calls + [b] + [c], c.source, log + [b.now] + [c.now])
  {
    OneMoreCall(calls, attempts, log, b);
    OneMoreCall(calls + [b], Admit(attempts, b.source, b.now).attempts, log + [b.now], c);
  }

  lemma PrunedThenStale(source: Source, t: nat)
    requires t >= DEVICE_EXCHANGE_RATE_WINDOW
    ensures var m := map[source := Copies(t, 10)];
            Admit(m, source, t + 60).recorded && Admit(Admit(m, source, t + 60).attempts, source, t + 59).recorded
  {
    PruneCopies(t, 10, t);
    assert Admit(map[source := Copies(t, 10)], source, t + 60).attempts[source] == [t + 60];
  }

  /** All but one of the logged attempts are in the span. */
  lemma AllButOneInSpan(log: seq<int>, n: nat, x: int)
    requires |log| == n + 2 && forall i :: 0 <= i < n + 2 && i != n ==> x <= log[i] < x + DEVICE_EXCHANGE_RATE_WINDOW
    ensures |InSpan(log, x)| > n
  {
    var some := Range(0, n) + {n + 1};
    assert |some| == n + 1;
    SubsetIsSmaller(some, InSpan(log, x));
  }

  /** No reading is more than `d` seconds behind one already used, and the clock is old enough. */
  ghost predicate LagsAtMost(calls: seq<Call>, d: nat) {
    OldEnough(calls) && forall i, j :: 0 <= i < j < |calls| ==> calls[i].now <= calls[j].now + d
  }

  ghost predicate Bounded(calls: seq<Call>) {
    forall source, x :: |InSpan(Log(calls, source), x)| <= DEVICE_EXCHANGE_RATE_LIMIT
  }

  /** The window bound holds of every run whose readings lag at most `d` seconds if and only if d is zero. */
  lemma BoundHoldsIffNoLag(d: nat)
    ensures (forall calls :: LagsAtMost(calls, d) ==> Bounded(calls)) <==> d == 0
  {
    if d == 0 {
      forall calls | LagsAtMost(calls, d) ensures Bounded(calls) {
        forall source, x ensures |InSpan(Log(calls, source), x)| <= DEVICE_EXCHANGE_RATE_LIMIT {
          AtMostTenPerWindow(calls, source, x);
        }
      }
    } else {
      var source := V4(0);
      StaleReadingBreaksTheBound(source, 60);
      var calls := Burst(source, 60, 10) + [Call(source, 60 + 60)] + [Call(source, 60 + 59)];
      assert LagsAtMost(calls, d) && |InSpan(Log(calls, source), 60)| > DEVICE_EXCHANGE_RATE_LIMIT;
      assert !Bounded(calls);
    }
  }

  /** No run with readings in order puts more than 10 recorded attempts of a source into the window from `x`. */
  ghost predicate WindowIsBounded(x: int) {
    forall calls, source :: Ordered(calls) ==> |InSpan(Log(calls, source), x)| <= DEVICE_EXCHANGE_RATE_LIMIT
  }

  /** That is so if and only if the window starts at 60 or later, or ends before the clock starts. */
  lemma WindowIsBoundedIff(x: int)
    ensures WindowIsBounded(x) <==> x >= DEVICE_EXCHANGE_RATE_WINDOW || x <= -DEVICE_EXCHANGE_RATE_WINDOW
  {
    if x >= DEVICE_EXCHANGE_RATE_WINDOW {
      forall calls, source | Ordered(calls) ensures |InSpan(Log(calls, source), x)| <= DEVICE_EXCHANGE_RATE_LIMIT {
        AtMostTenPerWindow(calls, source, x);
      }
    } else if x <= -DEVICE_EXCHANGE_RATE_WINDOW {
      forall calls, source ensures InSpan(Log(calls, source), x) == {} {
        LogIsNonnegative(calls, source);
      }
    } else {
      var source, now: nat := V4(0), if x > 0 then x else 0;
      YoungBurstOverflows(source, now, x, DEVICE_EXCHANGE_RATE_LIMIT + 1);
      assert Ordered(Burst(source, now, DEVICE_EXCHANGE_RATE_LIMIT + 1));
    }
  }

  lemma {:induction false} LogIsNonnegative(calls: seq<Call>, source: Source)
    ensures forall i :: 0 <= i < |Log(calls, source)| ==> Log(calls, source)[i] >= 0
  {
    if calls != [] {
      LogIsNonnegative(calls[..|calls| - 1], source);
    }
  }

  /** A burst on a young clock is recorded whole, and all of it is in any window around its reading. */
  lemma YoungBurstOverflows(source: Source, now: nat, x: int, n: nat)
    requires now < DEVICE_EXCHANGE_RATE_WINDOW && x <= now < x + DEVICE_EXCHANGE_RATE_WINDOW
    ensures |InSpan(Log(Burst(source, now, n), source), x)| == n
  {
    BurstIsLimitedIffClockIsOldEnough(source, now, n);
    assert InSpan(Copies(now, n), x) == Range(0, n);
  }

  // ---- What a call sees, for readings in any order and of any age ----

  /** A call of `caller` prunes the deque of `source`: its own, or every deque when it finds the map full. */
  ghost predicate Sweeps(attempts: Attempts, caller: Source, source: Source) {
    caller == source || (|attempts| >= MAX_DEVICE_EXCHANGE_SOURCES && caller !in attempts)
  }

  /** Call by call, the cutoff to which it pruned the deque of `source`, if it did. */
  ghost function Cutoffs(calls: seq<Call>, source: Source): (r: seq<Option<int>>)
    ensures |r| == |calls|
  {
    if calls == [] then []
    else
      var n, c := |calls| - 1, calls[|calls| - 1];
      Cutoffs(calls[..n], source) + [if Sweeps(After(calls[..n]), c.source, source) then Some(Cutoff(c.now)) else None]
  }

  /** The calls behind the entries of a source's log. */
  ghost function Recorders(calls: seq<Call>, source: Source): seq<nat> {
    if calls == [] then []
    else
      var n := |calls| - 1;
      Recorders(calls[..n], source) + (if calls[n].source == source && IsRecorded(calls, n) then [n] else [])
  }

  lemma {:induction false} LogIsRecorded(calls: seq<Call>, source: Source)
    ensures |Log(calls, source)| == |Recorders(calls, source)|
    ensures forall p :: 0 <= p < |Log(calls, source)| ==>
              Recorders(calls, source)[p] < |calls| && Log(calls, source)[p] == calls[Recorders(calls, source)[p]].now
  {
    if calls != [] {
      LogIsRecorded(calls[..|calls| - 1], source);
    }
  }

  /** After call `j`, some prune had a cutoff at or after `time`. */
  ghost predicate OvertakenBy(cutoffs: seq<Option<int>>, j: nat, time: int) {
    exists m :: j < m < |cutoffs| && cutoffs[m].Some? && time <= cutoffs[m].value
  }

  /** Since call `j` recorded its attempt, some prune of its deque had a cutoff at or after it. */
  ghost predicate Overtaken(calls: seq<Call>, source: Source, j: nat)
    requires j < |calls|
  {
    OvertakenBy(Cutoffs(calls, source), j, calls[j].now)
  }

  /** The positions in the log of a source whose attempts have been overtaken. */
  ghost function OvertakenIn(calls: seq<Call>, source: Source): set<nat> {
    set p: nat | p < |Recorders(calls, source)| && Recorders(calls, source)[p] < |calls|
                 && Overtaken(calls, source, Recorders(calls, source)[p])
  }

  /** The deque starts at the first logged attempt that has not been overtaken. */
  ghost predicate Fronted(entries: seq<int>, log: seq<int>, overtaken: set<nat>) {
    |entries| <= |log| && log[|log| - |entries|..] == entries && IsFront(log, overtaken, |log| - |entries|)
  }

  /** Everything before `f` is overtaken and `f` is not; what is overtaken after it is from before its time. */
  ghost predicate IsFront(log: seq<int>, overtaken: set<nat>, f: nat) {
    && (forall p :: 0 <= p < f ==> p in overtaken)
    && (f < |log| ==> f !in overtaken && forall p :: f < p < |log| && p in overtaken ==> log[p] < log[f])
  }

  /** A prune overtakes what is at or before its cutoff and pops up to the first attempt not overtaken. */
  lemma FrontedSwept(entries: seq<int>, log: seq<int>, overtaken: set<nat>, cutoff: int, overtaken': set<nat>)
    requires Fronted(entries, log, overtaken)
    requires forall p :: 0 <= p < |log| ==> (p in overtaken' <==> p in overtaken || log[p] <= cutoff)
    ensures Fronted(Prune(entries, cutoff), log, overtaken')
  {
    PruneIsSuffix(entries, cutoff);
    PruneStops(entries, cutoff);
    FrontedTo(entries, log, overtaken, cutoff, overtaken', Prune(entries, cutoff));
  }

  lemma FrontedTo(entries: seq<int>, log: seq<int>, overtaken: set<nat>, cutoff: int, overtaken': set<nat>,
                  kept: seq<int>)
    requires Fronted(entries, log, overtaken)
    requires forall p :: 0 <= p < |log| ==> (p in overtaken' <==> p in overtaken || log[p] <= cutoff)
    requires |kept| <= |entries| && entries[|entries| - |kept|..] == kept && (kept != [] ==> kept[0] > cutoff)
    requires forall i :: 0 <= i < |entries| - |kept| ==> entries[i] <= cutoff
    ensures Fronted(kept, log, overtaken')
  {
    var f, n := |log| - |entries|, |entries| - |kept|;
    assert log[f + n..] == kept && (kept != [] ==> log[f + n] == kept[0]);
    PoppedInLog(log, entries, f, n, cutoff);
    FrontMoves(log, overtaken, cutoff, overtaken', f, f + n);
  }

  /** The popped entries, as positions in the log. */
  lemma PoppedInLog(log: seq<int>, entries: seq<int>, f: nat, n: nat, cutoff: int)
    requires f + |entries| == |log| && log[f..] == entries && n <= |entries|
    requires forall i :: 0 <= i < n ==> entries[i] <= cutoff
    ensures forall p :: f <= p < f + n ==> log[p] <= cutoff
  {
    forall p | f <= p < f + n ensures log[p] <= cutoff {
      assert log[f..][p - f] == log[p];
    }
  }

  /** The front moves over what the cutoff overtakes and stops at an attempt nothing has overtaken. */
  lemma FrontMoves(log: seq<int>, overtaken: set<nat>, cutoff: int, overtaken': set<nat>, f: nat, f': nat)
    requires f <= f' <= |log| && IsFront(log, overtaken, f)
    requires (f' < |log| ==> log[f'] > cutoff) && forall p :: f <= p < f' ==> log[p] <= cutoff
    requires forall p :: 0 <= p < |log| ==> (p in overtaken' <==> p in overtaken || log[p] <= cutoff)
    ensures IsFront(log, overtaken', f')
  {
  }

  lemma {:induction false} PruneStops(entries: seq<int>, cutoff: int)
    ensures Prune(entries, cutoff) != [] ==> Prune(entries, cutoff)[0] > cutoff
  {
    if entries != [] && entries[0] <= cutoff {
      PruneStops(entries[1..], cutoff);
    }
  }

  lemma FrontedPushed(entries: seq<int>, log: seq<int>, overtaken: set<nat>, now: int, overtaken': set<nat>)
    requires Fronted(entries, log, overtaken) && |log| !in overtaken'
    requires forall p :: 0 <= p < |log| ==> (p in overtaken' <==> p in overtaken)
    ensures Fronted(entries + [now], log + [now], overtaken')
  {
    assert (log + [now])[|log| - |entries|..] == entries + [now];
  }

  /** What `admit` does to the deque of any one source, exactly. */
  lemma AdmitSweeps(attempts: Attempts, caller: Source, now: nat, source: Source)
    ensures var after, entries := Admit(attempts, caller, now), Entries(attempts, source);
            var kept := if Sweeps(attempts, caller, source) then Prune(entries, Cutoff(now)) else entries;
            Entries(after.attempts, source) == if caller == source && after.recorded then kept + [now] else kept
  {
    WholeMapPruningIsInvisible(attempts, source, Cutoff(now), Cutoff(now));
  }

  lemma OvertakenByStep(cutoffs: seq<Option<int>>, x: Option<int>, j: nat, time: int)
    ensures OvertakenBy(cutoffs + [x], j, time) <==>
            OvertakenBy(cutoffs, j, time) || (j < |cutoffs| && x.Some? && time <= x.value)
  {
    var all := cutoffs + [x];
    if OvertakenBy(cutoffs, j, time) {
      var m :| j < m < |cutoffs| && cutoffs[m].Some? && time <= cutoffs[m].value;
      assert all[m] == cutoffs[m];
    }
    if j < |cutoffs| && x.Some? && time <= x.value {
      assert all[|cutoffs|] == x;
    }
  }

  /** One more call overtakes, if it prunes the source, what is at or before its cutoff, and nothing else. */
  lemma OvertakenStep(calls: seq<Call>, source: Source, j: nat)
    requires calls != [] && j < |calls|
    ensures var n := |calls| - 1;
            Overtaken(calls, source, j) <==>
            j < n && (Overtaken(calls[..n], source, j)
                      || (Sweeps(After(calls[..n]), calls[n].source, source) && calls[j].now <= Cutoff(calls[n].now)))
  {
    var n, c := |calls| - 1, calls[|calls| - 1];
    OvertakenByStep(Cutoffs(calls[..n], source),
                    if Sweeps(After(calls[..n]), c.source, source) then Some(Cutoff(c.now)) else None, j, calls[j].now);
  }

  lemma OvertakenInStep(calls: seq<Call>, source: Source, p: nat)
    requires calls != []
    ensures var n := |calls| - 1;
            var log := Log(calls[..n], source);
            && (p < |log| ==> (p in OvertakenIn(calls, source) <==>
                               p in OvertakenIn(calls[..n], source)
                               || (Sweeps(After(calls[..n]), calls[n].source, source)
                                   && log[p] <= Cutoff(calls[n].now))))
            && (p == |log| ==> p !in OvertakenIn(calls, source))
  {
    var n := |calls| - 1;
    LogIsRecorded(calls[..n], source);
    if p < |Recorders(calls, source)| && Recorders(calls, source)[p] < |calls| {
      OvertakenStep(calls, source, Recorders(calls, source)[p]);
    }
  }

  lemma {:induction false} DequeIsFronted(calls: seq<Call>, source: Source)
    ensures Fronted(Entries(After(calls), source), Log(calls, source), OvertakenIn(calls, source))
  {
    if calls != [] {
      var n, c := |calls| - 1, calls[|calls| - 1];
      DequeIsFronted(calls[..n], source);
      forall p: nat ensures
        var log := Log(calls[..n], source);
        && (p < |log| ==> (p in OvertakenIn(calls, source) <==>
                           p in OvertakenIn(calls[..n], source)
                           || (Sweeps(After(calls[..n]), calls[n].source, source) && log[p] <= Cutoff(calls[n].now))))
        && (p == |log| ==> p !in OvertakenIn(calls, source))
      {
        OvertakenInStep(calls, source, p);
      }
      FrontedCall(After(calls[..n]), Log(calls[..n], source), OvertakenIn(calls[..n], source), c, source,
                  OvertakenIn(calls, source));
    }
  }

  lemma FrontedCall(attempts: Attempts, log: seq<int>, overtaken: set<nat>, c: Call, source: Source,
                    overtaken': set<nat>)
    requires Fronted(Entries(attempts, source), log, overtaken) && |log| !in overtaken'
    requires forall p :: 0 <= p < |log| ==>
               (p in overtaken' <==> p in overtaken || (Sweeps(attempts, c.source, source) && log[p] <= Cutoff(c.now)))
    ensures var after := Admit(attempts, c.source, c.now);
            Fronted(Entries(after.attempts, source), if c.source == source && after.recorded then log + [c.now]
                    else log, overtaken')
  {
    var entries := Entries(attempts, source);
    AdmitSweeps(attempts, c.source, c.now, source);
    if Sweeps(attempts, c.source, source) {
      FrontedSwept(entries, log, overtaken, Cutoff(c.now), overtaken');
      FrontedPushed(Prune(entries, Cutoff(c.now)), log, overtaken', c.now, overtaken');
    }
  }

  /**
   * The logged attempts a call still finds: those with one at or before them that nothing has overtaken,
   * this call included.
   */
  ghost function Remaining(calls: seq<Call>, c: Call): set<nat> {
    var log := Log(calls, c.source);
    set p: nat | p < |log| && Remains(log, OvertakenIn(calls, c.source), Cutoff(c.now), p)
  }

  ghost predicate Remains(log: seq<int>, overtaken: set<nat>, cutoff: int, p: nat)
    requires p < |log|
  {
    exists q: nat :: q <= p && q !in overtaken && log[q] > cutoff
  }

  ghost predicate NoRoom(attempts: Attempts, c: Call) {
    && c.source !in attempts && |attempts| >= MAX_DEVICE_EXCHANGE_SOURCES
    && |PruneAll(attempts, Cutoff(c.now))| >= MAX_DEVICE_EXCHANGE_SOURCES
  }

  lemma FrontedCount(entries: seq<int>, log: seq<int>, overtaken: set<nat>, remaining: set<nat>)
    requires Fronted(entries, log, overtaken)
    requires forall p: nat :: p in remaining <==> p < |log| && exists q: nat :: q <= p && q !in overtaken
    ensures |remaining| == |entries|
  {
    var f := |log| - |entries|;
    forall p: nat ensures p in remaining <==> p in Range(f, |entries|) {
      assert f <= p < |log| ==> f !in overtaken;
    }
    assert remaining == Range(f, |entries|);
  }

  /**
   * For readings in any order and of any age: a call is recorded exactly when fewer than 10 logged
   * attempts of its source remain and there is room for the source. An attempt remains exactly when
   * some attempt logged no later than it has seen no prune with a cutoff at or after its own time.
   */
  lemma RecordedIffFewRemain(calls: seq<Call>, c: Call)
    ensures Admit(After(calls), c.source, c.now).recorded <==>
            |Remaining(calls, c)| < DEVICE_EXCHANGE_RATE_LIMIT && !NoRoom(After(calls), c)
  {
    var entries, log, overtaken := Entries(After(calls), c.source), Log(calls, c.source), OvertakenIn(calls, c.source);
    DequeIsFronted(calls, c.source);
    AdmitDecision(After(calls), c.source, c.now);
    CountRemaining(entries, log, overtaken, Cutoff(c.now), Remaining(calls, c));
  }

  lemma CountRemaining(entries: seq<int>, log: seq<int>, overtaken: set<nat>, cutoff: int, remaining: set<nat>)
    requires Fronted(entries, log, overtaken)
    requires forall p: nat :: p in remaining <==> p < |log| && Remains(log, overtaken, cutoff, p)
    ensures |remaining| == |Prune(entries, cutoff)|
  {
    var swept := overtaken + set p: nat | p < |log| && log[p] <= cutoff;
    FrontedSwept(entries, log, overtaken, cutoff, swept);
    forall p: nat ensures p in remaining <==> p < |log| && exists q: nat :: q <= p && q !in swept {
      if p < |log| && exists q: nat :: q <= p && q !in swept {
        var q: nat :| q <= p && q !in swept;
        assert q !in overtaken && log[q] > cutoff;
      }
    }
    FrontedCount(Prune(entries, cutoff), log, swept, remaining);
  }
}
