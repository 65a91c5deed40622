/** What callers of the key store can rely on in every run, whatever the interleaving. */
module KeyringTheorems {
  import opened Prelude
  import opened KeyStore
  import opened KeyringUnlock
  import opened KeyringSafety

  lemma InitIsInv(w: World, s: State)
    requires WorldOk(w) && Init(w, s)
    ensures Inv(w, s)
  {
    assert forall t :: t in w.calls ==> s.pcs[t] == Start && ThreadOk(w, s.mem, t, Start);
  }

  lemma RunKeepsInv(w: World, states: seq<State>, events: seq<Event>, i: nat)
    requires WorldOk(w) && IsRun(w, states, events) && i < |states|
    ensures Inv(w, states[i])
  {
    var holds := (n: int) => 0 <= n < |states| && Inv(w, states[n]);
    assert holds(0) by { InitIsInv(w, states[0]); }
    forall n | 0 <= n < i && holds(n) ensures holds(n + 1) {
      StepKeepsInv(w, states[n], events[n]);
    }
    HoldsAlong(holds, i);
  }

  /** Each slot is written at most once in a run and never reverts. */
  lemma WrittenOnce(w: World, states: seq<State>, events: seq<Event>, i: nat, j: nat, k: nat)
    requires WorldOk(w) && IsRun(w, states, events) && i <= j < |states| && k < |states[i].mem.slots|
    requires states[i].mem.slots[k].Some?
    ensures k < |states[j].mem.slots| && k < |states[i].mem.installer|
    ensures states[j].mem.slots[k] == states[i].mem.slots[k]
    ensures states[j].mem.installer[k] == states[i].mem.installer[k]
  {
    var mems := seq(|states|, n requires 0 <= n < |states| => states[n].mem);
    forall n | 0 <= n < |mems| - 1 ensures KeepsFull(mems[n], mems[n + 1]) {
      StepKeepsFull(w, states, events, n);
    }
    KeepsChain(mems, i, j);
    RunKeepsInv(w, states, events, i);
  }

  /** Every full slot stays, with its installer. */
  ghost predicate KeepsFull(mem: Memory, mem': Memory) {
    forall k :: 0 <= k < |mem.slots| && k < |mem.installer| && mem.slots[k].Some? ==>
      && k < |mem'.slots| && k < |mem'.installer|
      && mem'.slots[k] == mem.slots[k] && mem'.installer[k] == mem.installer[k]
  }

  lemma StepKeepsFull(w: World, states: seq<State>, events: seq<Event>, i: nat)
    requires WorldOk(w) && IsRun(w, states, events) && i < |events|
    ensures KeepsFull(states[i].mem, states[i + 1].mem)
  {
    RunKeepsInv(w, states, events, i);
    StepKeepsInv(w, states[i], events[i]);
  }

  lemma {:induction false} KeepsChain(mems: seq<Memory>, i: nat, j: nat)
    requires i <= j < |mems| && forall n :: 0 <= n < |mems| - 1 ==> KeepsFull(mems[n], mems[n + 1])
    ensures KeepsFull(mems[i], mems[j])
    decreases j
  {
    if i < j {
      KeepsChain(mems, i, j - 1);
      assert KeepsFull(mems[j - 1], mems[j - 1 + 1]);
    }
  }

  /** The call's passphrase opens the key's own file with its algorithm's decoder, and this is the secret in it. */
  ghost predicate OpensTo(w: World, k: nat, t: nat, m: Material) {
    && k < |w.store.keys| && t in w.calls && (w.calls[t].UnlockRing? || w.calls[t].UnlockKey?)
    && w.decode(w.store.keys[k].algorithm, w.store.keys[k].pem, w.calls[t].pass) == Some(SecretOf(m))
    && AlgorithmOf(m) == w.store.keys[k].algorithm
  }

  /** What is in a slot: for an active key, the secret that its installer's passphrase opened its own file to. */
  lemma SlotContents(w: World, states: seq<State>, events: seq<Event>, i: nat, k: nat)
    requires WorldOk(w) && IsRun(w, states, events) && i < |states| && SlotFull(states[i].mem, k)
    ensures IsActive(w, k)
    ensures exists t :: InstalledBy(states[i].mem, k, t) && OpensTo(w, k, t, states[i].mem.slots[k].value)
  {
    RunKeepsInv(w, states, events, i);
    var mem := states[i].mem;
    assert SlotOk(w, k, mem.slots[k], mem.installer[k]);
    assert InstalledBy(mem, k, mem.installer[k].value);
  }

  // ---- Atomicity of the keyring unlock ----

  /**
   * Thread `u` is inside a guard of key `k` and about to look at its slot: a reader, or a writer other
   * than call `t`, whose install looks before it writes.
   */
  ghost predicate CanSee(w: World, s: State, t: nat, u: nat, k: nat) {
    && u in w.calls && u in s.pcs
    && (HoldsRead(w, w.calls[u], s.pcs[u], k) || (u != t && HoldsWrite(w.calls[u], s.pcs[u], k)))
  }

  /**
   * Once anyone is in a position to see a slot that keyring call `t` wrote, everyone who is later in
   * a position to see any active member of that keyring finds its slot full, under a read guard or a
   * write guard of their own.
   */
  lemma KeyringUnlockIsAtomic(w: World, states: seq<State>, events: seq<Event>, a: nat, b: nat,
                              u: nat, k: nat, v: nat, m: nat, t: nat)
    requires WorldOk(w) && IsRun(w, states, events) && a <= b < |states|
    requires t in w.calls && w.calls[t].UnlockRing?
    requires CanSee(w, states[a], t, u, k) && InstalledBy(states[a].mem, k, t)
    requires CanSee(w, states[b], t, v, m)
    requires m in MembersOf(w, w.calls[t]) && IsActive(w, m)
    ensures SlotFull(states[b].mem, m)
  {
    assert InstalledBy(states[b].mem, k, t) by { InstalledStays(w, states, events, a, b, k, t); }
    assert Inv(w, states[b]) by { RunKeepsInv(w, states, events, b); }
    GuardsDiffer(w, states[b].pcs, t, v, m);
    ReleasedIsFull(w, states[b].mem, t, states[b].pcs[t], k, m);
  }

  lemma InstalledStays(w: World, states: seq<State>, events: seq<Event>, a: nat, b: nat, k: nat, t: nat)
    requires WorldOk(w) && IsRun(w, states, events) && a <= b < |states| && InstalledBy(states[a].mem, k, t)
    ensures InstalledBy(states[b].mem, k, t)
  {
    RunKeepsInv(w, states, events, a);
    assert SlotOk(w, k, states[a].mem.slots[k], states[a].mem.installer[k]);
    WrittenOnce(w, states, events, a, b, k);
  }

  /** Who can see a key is not looking past a write guard that call `t` still holds on it. */
  lemma GuardsDiffer(w: World, pcs: map<nat, Pc>, t: nat, v: nat, m: nat)
    requires Exclusive(w, pcs) && t in w.calls && t in pcs && v in w.calls && v in pcs
    requires HoldsRead(w, w.calls[v], pcs[v], m) || (v != t && HoldsWrite(w.calls[v], pcs[v], m))
    ensures !HoldsWrite(w.calls[t], pcs[t], m)
  {
  }

  /** Once a keyring call has installed anything, a member whose guard it does not hold is full. */
  lemma ReleasedIsFull(w: World, mem: Memory, t: nat, pc: Pc, k: nat, m: nat)
    requires WorldOk(w) && MemoryOk(w, mem) && t in w.calls && w.calls[t].UnlockRing? && ThreadOk(w, mem, t, pc)
    requires InstalledBy(mem, k, t) && !HoldsWrite(w.calls[t], pc, m)
    requires m in MembersOf(w, w.calls[t]) && IsActive(w, m)
    ensures SlotFull(mem, m)
  {
    var x := Rank(MembersOf(w, w.calls[t]), m);
    assert pc.Installing? || (pc.RingReturned? && pc.ring.Ok?);
    if pc.Installing? {
      assert pc.scan.outcomes[x].result != SkippedInactive;
      if InstalledBy(mem, m, t) {
        assert SlotOk(w, m, mem.slots[m], mem.installer[m]);
      }
    }
  }

  /**
   * What the same observer is told: `is_unlocked` answers "unlocked" for every active member exactly
   * as long as nobody has poisoned its lock.
   */
  lemma AtomicUnlockIsSeenIffNotPoisoned(w: World, states: seq<State>, events: seq<Event>, a: nat, b: nat,
                                         u: nat, k: nat, v: nat, m: nat, t: nat)
    requires WorldOk(w) && IsRun(w, states, events) && a <= b < |states|
    requires t in w.calls && w.calls[t].UnlockRing?
    requires CanSee(w, states[a], t, u, k) && InstalledBy(states[a].mem, k, t)
    requires CanSee(w, states[b], t, v, m)
    requires m in MembersOf(w, w.calls[t]) && IsActive(w, m)
    ensures SeesUnlocked(states[b].mem, states[b].poisoned, m) <==> !IsPoisoned(states[b].poisoned, m)
    ensures b < |events| && events[b].Run? && events[b].thread == v && w.calls[v] == Observe(m) ==>
              states[b + 1].pcs[v] == ObserveReturned(!IsPoisoned(states[b].poisoned, m))
  {
    KeyringUnlockIsAtomic(w, states, events, a, b, u, k, v, m, t);
    if b < |events| && events[b].Run? && events[b].thread == v && w.calls[v] == Observe(m) {
      RunKeepsInv(w, states, events, b);
      assert ThreadOk(w, states[b].mem, v, states[b].pcs[v]);
    }
  }

  /** A call that has returned stays as it is. */
  lemma {:induction false} ReturnedStays(w: World, states: seq<State>, events: seq<Event>, i: nat, j: nat, t: nat)
    requires WorldOk(w) && IsRun(w, states, events) && i <= j < |states| && t in w.calls
    requires Returned(states[i].pcs[t])
    ensures states[j].pcs[t] == states[i].pcs[t]
    decreases j
  {
    if i < j {
      ReturnedStays(w, states, events, i, j - 1, t);
      assert Enabled(w, states[j - 1], events[j - 1]);
    }
  }

  predicate ReturnedError(pc: Pc) {
    (pc.RingReturned? && pc.ring.Err?) || (pc.KeyReturned? && pc.key.Err?)
  }

  /** A call that returns an error has installed nothing, before or after, anywhere in the run. */
  lemma ErrorInstallsNothing(w: World, states: seq<State>, events: seq<Event>, i: nat, j: nat, t: nat)
    requires WorldOk(w) && IsRun(w, states, events) && i < |states| && j < |states| && t in w.calls
    requires ReturnedError(states[i].pcs[t])
    ensures NoInstall(states[j].mem, t)
  {
    RunKeepsInv(w, states, events, i);
    RunKeepsInv(w, states, events, j);
    assert ThreadOk(w, states[i].mem, t, states[i].pcs[t]);
    assert NoInstall(states[i].mem, t);
    if i <= j {
      ReturnedStays(w, states, events, i, j, t);
      assert ThreadOk(w, states[j].mem, t, states[j].pcs[t]);
    } else {
      forall k | 0 <= k < |states[j].mem.installer| ensures states[j].mem.installer[k] != Some(t) {
        if states[j].mem.installer[k] == Some(t) {
          assert SlotOk(w, k, states[j].mem.slots[k], states[j].mem.installer[k]);
          WrittenOnce(w, states, events, j, i, k);
        }
      }
    }
  }

  /** A keyring call that returned successfully leaves every active member unlocked for the rest of the run. */
  lemma SuccessUnlocksEveryMember(w: World, states: seq<State>, events: seq<Event>, i: nat, j: nat, t: nat, m: nat)
    requires WorldOk(w) && IsRun(w, states, events) && i <= j < |states| && t in w.calls && w.calls[t].UnlockRing?
    requires states[i].pcs[t].RingReturned? && states[i].pcs[t].ring.Ok?
    requires m in MembersOf(w, w.calls[t]) && IsActive(w, m)
    ensures SlotFull(states[j].mem, m)
  {
    RunKeepsInv(w, states, events, i);
    assert ThreadOk(w, states[i].mem, t, states[i].pcs[t]);
    var x := Rank(MembersOf(w, w.calls[t]), m);
    assert IsActive(w, MembersOf(w, w.calls[t])[x]);
    WrittenOnce(w, states, events, i, j, m);
  }

  /** The answer an observer of such a member gets: "unlocked" exactly when the lock is not poisoned at that step. */
  lemma SuccessIsSeenIffNotPoisoned(w: World, states: seq<State>, events: seq<Event>, i: nat, j: nat, t: nat, v: nat,
                                    m: nat)
    requires WorldOk(w) && IsRun(w, states, events) && i <= j < |events| && t in w.calls && w.calls[t].UnlockRing?
    requires states[i].pcs[t].RingReturned? && states[i].pcs[t].ring.Ok?
    requires m in MembersOf(w, w.calls[t]) && IsActive(w, m)
    requires v in w.calls && w.calls[v] == Observe(m) && events[j].Run? && events[j].thread == v
             && states[j].pcs[v].Observing?
    ensures states[j + 1].pcs[v] == ObserveReturned(!IsPoisoned(states[j].poisoned, m))
  {
    SuccessUnlocksEveryMember(w, states, events, i, j, t, m);
  }

  // ---- Honest reports ----

  /** Call `t` has returned and tells its caller that it unlocked key `k`. */
  ghost predicate ReportsUnlocked(w: World, s: State, t: nat, k: nat)
    requires t in w.calls && t in s.pcs
  {
    var call, pc := w.calls[t], s.pcs[t];
    || (call.UnlockKey? && pc == KeyReturned(Ok(Unlocked)) && call.key == k)
    || (call.UnlockRing? && pc.RingReturned? && pc.ring.Ok?
        && exists x :: 0 <= x < |pc.ring.value| && x < |MembersOf(w, call)|
                       && MembersOf(w, call)[x] == k && pc.ring.value[x].result == Unlocked)
  }

  /** A returned call reports `Unlocked` for a key exactly when it is the call that filled its slot. */
  lemma ReportsAreHonest(w: World, states: seq<State>, events: seq<Event>, i: nat, t: nat, k: nat)
    requires WorldOk(w) && IsRun(w, states, events) && i < |states| && t in w.calls && Returned(states[i].pcs[t])
    ensures ReportsUnlocked(w, states[i], t, k) <==> InstalledBy(states[i].mem, k, t)
  {
    RunKeepsInv(w, states, events, i);
    var mem, pc := states[i].mem, states[i].pcs[t];
    assert ThreadOk(w, mem, t, pc);
    if w.calls[t].UnlockRing? && pc.RingReturned? && pc.ring.Ok? && InstalledBy(mem, k, t) {
      var x := Rank(MembersOf(w, w.calls[t]), k);
      assert pc.ring.value[x].result == Unlocked;
    }
  }

  /** At most one call in a run ever reports `Unlocked` for a given key. */
  lemma UnlockedReportedOnce(w: World, states: seq<State>, events: seq<Event>, i: nat, j: nat, t: nat, u: nat, k: nat)
    requires WorldOk(w) && IsRun(w, states, events) && i <= j < |states| && t in w.calls && u in w.calls
    requires ReportsUnlocked(w, states[i], t, k) && ReportsUnlocked(w, states[j], u, k)
    ensures t == u
  {
    ReportsAreHonest(w, states, events, i, t, k);
    ReportsAreHonest(w, states, events, j, u, k);
    RunKeepsInv(w, states, events, i);
    assert SlotOk(w, k, states[i].mem.slots[k], states[i].mem.installer[k]);
    WrittenOnce(w, states, events, i, j, k);
  }

  /** The outcome list of a successful keyring call: one entry per member, in ring order, under its own id. */
  lemma OutcomesFollowTheRing(w: World, states: seq<State>, events: seq<Event>, i: nat, t: nat, x: nat)
    requires WorldOk(w) && IsRun(w, states, events) && i < |states| && t in w.calls && w.calls[t].UnlockRing?
    requires states[i].pcs[t].RingReturned? && states[i].pcs[t].ring.Ok?
    requires x < |MembersOf(w, w.calls[t])|
    ensures var outcomes, m := states[i].pcs[t].ring.value, MembersOf(w, w.calls[t])[x];
            && |outcomes| == |MembersOf(w, w.calls[t])| && m < |w.store.keys| && outcomes[x].keyId == w.store.keys[m].id
            && (outcomes[x].result == SkippedInactive <==> !IsActive(w, m))
            && (outcomes[x].result == Unlocked <==> InstalledBy(states[i].mem, m, t))
            && (outcomes[x].result == AlreadyUnlocked <==>
                IsActive(w, m) && SlotFull(states[i].mem, m) && !InstalledBy(states[i].mem, m, t))
  {
    RunKeepsInv(w, states, events, i);
    assert ThreadOk(w, states[i].mem, t, states[i].pcs[t]);
    var m := MembersOf(w, w.calls[t])[x];
    if InstalledBy(states[i].mem, m, t) {
      assert SlotOk(w, m, states[i].mem.slots[m], states[i].mem.installer[m]);
    }
  }

  /** Signing after a successful check never finds the key locked, and signs with the secret in the key's own file. */
  lemma SigningNeverFindsTheKeyLocked(w: World, states: seq<State>, events: seq<Event>, i: nat, t: nat)
    requires WorldOk(w) && IsRun(w, states, events) && i < |states| && t in w.calls && states[i].pcs[t].SignReturned?
    ensures states[i].pcs[t].signed != LockedAtSigning
    ensures states[i].pcs[t].signed.Signed? ==>
              && w.calls[t].SignWith? && IsActive(w, w.calls[t].key)
              && w.calls[t].key < |states[i].mem.slots|
              && states[i].mem.slots[w.calls[t].key] == Some(states[i].pcs[t].signed.material)
              && exists u :: OpensTo(w, w.calls[t].key, u, states[i].pcs[t].signed.material)
  {
    RunKeepsInv(w, states, events, i);
    assert ThreadOk(w, states[i].mem, t, states[i].pcs[t]);
    if states[i].pcs[t].signed.Signed? {
      SlotContents(w, states, events, i, w.calls[t].key);
    }
  }

  // ---- Deadlock freedom ----

  /** A thread waiting for a lock holds only locks of the same keyring that come earlier in its order. */
  lemma WaitsUpwards(w: World, s: State, t: nat, k: nat, held: nat)
    requires t in w.calls && t in s.pcs && ThreadOk(w, s.mem, t, s.pcs[t])
    requires Wants(w, w.calls[t], s.pcs[t]) in {ReadLock(k), WriteLock(k)}
    requires HoldsWrite(w.calls[t], s.pcs[t], held) || HoldsRead(w, w.calls[t], s.pcs[t], held)
    ensures Wants(w, w.calls[t], s.pcs[t]) == WriteLock(k)
    ensures k in MembersOf(w, w.calls[t]) && held in MembersOf(w, w.calls[t])
    ensures Rank(MembersOf(w, w.calls[t]), held) < Rank(MembersOf(w, w.calls[t]), k)
  {
    var pc := s.pcs[t];
    var u :| 0 <= u < pc.j && pc.scan.decrypted[u] == held;
    assert pc.scan.decrypted[pc.j] == k;
  }

  /** How many keyring positions are still above key `k`; zero outside every keyring. */
  ghost function Height(w: World, k: nat): nat {
    if k >= |w.store.keys| then 0
    else
      var name := KeyringForKey(w.store, w.store.keys[k].id);
      if name.Some? && k in Members(w.store, name.value)
      then |Members(w.store, name.value)| - Rank(Members(w.store, name.value), k) else 0
  }

  /**
   * The thread can take its next step even under a lock that makes readers wait behind queued
   * writers. (`Enabled` does not make them wait.)
   */
  ghost predicate CanRun(w: World, s: State, t: nat) {
    && t in w.calls && t in s.pcs && !Returned(s.pcs[t])
    && var want := Wants(w, w.calls[t], s.pcs[t]);
       Available(w, s, want) && (want.ReadLock? ==> NoQueuedWriter(w, s, want.key))
  }

  ghost predicate NoQueuedWriter(w: World, s: State, k: nat) {
    forall u :: u in w.calls && u in s.pcs ==> Wants(w, w.calls[u], s.pcs[u]) != WriteLock(k)
  }

  /** A thread inside a read guard waits for nothing. */
  lemma ReaderRuns(w: World, s: State, t: nat, k: nat)
    requires t in w.calls && t in s.pcs && HoldsRead(w, w.calls[t], s.pcs[t], k)
    ensures CanRun(w, s, t)
  {
    assert Wants(w, w.calls[t], s.pcs[t]) == Free && !Returned(s.pcs[t]);
  }

  lemma WriterIsServed(w: World, s: State, t: nat, k: nat) returns (u: nat)
    requires WorldOk(w) && Inv(w, s) && t in w.calls && Wants(w, w.calls[t], s.pcs[t]) == WriteLock(k)
    ensures CanRun(w, s, u)
    decreases Height(w, k), 1
  {
    if NoWriter(w, s, k) {
      if NoReader(w, s, k) {
        assert !Returned(s.pcs[t]);
        return t;
      }
      u :| u in w.calls && HoldsRead(w, w.calls[u], s.pcs[u], k);
      ReaderRuns(w, s, u, k);
    } else {
      var h :| h in w.calls && HoldsWrite(w.calls[h], s.pcs[h], k);
      u := HolderRuns(w, s, h, k);
    }
  }

  lemma HolderRuns(w: World, s: State, h: nat, k: nat) returns (u: nat)
    requires WorldOk(w) && Inv(w, s) && h in w.calls && HoldsWrite(w.calls[h], s.pcs[h], k)
    ensures CanRun(w, s, u)
    decreases Height(w, k), 0
  {
    var want := Wants(w, w.calls[h], s.pcs[h]);
    if want == Free {
      return h;
    }
    var k' := want.key;
    assert ThreadOk(w, s.mem, h, s.pcs[h]);
    WaitsUpwards(w, s, h, k', k);
    HeightsFollowRanks(w, w.calls[h], k, k');
    u := WriterIsServed(w, s, h, k');
  }

  lemma HeightsFollowRanks(w: World, call: Call, k: nat, k': nat)
    requires WorldOk(w) && call.UnlockRing? && k in MembersOf(w, call) && k' in MembersOf(w, call)
    requires Rank(MembersOf(w, call), k) < Rank(MembersOf(w, call), k')
    ensures Height(w, k') < Height(w, k)
  {
  }

  /** No reachable state is deadlocked: while a call has not returned, some call can take a step. */
  lemma NoDeadlock(w: World, states: seq<State>, events: seq<Event>, i: nat, t: nat) returns (u: nat)
    requires WorldOk(w) && IsRun(w, states, events) && i < |states| && t in w.calls && !Returned(states[i].pcs[t])
    ensures CanRun(w, states[i], u) && Enabled(w, states[i], Run(u, true))
  {
    RunKeepsInv(w, states, events, i);
    var s := states[i];
    if CanRun(w, s, t) {
      return t;
    }
    var want := Wants(w, w.calls[t], s.pcs[t]);
    if want.WriteLock? {
      u := WriterIsServed(w, s, t, want.key);
    } else if !NoQueuedWriter(w, s, want.key) {
      var q :| q in w.calls && Wants(w, w.calls[q], s.pcs[q]) == WriteLock(want.key);
      u := WriterIsServed(w, s, q, want.key);
    } else {
      var h :| h in w.calls && HoldsWrite(w.calls[h], s.pcs[h], want.key);
      u := HolderRuns(w, s, h, want.key);
    }
  }

  /** Upper bound on the steps a call still has to take itself. */
  ghost function StepsLeft(w: World, call: Call, pc: Pc): int {
    var n := |MembersOf(w, call)|;
    match pc
    case Start => 4 * n + 6
    case Scanning(scan) => 4 * (n - |scan.outcomes|) + 2 * |scan.decrypted| + 5
    case Reading(scan) => 4 * (n - |scan.outcomes|) + 2 * |scan.decrypted| + 4
    case Acquiring(j, scan) => 2 * |scan.decrypted| - j + 3
    case Aborting(lo, hi, _) => hi - lo + 1
    case Installing(j, scan) => |scan.decrypted| - j + 1
    case KeyReading => 3
    case KeyAcquiring(_) => 2
    case KeyInstalling(_) => 1
    case SignChecking => 3
    case SignReady => 2
    case SignHolding => 1
    case Observing => 1
    case _ => 0
  }

  lemma ScanProgresses(w: World, mem: Memory, poisoned: seq<bool>, t: nat, call: Call, pc: Pc)
    requires WorldOk(w) && MemoryShape(w, mem) && call.UnlockRing? && (pc.Scanning? || pc.Reading?)
    requires |pc.scan.outcomes| <= |MembersOf(w, call)| && (pc.Reading? ==> |pc.scan.outcomes| < |MembersOf(w, call)|)
    ensures 0 <= StepsLeft(w, call, RingStep(w, mem, poisoned, t, call, pc).pc) < StepsLeft(w, call, pc)
  {
    var members := MembersOf(w, call);
    if |pc.scan.outcomes| < |members| {
      var k := members[|pc.scan.outcomes|];
      assert k in members;
      var scan' := ScanMember(w.decode, w.store, k, pc.Reading? && SeesUnlocked(mem, poisoned, k), call.pass, pc.scan);
      assert |scan'.outcomes| == |pc.scan.outcomes| + 1 && |scan'.decrypted| <= |pc.scan.decrypted| + 1;
    }
  }

  lemma RingProgresses(w: World, mem: Memory, poisoned: seq<bool>, t: nat, call: Call, pc: Pc)
    requires WorldOk(w) && MemoryShape(w, mem) && call.UnlockRing? && RingOkAt(w, mem, t, call, pc) && !Returned(pc)
    ensures 0 <= StepsLeft(w, call, RingStep(w, mem, poisoned, t, call, pc).pc) < StepsLeft(w, call, pc)
  {
    if pc.Scanning? || pc.Reading? {
      ScanProgresses(w, mem, poisoned, t, call, pc);
    } else if pc.Installing? && pc.j < |pc.scan.decrypted| {
      assert IsActive(w, pc.scan.decrypted[pc.j]);
    }
  }

  lemma OwnStepProgresses(w: World, mem: Memory, poisoned: seq<bool>, t: nat, pc: Pc, ok: bool)
    requires WorldOk(w) && MemoryShape(w, mem) && t in w.calls && ThreadOk(w, mem, t, pc) && !Returned(pc)
    ensures 0 <= StepsLeft(w, w.calls[t], ThreadStep(w, mem, poisoned, t, pc, ok).pc) < StepsLeft(w, w.calls[t], pc)
  {
    if w.calls[t].UnlockRing? {
      RingProgresses(w, mem, poisoned, t, w.calls[t], pc);
    } else {
      SingleProgresses(w, mem, poisoned, t, pc, ok);
    }
  }

  lemma SingleProgresses(w: World, mem: Memory, poisoned: seq<bool>, t: nat, pc: Pc, ok: bool)
    requires WorldOk(w) && MemoryShape(w, mem) && t in w.calls && !w.calls[t].UnlockRing?
    requires ThreadOk(w, mem, t, pc) && !Returned(pc)
    ensures 0 <= StepsLeft(w, w.calls[t], ThreadStep(w, mem, poisoned, t, pc, ok).pc) < StepsLeft(w, w.calls[t], pc)
  {
  }

  ghost function RunsOf(events: seq<Event>, t: nat): nat {
    if events == [] then 0
    else RunsOf(events[..|events| - 1], t) + (var e := events[|events| - 1]; if e.Run? && e.thread == t then 1 else 0)
  }

  /** No call takes more than 4n + 6 steps of its own for a keyring of n members, whatever the others do. */
  lemma {:induction false} CallsAreBounded(w: World, states: seq<State>, events: seq<Event>, i: nat, t: nat)
    requires WorldOk(w) && IsRun(w, states, events) && i < |states| && t in w.calls
    ensures RunsOf(events[..i], t) + StepsLeft(w, w.calls[t], states[i].pcs[t]) <= 4 * |MembersOf(w, w.calls[t])| + 6
    ensures StepsLeft(w, w.calls[t], states[i].pcs[t]) >= 0
  {
    if i > 0 {
      CallsAreBounded(w, states, events, i - 1, t);
      RunKeepsInv(w, states, events, i - 1);
      var s, e := states[i - 1], events[i - 1];
      assert events[..i][..i - 1] == events[..i - 1] && events[..i][i - 1] == e;
      assert ThreadOk(w, s.mem, t, s.pcs[t]);
      if e.Run? && e.thread == t {
        OwnStepProgresses(w, s.mem, s.poisoned, t, s.pcs[t], e.ok);
      }
    }
  }
}
