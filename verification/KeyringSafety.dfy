/** Every step of the unlock system keeps its invariant, and what that means over whole runs. */
module KeyringSafety {
  import opened Prelude
  import opened KeyStore
  import opened KeyringUnlock

  /** What a step of thread `t` may do to the memory: fill empty slots, in its own name. */
  ghost predicate Grows(mem: Memory, mem': Memory, t: nat) {
    && |mem'.slots| == |mem.slots| == |mem.installer| == |mem'.installer|
    && forall k :: 0 <= k < |mem.slots| ==>
         && (mem.slots[k].Some? ==> mem'.slots[k] == mem.slots[k])
         && (mem'.installer[k] == mem.installer[k] || mem'.installer[k] == Some(t))
         && (mem.installer[k].Some? ==> mem'.installer[k] == mem.installer[k])
  }

  /** Steps of one thread never disturb what another thread relies on. */
  lemma OthersStay(w: World, mem: Memory, mem': Memory, t: nat, u: nat, pc: Pc)
    requires Grows(mem, mem', t) && u in w.calls && u != t && ThreadOk(w, mem, u, pc)
    ensures ThreadOk(w, mem', u, pc)
  {
    assert forall k :: InstalledBy(mem', k, u) <==> InstalledBy(mem, k, u);
    assert forall k :: SlotFull(mem, k) ==> SlotFull(mem', k);
  }

  /** A step that gains a guard only where nobody else's guard stands in the way keeps guards exclusive. */
  lemma ExclusiveKept(w: World, s: State, t: nat, pc': Pc)
    requires Shape(w, s) && Exclusive(w, s.pcs) && t in w.calls && Available(w, s, Wants(w, w.calls[t], s.pcs[t]))
    requires forall k :: HoldsWrite(w.calls[t], pc', k) ==>
               HoldsWrite(w.calls[t], s.pcs[t], k) || Wants(w, w.calls[t], s.pcs[t]) == WriteLock(k)
    requires forall k :: HoldsRead(w, w.calls[t], pc', k) ==>
               HoldsRead(w, w.calls[t], s.pcs[t], k) || Wants(w, w.calls[t], s.pcs[t]) == ReadLock(k)
    ensures Exclusive(w, s.pcs[t := pc'])
  {
  }

  lemma MembersSound(w: World, call: Call)
    requires WorldOk(w)
    ensures Distinct(MembersOf(w, call))
    ensures forall k :: k in MembersOf(w, call) ==> k < |w.store.keys|
    ensures forall x :: 0 <= x < |MembersOf(w, call)| ==> Rank(MembersOf(w, call), MembersOf(w, call)[x]) == x
  {
  }

  // ---- One lemma per phase of the keyring call ----

  lemma ScanMemberOk(w: World, mem: Memory, members: seq<nat>, pass: string, scan: Scan, unlocked: bool)
    requires Distinct(members) && (forall k :: k in members ==> k < |w.store.keys|)
    requires ScanOk(w, mem, members, pass, scan) && |scan.outcomes| < |members|
             && members[|scan.outcomes|] < |w.store.keys|
    requires unlocked ==> SlotFull(mem, members[|scan.outcomes|])
    ensures ScanOk(w, mem, members, pass, ScanMember(w.decode, w.store, members[|scan.outcomes|], unlocked, pass, scan))
  {
    var i := |scan.outcomes|;
    var k := members[i];
    assert k in members && Rank(members, k) == i;
    var scan' := ScanMember(w.decode, w.store, k, unlocked, pass, scan);
    assert Names(w, members, scan'.outcomes);
    assert Opened(w, members, i + 1, pass, scan') by { OpenedOneMore(w, members, i, pass, scan, unlocked); }
    forall x | 0 <= x < |scan'.outcomes|
      ensures members[x] in scan'.decrypted ==> scan'.outcomes[x].result == Unlocked
      ensures scan'.outcomes[x].result == AlreadyUnlocked ==> SlotFull(mem, members[x])
      ensures scan'.outcomes[x].result == Unlocked ==> members[x] in scan'.decrypted || scan'.failed != []
    {
      if x == i {
        assert k !in scan.decrypted;
      } else {
        assert scan'.outcomes[x] == scan.outcomes[x];
        assert members[x] in scan.decrypted ==> members[x] in scan'.decrypted;
      }
    }
  }

  /** What one more scanned member adds to the decrypted keys comes after them in the ring. */
  lemma OpenedOneMore(w: World, members: seq<nat>, i: nat, pass: string, scan: Scan, unlocked: bool)
    requires i < |members| && members[i] < |w.store.keys| && Rank(members, members[i]) == i
    requires Opened(w, members, i, pass, scan)
    ensures Opened(w, members, i + 1, pass, ScanMember(w.decode, w.store, members[i], unlocked, pass, scan))
  {
  }

  lemma DecryptedDistinct(w: World, members: seq<nat>, n: nat, pass: string, scan: Scan)
    requires Opened(w, members, n, pass, scan)
    ensures Distinct(scan.decrypted)
  {
  }

  lemma InstallBegins(w: World, mem: Memory, t: nat, members: seq<nat>, pass: string, scan: Scan)
    requires ScanOk(w, mem, members, pass, scan) && NoInstall(mem, t)
    requires |scan.outcomes| == |members| && scan.failed == []
    ensures InstallOk(w, mem, t, members, pass, 0, scan)
  {
    assert scan.decrypted[0..] == scan.decrypted;
  }

  /** Releasing the first remaining guard leaves exactly the others. */
  lemma Release(decrypted: seq<nat>, j: nat)
    requires Distinct(decrypted) && j < |decrypted|
    ensures forall k :: k in decrypted[j + 1..] <==> k in decrypted[j..] && k != decrypted[j]
    ensures forall k :: k in decrypted[..j + 1] <==> k in decrypted[..j] || k == decrypted[j]
    ensures decrypted[j] in decrypted[j..] && decrypted[j] !in decrypted[..j]
  {
  }

  lemma PatchIsUpdate(w: World, members: seq<nat>, outcomes: seq<Outcome>, k: nat)
    requires WorldOk(w) && Distinct(members) && Names(w, members, outcomes) && |outcomes| == |members|
    requires k in members && IsActive(w, k)
    ensures Patch(outcomes, w.store.keys[k].id)
         == outcomes[Rank(members, k) := Outcome(w.store.keys[k].id, AlreadyUnlocked)]
    ensures Names(w, members, Patch(outcomes, w.store.keys[k].id))
  {
    OutcomeIdsDistinct(w, members, outcomes);
    PatchHits(outcomes, Rank(members, k));
  }

  /** A slot filled meanwhile by someone else: the outcome is corrected, nothing is written. */
  lemma InstallSkips(w: World, mem: Memory, t: nat, members: seq<nat>, pass: string, j: nat, scan: Scan)
    requires WorldOk(w) && MemoryShape(w, mem) && Distinct(members)
    requires InstallOk(w, mem, t, members, pass, j, scan) && j < |scan.decrypted| && SlotFull(mem, scan.decrypted[j])
    ensures InstallOk(w, mem, t, members, pass, j + 1,
                      scan.(outcomes := Patch(scan.outcomes, w.store.keys[scan.decrypted[j]].id)))
  {
    var k := scan.decrypted[j];
    var x := Rank(members, k);
    DecryptedDistinct(w, members, |members|, pass, scan);
    Release(scan.decrypted, j);
    PatchIsUpdate(w, members, scan.outcomes, k);
    var scan' := scan.(outcomes := Patch(scan.outcomes, w.store.keys[k].id));
    assert Opened(w, members, |members|, pass, scan');
    assert !InstalledBy(mem, k, t);
    forall y | 0 <= y < |members|
      ensures members[y] in scan.decrypted[j + 1..] ==> scan'.outcomes[y].result == Unlocked
      ensures scan'.outcomes[y].result == AlreadyUnlocked
              ==> SlotFull(mem, members[y]) && !InstalledBy(mem, members[y], t)
      ensures scan'.outcomes[y].result == Unlocked ==>
                members[y] in scan.decrypted[j + 1..] || InstalledBy(mem, members[y], t)
    {
      if y != x {
        assert members[y] != k;
        assert scan'.outcomes[y] == scan.outcomes[y];
      }
    }
  }

  lemma InstallWrites(w: World, mem: Memory, t: nat, members: seq<nat>, pass: string, j: nat, scan: Scan)
    requires MemoryShape(w, mem)
    requires InstallOk(w, mem, t, members, pass, j, scan) && j < |scan.decrypted|
    requires scan.decrypted[j] < |mem.slots| && !SlotFull(mem, scan.decrypted[j])
    ensures InstallOk(w, Install(mem, t, scan.decrypted[j], scan.materials[j]), t, members, pass, j + 1, scan)
  {
    var k := scan.decrypted[j];
    var mem' := Install(mem, t, k, scan.materials[j]);
    DecryptedDistinct(w, members, |members|, pass, scan);
    Release(scan.decrypted, j);
    assert forall q :: InstalledBy(mem', q, t) <==> InstalledBy(mem, q, t) || q == k;
    assert forall q :: SlotFull(mem', q) <==> SlotFull(mem, q) || q == k;
  }

  lemma OutcomeIdsDistinct(w: World, members: seq<nat>, outcomes: seq<Outcome>)
    requires WorldOk(w) && Distinct(members) && Names(w, members, outcomes)
    ensures forall i, j :: 0 <= i < j < |outcomes| ==> outcomes[i].keyId != outcomes[j].keyId
  {
    forall i, j | 0 <= i < j < |outcomes| ensures outcomes[i].keyId != outcomes[j].keyId {
      var ids := Ids(w.store.keys);
      assert ids[members[i]] == outcomes[i].keyId && ids[members[j]] == outcomes[j].keyId;
      assert members[i] < members[j] || members[j] < members[i];
    }
  }

  lemma InstallEnds(w: World, mem: Memory, t: nat, members: seq<nat>, pass: string, scan: Scan)
    requires InstallOk(w, mem, t, members, pass, |scan.decrypted|, scan)
    requires MemoryOk(w, mem)
    ensures ReportOk(w, mem, t, members, scan.outcomes)
  {
  }

  /** What every phase of a thread has to keep. */
  ghost predicate Kept(w: World, mem: Memory, t: nat, local: Local)
    requires t in w.calls
  {
    MemoryOk(w, local.mem) && Grows(mem, local.mem, t) && ThreadOk(w, local.mem, t, local.pc)
  }

  lemma ScanStepOk(w: World, mem: Memory, poisoned: seq<bool>, t: nat, pc: Pc)
    requires WorldOk(w) && MemoryOk(w, mem) && t in w.calls && w.calls[t].UnlockRing? && ThreadOk(w, mem, t, pc)
    requires pc.Scanning? || pc.Reading?
    ensures Kept(w, mem, t, RingStep(w, mem, poisoned, t, w.calls[t], pc))
  {
    var call := w.calls[t];
    var members := MembersOf(w, call);
    MembersSound(w, call);
    if |pc.scan.outcomes| < |members| {
      var k := members[|pc.scan.outcomes|];
      assert k in members;
      if pc.Reading? || !IsActive(w, k) {
        var unlocked := pc.Reading? && SeesUnlocked(mem, poisoned, k);
        var scan' := ScanMember(w.decode, w.store, k, unlocked, call.pass, pc.scan);
        ScanMemberOk(w, mem, members, call.pass, pc.scan, unlocked);
        assert RingStep(w, mem, poisoned, t, call, pc) == Local(mem, Scanning(scan'));
        assert RingOkAt(w, mem, t, call, Scanning(scan'));
      } else {
        assert RingStep(w, mem, poisoned, t, call, pc) == Local(mem, Reading(pc.scan));
      }
    } else {
      assert RingStep(w, mem, poisoned, t, call, pc).mem == mem;
    }
  }

  lemma InstallStepOk(w: World, mem: Memory, poisoned: seq<bool>, t: nat, pc: Pc)
    requires WorldOk(w) && MemoryOk(w, mem) && t in w.calls && w.calls[t].UnlockRing? && ThreadOk(w, mem, t, pc)
    requires pc.Installing?
    ensures Kept(w, mem, t, RingStep(w, mem, poisoned, t, w.calls[t], pc))
  {
    var call, members, j, scan := w.calls[t], MembersOf(w, w.calls[t]), pc.j, pc.scan;
    if j >= |scan.decrypted| {
      InstallEnds(w, mem, t, members, call.pass, scan);
      assert RingStep(w, mem, poisoned, t, call, pc) == Local(mem, RingReturned(Ok(scan.outcomes)));
    } else {
      var k := scan.decrypted[j];
      NextToInstall(w, mem, t, members, call.pass, j, scan);
      if SlotFull(mem, k) {
        var scan' := scan.(outcomes := Patch(scan.outcomes, w.store.keys[k].id));
        assert RingStep(w, mem, poisoned, t, call, pc) == Local(mem, Installing(j + 1, scan'));
        assert InstallOk(w, mem, t, members, call.pass, j + 1, scan') by {
          MembersSound(w, call);
          InstallSkips(w, mem, t, members, call.pass, j, scan);
        }
        InstallIsKept(w, mem, mem, t, j + 1, scan');
      } else {
        var mem' := Install(mem, t, k, scan.materials[j]);
        assert RingStep(w, mem, poisoned, t, call, pc) == Local(mem', Installing(j + 1, scan));
        assert InstallOk(w, mem', t, members, call.pass, j + 1, scan) by {
          InstallWrites(w, mem, t, members, call.pass, j, scan);
        }
        WriteIsGrowth(w, mem, t, k, scan.materials[j]);
        InstallIsKept(w, mem, mem', t, j + 1, scan);
      }
    }
  }

  lemma NextToInstall(w: World, mem: Memory, t: nat, members: seq<nat>, pass: string, j: nat, scan: Scan)
    requires InstallOk(w, mem, t, members, pass, j, scan) && j < |scan.decrypted|
    ensures |scan.materials| == |scan.decrypted| && IsActive(w, scan.decrypted[j])
    ensures Decrypt(w.decode, w.store.keys[scan.decrypted[j]], pass) == Some(scan.materials[j])
  {
  }

  lemma InstallIsKept(w: World, mem: Memory, mem': Memory, t: nat, j: nat, scan: Scan)
    requires t in w.calls && w.calls[t].UnlockRing? && MemoryOk(w, mem') && Grows(mem, mem', t)
    requires InstallOk(w, mem', t, MembersOf(w, w.calls[t]), w.calls[t].pass, j, scan)
    ensures Kept(w, mem, t, Local(mem', Installing(j, scan)))
  {
  }

  /** Filling the empty slot of an active key with what the call's passphrase decrypts it to. */
  lemma WriteIsGrowth(w: World, mem: Memory, t: nat, k: nat, m: Material)
    requires MemoryOk(w, mem) && t in w.calls && (w.calls[t].UnlockRing? || w.calls[t].UnlockKey?)
    requires IsActive(w, k) && !SlotFull(mem, k) && Decrypt(w.decode, w.store.keys[k], w.calls[t].pass) == Some(m)
    ensures MemoryOk(w, Install(mem, t, k, m)) && Grows(mem, Install(mem, t, k, m), t)
  {
  }

  lemma RingStepOk(w: World, mem: Memory, poisoned: seq<bool>, t: nat, pc: Pc)
    requires WorldOk(w) && MemoryOk(w, mem) && t in w.calls && w.calls[t].UnlockRing? && ThreadOk(w, mem, t, pc)
    ensures Kept(w, mem, t, RingStep(w, mem, poisoned, t, w.calls[t], pc))
  {
    if pc.Scanning? || pc.Reading? {
      ScanStepOk(w, mem, poisoned, t, pc);
    } else if pc.Installing? {
      InstallStepOk(w, mem, poisoned, t, pc);
    } else if pc.Acquiring? && pc.j >= |pc.scan.decrypted| {
      InstallBegins(w, mem, t, MembersOf(w, w.calls[t]), w.calls[t].pass, pc.scan);
    }
  }

  /** A keyring step gains a guard only by acquiring the lock it waited for. */
  lemma RingGains(w: World, mem: Memory, poisoned: seq<bool>, t: nat, call: Call, pc: Pc, k: nat)
    requires WorldOk(w) && MemoryShape(w, mem) && call.UnlockRing? && (pc.Acquiring? ==> pc.j <= |pc.scan.decrypted|)
    ensures var pc' := RingStep(w, mem, poisoned, t, call, pc).pc;
            && (HoldsWrite(call, pc', k) ==> HoldsWrite(call, pc, k) || Wants(w, call, pc) == WriteLock(k))
            && (HoldsRead(w, call, pc', k) ==> HoldsRead(w, call, pc, k) || Wants(w, call, pc) == ReadLock(k))
  {
    if pc.Acquiring? {
      var j, decrypted := pc.j, pc.scan.decrypted;
      if j < |decrypted| {
        assert decrypted[..j + 1] == decrypted[..j] + [decrypted[j]];
        assert decrypted[0..j] == decrypted[..j];
      } else {
        assert decrypted[..j] == decrypted == decrypted[0..];
      }
    } else if pc.Aborting? && pc.lo < pc.hi <= |pc.scan.decrypted| {
      assert pc.scan.decrypted[pc.lo..pc.hi] == [pc.scan.decrypted[pc.lo]] + pc.scan.decrypted[pc.lo + 1..pc.hi];
    } else if pc.Installing? && pc.j < |pc.scan.decrypted| {
      assert pc.scan.decrypted[pc.j..] == [pc.scan.decrypted[pc.j]] + pc.scan.decrypted[pc.j + 1..];
    }
  }

  // ---- The other calls ----

  lemma UnlockKeyStepOk(w: World, mem: Memory, poisoned: seq<bool>, t: nat, pc: Pc)
    requires WorldOk(w) && MemoryOk(w, mem) && t in w.calls && w.calls[t].UnlockKey? && ThreadOk(w, mem, t, pc)
    ensures Kept(w, mem, t, KeyStep(w, mem, poisoned, t, w.calls[t], pc))
  {
    var mem' := KeyStep(w, mem, poisoned, t, w.calls[t], pc).mem;
    assert mem' == mem || forall k :: InstalledBy(mem', k, t) <==> k == w.calls[t].key;
  }

  lemma SingleStepOk(w: World, mem: Memory, poisoned: seq<bool>, t: nat, pc: Pc, ok: bool)
    requires WorldOk(w) && MemoryOk(w, mem) && t in w.calls && !w.calls[t].UnlockRing? && ThreadOk(w, mem, t, pc)
    ensures Kept(w, mem, t, ThreadStep(w, mem, poisoned, t, pc, ok))
  {
    if w.calls[t].UnlockKey? {
      UnlockKeyStepOk(w, mem, poisoned, t, pc);
    } else {
      assert ThreadStep(w, mem, poisoned, t, pc, ok).mem == mem;
    }
  }

  lemma StepExclusive(w: World, s: State, t: nat, ok: bool)
    requires WorldOk(w) && Shape(w, s) && Exclusive(w, s.pcs) && Enabled(w, s, Run(t, ok))
             && ThreadOk(w, s.mem, t, s.pcs[t])
    ensures Exclusive(w, s.pcs[t := ThreadStep(w, s.mem, s.poisoned, t, s.pcs[t], ok).pc])
  {
    var call, pc := w.calls[t], s.pcs[t];
    var pc' := ThreadStep(w, s.mem, s.poisoned, t, pc, ok).pc;
    forall k
      ensures HoldsWrite(call, pc', k) ==> HoldsWrite(call, pc, k) || Wants(w, call, pc) == WriteLock(k)
      ensures HoldsRead(w, call, pc', k) ==> HoldsRead(w, call, pc, k) || Wants(w, call, pc) == ReadLock(k)
    {
      if call.UnlockRing? {
        RingGains(w, s.mem, s.poisoned, t, call, pc, k);
      }
    }
    ExclusiveKept(w, s, t, pc');
  }

  /** Every enabled event keeps the invariant and every full slot. */
  lemma StepKeepsInv(w: World, s: State, e: Event)
    requires WorldOk(w) && Inv(w, s) && Enabled(w, s, e)
    ensures Inv(w, Next(w, s, e))
    ensures forall k :: 0 <= k < |s.mem.slots| && s.mem.slots[k].Some? ==>
              Next(w, s, e).mem.slots[k] == s.mem.slots[k] && Next(w, s, e).mem.installer[k] == s.mem.installer[k]
  {
    if e.Run? {
      var t, ok := e.thread, e.ok;
      var mem' := Next(w, s, e).mem;
      if w.calls[t].UnlockRing? {
        RingStepOk(w, s.mem, s.poisoned, t, s.pcs[t]);
      } else {
        SingleStepOk(w, s.mem, s.poisoned, t, s.pcs[t], ok);
      }
      StepExclusive(w, s, t, ok);
      forall u | u in w.calls && u != t ensures ThreadOk(w, mem', u, s.pcs[u]) {
        OthersStay(w, s.mem, mem', t, u, s.pcs[u]);
      }
    }
  }

  // ---- Guards ----

  /** Two memories with their locks look the same to whoever holds these guards and takes this lock. */
  ghost predicate SameToHolder(w: World, call: Call, pc: Pc, a: Memory, aPoisoned: seq<bool>, b: Memory,
                               bPoisoned: seq<bool>)
  {
    && (forall k: nat :: HoldsRead(w, call, pc, k) || HoldsWrite(call, pc, k) ==>
          && k < |a.slots| && k < |b.slots| && a.slots[k] == b.slots[k]
          && IsPoisoned(aPoisoned, k) == IsPoisoned(bPoisoned, k))
    && (forall k :: Wants(w, call, pc) == WriteLock(k) ==> IsPoisoned(aPoisoned, k) == IsPoisoned(bPoisoned, k))
  }

  /** A step depends on no slot but those its thread holds a guard of, and on no other lock's poisoning. */
  lemma ReadsAreGuarded(w: World, a: Memory, aPoisoned: seq<bool>, b: Memory, bPoisoned: seq<bool>, t: nat, pc: Pc,
                        ok: bool)
    requires WorldOk(w) && MemoryShape(w, a) && MemoryShape(w, b) && t in w.calls
    requires SameToHolder(w, w.calls[t], pc, a, aPoisoned, b, bPoisoned)
    ensures ThreadStep(w, a, aPoisoned, t, pc, ok).pc == ThreadStep(w, b, bPoisoned, t, pc, ok).pc
  {
    if w.calls[t].UnlockRing? && pc.Installing? && pc.j < |pc.scan.decrypted| {
      assert pc.scan.decrypted[pc.j] == pc.scan.decrypted[pc.j..][0];
      assert HoldsWrite(w.calls[t], pc, pc.scan.decrypted[pc.j]);
    }
  }

  /** And it writes no slot but those its thread holds a write guard of. */
  lemma WritesAreGuarded(w: World, mem: Memory, poisoned: seq<bool>, t: nat, pc: Pc, ok: bool, k: nat)
    requires WorldOk(w) && MemoryShape(w, mem) && t in w.calls && k < |mem.slots|
    requires !HoldsWrite(w.calls[t], pc, k)
    ensures var next := ThreadStep(w, mem, poisoned, t, pc, ok).mem;
            |next.slots| == |mem.slots| && next.slots[k] == mem.slots[k]
  {
    if pc.Installing? && pc.j < |pc.scan.decrypted| {
      assert pc.scan.decrypted[pc.j] == pc.scan.decrypted[pc.j..][0];
    }
  }
}
