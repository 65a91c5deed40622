/**
 * The unlock operations as they update the slots in place. `InstallAll` runs under every write guard
 * of its keys, so nothing else touches those slots meanwhile; `Unlock` and `UnlockKeyring` are the
 * whole calls when no other call interleaves.
 */
module KeySlots {
  import opened Prelude
  import opened KeyStore
  import opened KeyringUnlock
  import opened KeyringSafety

  ghost predicate InRange(store: Store, members: seq<nat>) {
    forall x :: 0 <= x < |members| ==> members[x] < |store.keys|
  }

  /** The slots as `is_unlocked` shows them: behind a poisoned lock a key reads as locked. */
  ghost function Visible(slots: seq<Option<Material>>, poisoned: set<nat>): seq<Option<Material>> {
    seq(|slots|, k requires 0 <= k < |slots| => if k in poisoned then None else slots[k])
  }

  /** What the member loop accumulates over a fixed snapshot of the slots. */
  ghost function ScanAll(decode: Decoder, store: Store, slots: seq<Option<Material>>, members: seq<nat>,
                         pass: string): Scan
    requires |slots| == |store.keys| && InRange(store, members)
  {
    if members == [] then EMPTY_SCAN
    else
      var k := members[|members| - 1];
      ScanMember(decode, store, k, slots[k].Some?,
                 pass, ScanAll(decode, store, slots, members[..|members| - 1], pass))
  }

  /** The ids of the locked, active members whose decryption succeeds (or fails), in ring order. */
  ghost function LockedIds(decode: Decoder, store: Store, slots: seq<Option<Material>>, members: seq<nat>, pass: string,
                     success: bool): seq<string>
    requires |slots| == |store.keys| && InRange(store, members)
  {
    if members == [] then []
    else
      var k := members[|members| - 1];
      var before := LockedIds(decode, store, slots, members[..|members| - 1], pass, success);
      if NeedsUnlock(store, slots, k) && Decrypt(decode, store.keys[k], pass).Some? == success
      then before + [store.keys[k].id] else before
  }

  predicate NeedsUnlock(store: Store, slots: seq<Option<Material>>, k: nat)
    requires |slots| == |store.keys| && k < |store.keys|
  {
    store.keys[k].state == Active && slots[k].None?
  }

  function Reported(store: Store, slots: seq<Option<Material>>, k: nat): Outcome
    requires |slots| == |store.keys| && k < |store.keys|
  {
    Outcome(store.keys[k].id,
            if store.keys[k].state != Active then SkippedInactive
            else if slots[k].Some? then AlreadyUnlocked else Unlocked)
  }

  /** The scan reports every member, in ring order, and files each locked one under opened or failed. */
  lemma {:induction false} ScanAllReports(decode: Decoder, store: Store, slots: seq<Option<Material>>,
                                          members: seq<nat>,
                                          pass: string)
    requires |slots| == |store.keys| && InRange(store, members)
    ensures var scan := ScanAll(decode, store, slots, members, pass);
            && |scan.outcomes| == |members|
            && (forall x :: 0 <= x < |members| ==> scan.outcomes[x] == Reported(store, slots, members[x]))
            && scan.openedIds == LockedIds(decode, store, slots, members, pass, true)
            && scan.failed == LockedIds(decode, store, slots, members, pass, false)
  {
    if members != [] {
      ScanAllReports(decode, store, slots, members[..|members| - 1], pass);
    }
  }

  /**
   * `decrypted` is, without repeats, exactly the locked members the passphrase opens, and `materials`
   * their contents.
   */
  ghost predicate OpensExactly(decode: Decoder, store: Store, slots: seq<Option<Material>>, members: seq<nat>,
                               pass: string,
                               decrypted: seq<nat>, materials: seq<Material>)
    requires |slots| == |store.keys| && InRange(store, members)
  {
    && |materials| == |decrypted| && Distinct(decrypted)
    && (forall u :: 0 <= u < |decrypted| ==>
          && decrypted[u] in members && NeedsUnlock(store, slots, decrypted[u])
          && Decrypt(decode, store.keys[decrypted[u]], pass) == Some(materials[u]))
    && (forall k :: k in members && NeedsUnlock(store, slots, k) && Decrypt(decode, store.keys[k], pass).Some? ==>
          k in decrypted)
  }

  lemma {:induction false} ScanAllOpens(decode: Decoder, store: Store, slots: seq<Option<Material>>, members: seq<nat>,
                                        pass: string)
    requires |slots| == |store.keys| && InRange(store, members) && Distinct(members)
    ensures var scan := ScanAll(decode, store, slots, members, pass);
            OpensExactly(decode, store, slots, members, pass, scan.decrypted, scan.materials)
  {
    if members != [] {
      var init, k := members[..|members| - 1], members[|members| - 1];
      assert members == init + [k] && k !in init;
      ScanAllOpens(decode, store, slots, init, pass);
      OpensStep(decode, store, slots, init, k, pass, ScanAll(decode, store, slots, init, pass));
    }
  }

  lemma OpensStep(decode: Decoder, store: Store, slots: seq<Option<Material>>, init: seq<nat>, k: nat, pass: string,
                  scan: Scan)
    requires |slots| == |store.keys| && InRange(store, init) && k < |store.keys| && k !in init
    requires OpensExactly(decode, store, slots, init, pass, scan.decrypted, scan.materials)
    ensures var scan' := ScanMember(decode, store, k, slots[k].Some?, pass, scan);
            OpensExactly(decode, store, slots, init + [k], pass, scan'.decrypted, scan'.materials)
  {
  }

  /** No id is filed as failed exactly when the passphrase opens every locked member. */
  lemma {:induction false} NoneFailed(decode: Decoder, store: Store, slots: seq<Option<Material>>, members: seq<nat>,
                                      pass: string)
    requires |slots| == |store.keys| && InRange(store, members)
    ensures LockedIds(decode, store, slots, members, pass, false) == [] <==>
            forall k :: k in members && NeedsUnlock(store, slots, k) ==> Decrypt(decode, store.keys[k], pass).Some?
  {
    if members != [] {
      var init, k := members[..|members| - 1], members[|members| - 1];
      assert members == init + [k];
      NoneFailed(decode, store, slots, init, pass);
    }
  }

  class Slots {
    const store: Store
    const decode: Decoder
    const slots: array<Option<Material>>
    /** The keys whose lock is poisoned. */
    var poisoned: set<nat>

    ghost predicate Valid()
      reads this
    {
      Sound(store) && slots.Length == |store.keys|
    }

    /** `KeyStore::load`: every key starts locked. */
    constructor (store: Store, decode: Decoder)
      requires Sound(store)
      ensures Valid() && this.store == store && this.decode == decode && fresh(slots)
      ensures poisoned == {} && forall k :: 0 <= k < slots.Length ==> slots[k] == None
    {
      this.poisoned := {};
      this.store := store;
      this.decode := decode;
      this.slots := new Option<Material>[|store.keys|](_ => None);
    }

    /** What `is_unlocked` lets a caller see of the slots. */
    ghost function View(): (v: seq<Option<Material>>)
      reads this, slots
      requires Valid()
      ensures |v| == |store.keys|
    {
      Visible(slots[..], poisoned)
    }

    /** `KeyMaterial::install`: takes the key's write lock and fills the slot if it is still empty. */
    method Install(k: nat, m: Material) returns (r: Result<MemberResult, UnlockError>)
      requires Valid() && k < slots.Length
      modifies slots
      ensures r == (if k in poisoned then Err(LockPoisoned)
                    else if old(slots[k]).Some? then Ok(AlreadyUnlocked) else Ok(Unlocked))
      ensures slots[..] == old(slots[..])[k := if r == Ok(Unlocked) then Some(m) else old(slots[k])]
    {
      if k in poisoned {
        return Err(LockPoisoned);
      }
      if slots[k].Some? {
        return Ok(AlreadyUnlocked);
      }
      slots[k] := Some(m);
      return Ok(Unlocked);
    }

    /** `KeyMaterial::unlock` with no other call in between. */
    method Unlock(k: nat, pass: string) returns (r: Result<MemberResult, UnlockError>)
      requires Valid() && k < slots.Length
      modifies slots
      ensures r == (if store.keys[k].state != Active then Err(Inactive)
                    else if k in poisoned then Err(LockPoisoned)
                    else if old(slots[k]).Some? then Ok(AlreadyUnlocked)
                    else if Decrypt(decode, store.keys[k], pass).Some? then Ok(Unlocked)
                    else Err(BadPassphrase))
      ensures slots[..] == old(slots[..])[k := if r == Ok(Unlocked) then Decrypt(decode, store.keys[k], pass)
                                               else old(slots[k])]
    {
      if store.keys[k].state != Active {
        return Err(Inactive);
      }
      if k in poisoned {
        return Err(LockPoisoned);
      }
      if slots[k].Some? {
        return Ok(AlreadyUnlocked);
      }
      var material := Decrypt(decode, store.keys[k], pass);
      if material.None? {
        return Err(BadPassphrase);
      }
      r := Install(k, material.value);
    }

    /** The member loop of `unlock_keyring`. */
    method ScanMembers(members: seq<nat>, pass: string) returns (scan: Scan)
      requires Valid() && InRange(store, members)
      ensures scan == ScanAll(decode, store, View(), members, pass)
    {
      scan := EMPTY_SCAN;
      for i := 0 to |members|
        invariant scan == ScanAll(decode, store, View(), members[..i], pass)
      {
        var k := members[i];
        assert k in members;
        scan := ScanMember(decode, store, k, k !in poisoned && slots[k].Some?, pass, scan);
        assert members[..i + 1][..i] == members[..i];
      }
      assert members[..|members|] == members;
    }

    /**
     * The install loop of `unlock_keyring`, under all its write guards: a slot somebody filled since
     * the scan is kept and its outcome corrected, every other decrypted key is installed.
     */
    method InstallAll(members: seq<nat>, scan: Scan) returns (outcomes: seq<Outcome>)
      requires Valid() && Distinct(members) && InRange(store, members)
      requires |scan.outcomes| == |members| && |scan.materials| == |scan.decrypted| && Distinct(scan.decrypted)
      requires forall x :: 0 <= x < |members| ==> scan.outcomes[x].keyId == store.keys[members[x]].id
      requires forall u :: 0 <= u < |scan.decrypted| ==> scan.decrypted[u] in members
      modifies slots
      ensures forall u :: 0 <= u < |scan.decrypted| ==>
                slots[scan.decrypted[u]] == (if old(slots[scan.decrypted[u]]).Some? then old(slots[scan.decrypted[u]])
                                             else Some(scan.materials[u]))
      ensures forall k :: 0 <= k < slots.Length && k !in scan.decrypted ==> slots[k] == old(slots[k])
      ensures |outcomes| == |members|
      ensures forall x :: 0 <= x < |members| ==>
                outcomes[x] == if members[x] in scan.decrypted && old(slots[members[x]]).Some?
                               then Outcome(scan.outcomes[x].keyId, AlreadyUnlocked) else scan.outcomes[x]
    {
      outcomes := scan.outcomes;
      for j := 0 to |scan.decrypted|
        invariant |outcomes| == |members|
        invariant forall x :: 0 <= x < |members| ==>
                    outcomes[x] == if members[x] in scan.decrypted[..j] && old(slots[members[x]]).Some?
                                   then Outcome(scan.outcomes[x].keyId, AlreadyUnlocked) else scan.outcomes[x]
        invariant forall u :: 0 <= u < j ==>
                    slots[scan.decrypted[u]]
                        == (if old(slots[scan.decrypted[u]]).Some? then old(slots[scan.decrypted[u]])
                                                 else Some(scan.materials[u]))
        invariant forall k :: 0 <= k < slots.Length && k !in scan.decrypted[..j] ==> slots[k] == old(slots[k])
      {
        var k := scan.decrypted[j];
        assert k in scan.decrypted;
        Release(scan.decrypted, j);
        if slots[k].Some? {
          PatchOne(store, members, outcomes, k);
          outcomes := Patch(outcomes, store.keys[k].id);
        } else {
          slots[k] := Some(scan.materials[j]);
        }
      }
      assert scan.decrypted[..|scan.decrypted|] == scan.decrypted;
    }

    /** `unlock_keyring` past its first checks: scan, verdict, install. */
    method OpenMembers(members: seq<nat>, pass: string) returns (r: Result<seq<Outcome>, RingError>)
      requires Valid() && InRange(store, members) && Distinct(members)
      modifies slots
      ensures r.Ok? <==> forall k :: k in members && NeedsUnlock(store, old(View()), k) ==>
                           Decrypt(decode, store.keys[k], pass).Some? && k !in poisoned
      ensures r.Ok? ==> forall k :: 0 <= k < slots.Length ==>
                slots[k] == if k in members && NeedsUnlock(store, old(View()), k)
                            then Decrypt(decode, store.keys[k], pass) else old(slots[k])
      ensures r.Ok? ==> |r.value| == |members|
                        && forall x :: 0 <= x < |members| ==> r.value[x] == Reported(store, old(View()), members[x])
      ensures r.Err? ==> slots[..] == old(slots[..])
      ensures r.Err? ==>
                var good := LockedIds(decode, store, old(View()), members, pass, true);
                var failed := LockedIds(decode, store, old(View()), members, pass, false);
                r.error == if failed == [] then RingLockPoisoned
                           else if good == [] then InvalidPassphrase else PassphraseMismatch(good, failed)
    {
      ghost var view := View();
      var scan := ScanMembers(members, pass);
      ScanAllReports(decode, store, view, members, pass);
      ScanAllOpens(decode, store, view, members, pass);
      NoneFailed(decode, store, view, members, pass);
      var verdict := Verdict(scan);
      if verdict.Some? {
        return Err(verdict.value);
      }
      // The write locks are taken in order; the first poisoned one ends the call, and its guards are dropped.
      if k :| k in scan.decrypted && k in poisoned {
        return Err(RingLockPoisoned);
      }
      var outcomes := InstallAll(members, scan);
      InstalledExactly(decode, store, view, old(slots[..]), slots[..], members, pass, scan.decrypted, scan.materials);
      return Ok(outcomes);
    }

    /**
     * `unlock_keyring` with no other call in between is all-or-nothing: it succeeds exactly when some
     * member is active, the passphrase decrypts every locked, active one and no active member's lock
     * is poisoned; then exactly those slots change, and otherwise none does. Errors name the members
     * by what the passphrase did to them, or report the poisoned lock.
     */
    method UnlockKeyring(name: string, pass: string) returns (r: Result<seq<Outcome>, RingError>)
      requires Valid()
      modifies slots
      ensures InRange(store, Members(store, name))
      ensures r.Err? ==> slots[..] == old(slots[..])
      ensures r == Err(UnknownKeyring) <==> name !in store.keyrings
      ensures r == Err(NoActiveKeys) <==>
              name in store.keyrings && forall k :: k in Members(store, name) ==> store.keys[k].state != Active
      ensures r.Ok? <==>
              && (exists k :: k in Members(store, name) && store.keys[k].state == Active)
              && (forall k :: k in Members(store, name) && NeedsUnlock(store, old(slots[..]), k) ==>
                    Decrypt(decode, store.keys[k], pass).Some?)
              && (forall k :: k in Members(store, name) && store.keys[k].state == Active ==> k !in poisoned)
      ensures r.Ok? ==> forall k :: 0 <= k < slots.Length ==>
                slots[k] == if k in Members(store, name) && NeedsUnlock(store, old(slots[..]), k)
                            then Decrypt(decode, store.keys[k], pass) else old(slots[k])
      ensures r.Ok? ==> |r.value| == |Members(store, name)|
                        && forall x :: 0 <= x < |r.value| ==>
                             r.value[x] == Reported(store, old(slots[..]), Members(store, name)[x])
      ensures r.Err? && r.error != UnknownKeyring && r.error != NoActiveKeys ==>
                var good := LockedIds(decode, store, old(View()), Members(store, name), pass, true);
                var failed := LockedIds(decode, store, old(View()), Members(store, name), pass, false);
                r.error == if failed == [] then RingLockPoisoned
                           else if good == [] then InvalidPassphrase else PassphraseMismatch(good, failed)
    {
      var members := Members(store, name);
      assert InRange(store, members) by {
        forall x | 0 <= x < |members| ensures members[x] < |store.keys| {
          assert members[x] in store.keyrings[name];
        }
      }
      if |members| == 0 {
        return Err(UnknownKeyring);
      }
      if forall k <- members :: store.keys[k].state != Active {
        return Err(NoActiveKeys);
      }
      r := OpenMembers(members, pass);
    }
  }

  /** Installing what the scan opened fills exactly the locked, active members. */
  lemma InstalledExactly(decode: Decoder, store: Store, view: seq<Option<Material>>, before: seq<Option<Material>>,
                         after: seq<Option<Material>>, members: seq<nat>, pass: string, decrypted: seq<nat>,
                         materials: seq<Material>)
    requires |view| == |before| == |after| == |store.keys| && InRange(store, members)
    requires OpensExactly(decode, store, view, members, pass, decrypted, materials)
    requires forall k :: k in members && NeedsUnlock(store, view, k) ==> Decrypt(decode, store.keys[k], pass).Some?
    requires forall u :: 0 <= u < |decrypted| ==> before[decrypted[u]] == view[decrypted[u]]
    requires forall u :: 0 <= u < |decrypted| ==>
               after[decrypted[u]] == if before[decrypted[u]].Some? then before[decrypted[u]] else Some(materials[u])
    requires forall k :: 0 <= k < |before| && k !in decrypted ==> after[k] == before[k]
    ensures forall k :: 0 <= k < |before| ==>
              after[k] == if k in members && NeedsUnlock(store, view, k) then Decrypt(decode, store.keys[k], pass)
                          else before[k]
  {
  }

  lemma PatchOne(store: Store, members: seq<nat>, outcomes: seq<Outcome>, k: nat)
    requires Sound(store) && Distinct(members) && InRange(store, members)
    requires |outcomes| == |members| && k in members
    requires forall x :: 0 <= x < |members| ==> outcomes[x].keyId == store.keys[members[x]].id
    ensures |Patch(outcomes, store.keys[k].id)| == |members|
    ensures forall x :: 0 <= x < |members| ==>
              Patch(outcomes, store.keys[k].id)[x]
              == if members[x] == k then Outcome(outcomes[x].keyId, AlreadyUnlocked) else outcomes[x]
  {
    var ids := Ids(store.keys);
    forall i, j | 0 <= i < j < |outcomes| ensures outcomes[i].keyId != outcomes[j].keyId {
      assert members[i] in members && members[j] in members;
      assert ids[members[i]] == outcomes[i].keyId && ids[members[j]] == outcomes[j].keyId;
      assert members[i] < members[j] || members[j] < members[i];
    }
    PatchHits(outcomes, Rank(members, k));
  }
}
