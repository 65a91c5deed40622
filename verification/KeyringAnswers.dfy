/**
 * What every call on the key store answers, from what it saw of the locks and slots along its run and
 * from what the decoders make of the key files.
 */
module KeyringAnswers {
  import opened Prelude
  import opened KeyStore
  import opened KeyringUnlock
  import opened KeyringSafety
  import opened KeyringTheorems

  /**
   * What a step of a call observes: a slot and its lock's poison flag under a guard, with whatever else
   * decided the step, or the poison flag of a write lock just taken.
   */
  datatype Seen = Read(key: nat, full: bool, poisoned: bool, ok: bool) | Take(key: nat, poisoned: bool)

  ghost function ReadOf(s: State, k: nat, ok: bool): Seen {
    Read(k, SlotFull(s.mem, k), IsPoisoned(s.poisoned, k), ok)
  }

  ghost function SeenAt(w: World, s: State, call: Call, pc: Pc, ok: bool): seq<Seen> {
    match pc
    case Reading(scan) =>
      var members := MembersOf(w, call);
      if |scan.outcomes| < |members| then [ReadOf(s, members[|scan.outcomes|], ok)] else []
    case Acquiring(j, scan) =>
      if j < |scan.decrypted| then [Take(scan.decrypted[j], IsPoisoned(s.poisoned, scan.decrypted[j]))] else []
    case KeyReading => if call.UnlockKey? then [ReadOf(s, call.key, ok)] else []
    case KeyAcquiring(_) => if call.UnlockKey? then [Take(call.key, IsPoisoned(s.poisoned, call.key))] else []
    case KeyInstalling(_) => if call.UnlockKey? then [ReadOf(s, call.key, ok)] else []
    case SignChecking => if call.SignWith? then [ReadOf(s, call.key, ok)] else []
    case SignHolding => if call.SignWith? then [ReadOf(s, call.key, ok)] else []
    case Observing => if call.Observe? then [ReadOf(s, call.key, ok)] else []
    case _ => []
  }

  /** Everything call `t` has seen in the first `i` events of a run, in order. */
  ghost function Trace(w: World, states: seq<State>, events: seq<Event>, i: nat, t: nat): seq<Seen>
    requires WorldOk(w) && IsRun(w, states, events) && i < |states| && t in w.calls
  {
    if i == 0 then []
    else
      Trace(w, states, events, i - 1, t) + SeenBy(w, states, events, i - 1, t)
  }

  /** What call `t` sees at event `i`. */
  ghost function SeenBy(w: World, states: seq<State>, events: seq<Event>, i: nat, t: nat): seq<Seen>
    requires WorldOk(w) && IsRun(w, states, events) && i < |events| && t in w.calls
  {
    if events[i].Run? && events[i].thread == t
    then SeenAt(w, states[i], w.calls[t], states[i].pcs[t], events[i].ok) else []
  }

  /** What was seen at one step of the run. */
  lemma {:induction false} SeenWasThere(w: World, states: seq<State>, events: seq<Event>, i: nat, t: nat, y: nat)
    returns (n: nat)
    requires WorldOk(w) && IsRun(w, states, events) && i < |states| && t in w.calls
    requires y < |Trace(w, states, events, i, t)|
    ensures n < i
    ensures var seen := Trace(w, states, events, i, t)[y];
            && seen.poisoned == IsPoisoned(states[n].poisoned, seen.key)
            && (seen.Read? ==> seen.full == SlotFull(states[n].mem, seen.key))
  {
    var before, more := Trace(w, states, events, i - 1, t), SeenBy(w, states, events, i - 1, t);
    assert Trace(w, states, events, i, t) == before + more;
    if y < |before| {
      n := SeenWasThere(w, states, events, i - 1, t, y);
    } else {
      n := i - 1;
      assert (before + more)[y] == more[y - |before|];
      SeenAtIsThere(w, states[n], w.calls[t], states[n].pcs[t], events[n].ok);
    }
  }

  lemma SeenAtIsThere(w: World, s: State, call: Call, pc: Pc, ok: bool)
    ensures forall y :: 0 <= y < |SeenAt(w, s, call, pc, ok)| ==>
              var seen := SeenAt(w, s, call, pc, ok)[y];
              && seen.poisoned == IsPoisoned(s.poisoned, seen.key)
              && (seen.Read? ==> seen.full == SlotFull(s.mem, seen.key))
  {
  }

  // ---- The keyring call ----

  /** The key's own decoder opens its file under the passphrase. */
  ghost predicate Opens(w: World, k: nat, pass: string) {
    k < |w.store.keys| && w.decode(w.store.keys[k].algorithm, w.store.keys[k].pem, pass).Some?
  }

  ghost function ActiveOf(w: World, members: seq<nat>): seq<nat> {
    if members == [] then []
    else
      var k := members[|members| - 1];
      ActiveOf(w, members[..|members| - 1])
      + (if k < |w.store.keys| && w.store.keys[k].state == Active then [k] else [])
  }

  /** Of the keys that were read as locked, those whose files the passphrase opens, or does not. */
  ghost function Tried(w: World, pass: string, looks: seq<Seen>, opens: bool): seq<nat> {
    if looks == [] then []
    else
      var r := looks[|looks| - 1];
      Tried(w, pass, looks[..|looks| - 1], opens)
      + (if r.Read? && !(r.full && !r.poisoned) && Opens(w, r.key, pass) == opens then [r.key] else [])
  }

  ghost function IdsOf(w: World, keys: seq<nat>): seq<string> {
    if keys == [] then []
    else
      var k := keys[|keys| - 1];
      IdsOf(w, keys[..|keys| - 1]) + [if k < |w.store.keys| then w.store.keys[k].id else ""]
  }

  /** One read of each of the keys, in order. */
  ghost predicate ReadsOf(looks: seq<Seen>, keys: seq<nat>) {
    |looks| == |keys| && forall y :: 0 <= y < |looks| ==> looks[y].Read? && looks[y].key == keys[y]
  }

  /** The write locks of the first of the keys, in order, none of them poisoned. */
  ghost predicate TookOf(takes: seq<Seen>, keys: seq<nat>) {
    |takes| <= |keys| && forall y :: 0 <= y < |takes| ==> takes[y] == Take(keys[y], false)
  }

  /**
   * The answer of a keyring call, given its reads of the active members and the locks it then took: an
   * absent ring, a ring without active members, the members that failed to open, the poisoned lock
   * that ended it, or success.
   */
  ghost predicate RingAnswer(w: World, call: Call, looks: seq<Seen>, takes: seq<Seen>,
                             r: Result<seq<Outcome>, RingError>)
    requires call.UnlockRing?
  {
    if call.name !in w.store.keyrings then r == Err(UnknownKeyring) && looks == takes == []
    else if ActiveOf(w, w.store.keyrings[call.name]) == [] then r == Err(NoActiveKeys) && looks == takes == []
    else
      var good, failed := Tried(w, call.pass, looks, true), Tried(w, call.pass, looks, false);
      && ReadsOf(looks, ActiveOf(w, w.store.keyrings[call.name]))
      && (if failed != [] then
            && takes == []
            && r == Err(if good == [] then InvalidPassphrase
                        else PassphraseMismatch(IdsOf(w, good), IdsOf(w, failed)))
          else if r.Ok? then TookOf(takes, good) && |takes| == |good|
          else r == Err(RingLockPoisoned) && EndsPoisoned(takes, good))
  }

  /** The last lock taken was poisoned, and none before it. */
  ghost predicate EndsPoisoned(takes: seq<Seen>, keys: seq<nat>) {
    && 0 < |takes| <= |keys| && TookOf(takes[..|takes| - 1], keys)
    && takes[|takes| - 1] == Take(keys[|takes| - 1], true)
  }

  /** What the scan of a keyring call has to do with its reads so far. */
  ghost predicate ScanFollows(w: World, members: seq<nat>, pass: string, looks: seq<Seen>, scan: Scan) {
    && |scan.outcomes| <= |members|
    && ReadsOf(looks, ActiveOf(w, members[..|scan.outcomes|]))
    && TriedOk(w, pass, looks, scan)
  }

  ghost predicate TriedOk(w: World, pass: string, looks: seq<Seen>, scan: Scan) {
    && scan.decrypted == Tried(w, pass, looks, true)
    && scan.openedIds == IdsOf(w, Tried(w, pass, looks, true))
    && scan.failed == IdsOf(w, Tried(w, pass, looks, false))
  }

  /** The reads are complete, nothing failed, and the locks taken so far were clean. */
  ghost predicate AllOpened(w: World, members: seq<nat>, pass: string, looks: seq<Seen>, scan: Scan) {
    && ActiveOf(w, members) != [] && ReadsOf(looks, ActiveOf(w, members))
    && TriedOk(w, pass, looks, scan) && Tried(w, pass, looks, false) == []
  }

  ghost predicate RingFollows(w: World, call: Call, pc: Pc, looks: seq<Seen>, takes: seq<Seen>)
    requires call.UnlockRing?
  {
    var members := MembersOf(w, call);
    match pc
    case Start => looks == takes == []
    case Scanning(scan) => takes == [] && ActiveOf(w, members) != [] && ScanFollows(w, members, call.pass, looks, scan)
    case Reading(scan) => takes == [] && ActiveOf(w, members) != [] && ScanFollows(w, members, call.pass, looks, scan)
    case Acquiring(j, scan) =>
      AllOpened(w, members, call.pass, looks, scan) && TookOf(takes, scan.decrypted) && |takes| == j
    case Aborting(_, _, scan) => AllOpened(w, members, call.pass, looks, scan) && EndsPoisoned(takes, scan.decrypted)
    case Installing(_, scan) =>
      AllOpened(w, members, call.pass, looks, scan) && TookOf(takes, scan.decrypted) && |takes| == |scan.decrypted|
    case RingReturned(r) => RingAnswer(w, call, looks, takes, r)
    case _ => false
  }

  lemma {:induction false} NoneActiveMeans(w: World, members: seq<nat>)
    ensures ActiveOf(w, members) == [] <==> NoneActive(w, members)
  {
    if members != [] {
      var init, k := members[..|members| - 1], members[|members| - 1];
      NoneActiveMeans(w, init);
      assert k in members && forall x :: x in members <==> x in init || x == k by { assert members == init + [k]; }
    }
  }

  lemma IdsOfMore(w: World, keys: seq<nat>, k: nat)
    requires k < |w.store.keys|
    ensures IdsOf(w, keys + [k]) == IdsOf(w, keys) + [w.store.keys[k].id]
  {
    assert (keys + [k])[..|keys|] == keys;
  }

  lemma {:induction false} NoIds(w: World, keys: seq<nat>)
    ensures IdsOf(w, keys) == [] <==> keys == []
  {
  }

  lemma TriedMore(w: World, pass: string, looks: seq<Seen>, r: Seen, opens: bool)
    ensures Tried(w, pass, looks + [r], opens)
         == Tried(w, pass, looks, opens)
            + (if r.Read? && !(r.full && !r.poisoned) && Opens(w, r.key, pass) == opens then [r.key] else [])
  {
    assert (looks + [r])[..|looks|] == looks;
  }

  lemma ActiveMore(w: World, members: seq<nat>, n: nat)
    requires n < |members|
    ensures ActiveOf(w, members[..n + 1])
         == ActiveOf(w, members[..n]) + (if IsActive(w, members[n]) then [members[n]] else [])
  {
    assert members[..n + 1][..n] == members[..n];
  }

  /** One scanned member: an inactive one is not read, an active one is read once and tried if locked. */
  lemma ScanReads(w: World, members: seq<nat>, pass: string, looks: seq<Seen>, scan: Scan, read: Seen)
    requires ScanFollows(w, members, pass, looks, scan) && |scan.outcomes| < |members|
    requires members[|scan.outcomes|] < |w.store.keys|
    requires read.Read? && read.key == members[|scan.outcomes|]
    ensures var k := members[|scan.outcomes|];
            var active, unlocked := IsActive(w, k), read.full && !read.poisoned;
            ScanFollows(w, members, pass, if active then looks + [read] else looks,
                        ScanMember(w.decode, w.store, k, unlocked, pass, scan))
  {
    var n, k, unlocked := |scan.outcomes|, members[|scan.outcomes|], read.full && !read.poisoned;
    var looks' := if IsActive(w, k) then looks + [read] else looks;
    assert ReadsOf(looks', ActiveOf(w, members[..n + 1])) by {
      ActiveMore(w, members, n);
      ReadsMore(looks, ActiveOf(w, members[..n]), read);
      assert ActiveOf(w, members[..n]) + [] == ActiveOf(w, members[..n]);
    }
    TriedOkMore(w, pass, looks, scan, read, k, unlocked);
    assert |ScanMember(w.decode, w.store, k, unlocked, pass, scan).outcomes| == n + 1;
  }

  lemma ReadsMore(looks: seq<Seen>, keys: seq<nat>, read: Seen)
    requires ReadsOf(looks, keys) && read.Read?
    ensures ReadsOf(looks + [read], keys + [read.key])
  {
  }

  lemma TriedOkMore(w: World, pass: string, looks: seq<Seen>, scan: Scan, read: Seen, k: nat, unlocked: bool)
    requires TriedOk(w, pass, looks, scan) && k < |w.store.keys| && read.Read? && read.key == k
    requires unlocked == (read.full && !read.poisoned)
    ensures TriedOk(w, pass, if IsActive(w, k) then looks + [read] else looks,
                    ScanMember(w.decode, w.store, k, unlocked, pass, scan))
  {
    if IsActive(w, k) {
      TriedMore(w, pass, looks, read, true);
      TriedMore(w, pass, looks, read, false);
      IdsOfMore(w, Tried(w, pass, looks, true), k);
      IdsOfMore(w, Tried(w, pass, looks, false), k);
      assert Tried(w, pass, looks, true) + [] == Tried(w, pass, looks, true);
      assert Tried(w, pass, looks, false) + [] == Tried(w, pass, looks, false);
    }
  }

  /** What one step of a keyring call adds to its reads and takes. */
  ghost function MoreReads(looks: seq<Seen>, seen: seq<Seen>): seq<Seen> {
    if seen != [] && seen[0].Read? then looks + seen else looks
  }

  ghost function MoreTakes(takes: seq<Seen>, seen: seq<Seen>): seq<Seen> {
    if seen != [] && seen[0].Take? then takes + seen else takes
  }

  lemma ScanStepFollows(w: World, s: State, t: nat, pc: Pc, ok: bool, looks: seq<Seen>)
    requires WorldOk(w) && Shape(w, s) && t in w.calls && w.calls[t].UnlockRing?
    requires pc.Scanning? || pc.Reading?
    requires RingOkAt(w, s.mem, t, w.calls[t], pc) && RingFollows(w, w.calls[t], pc, looks, [])
    ensures RingFollows(w, w.calls[t], RingStep(w, s.mem, s.poisoned, t, w.calls[t], pc).pc,
                        looks + SeenAt(w, s, w.calls[t], pc, ok), [])
  {
    var call := w.calls[t];
    var members, seen := MembersOf(w, call), SeenAt(w, s, call, pc, ok);
    if |pc.scan.outcomes| < |members| {
      var k := members[|pc.scan.outcomes|];
      assert k in members;
      if pc.Reading? {
        ScanReads(w, members, call.pass, looks, pc.scan, seen[0]);
        assert seen == [seen[0]];
      } else {
        assert looks + seen == looks;
        if !IsActive(w, k) {
          ScanReads(w, members, call.pass, looks, pc.scan, Read(k, false, false, ok));
        }
      }
    } else {
      assert members[..|members|] == members && looks + seen == looks;
      ScanEnds(w, call, looks, pc.scan);
    }
  }

  lemma ScanEnds(w: World, call: Call, looks: seq<Seen>, scan: Scan)
    requires call.UnlockRing? && ActiveOf(w, MembersOf(w, call)) != []
    requires ReadsOf(looks, ActiveOf(w, MembersOf(w, call))) && TriedOk(w, call.pass, looks, scan)
    ensures RingFollows(w, call,
                        if Verdict(scan).Some? then RingReturned(Err(Verdict(scan).value)) else Acquiring(0, scan),
                        looks, [])
  {
    NoIds(w, Tried(w, call.pass, looks, true));
    NoIds(w, Tried(w, call.pass, looks, false));
  }

  lemma TakeStepFollows(w: World, s: State, t: nat, pc: Pc, ok: bool, looks: seq<Seen>, takes: seq<Seen>)
    requires WorldOk(w) && Shape(w, s) && t in w.calls && w.calls[t].UnlockRing? && pc.Acquiring?
    requires RingFollows(w, w.calls[t], pc, looks, takes)
    ensures RingFollows(w, w.calls[t], RingStep(w, s.mem, s.poisoned, t, w.calls[t], pc).pc,
                        looks, takes + SeenAt(w, s, w.calls[t], pc, ok))
  {
    var seen, j, scan := SeenAt(w, s, w.calls[t], pc, ok), pc.j, pc.scan;
    if j >= |scan.decrypted| {
      assert takes + seen == takes;
    } else {
      TookMore(takes, scan.decrypted, IsPoisoned(s.poisoned, scan.decrypted[j]));
      assert seen == [Take(scan.decrypted[j], IsPoisoned(s.poisoned, scan.decrypted[j]))];
    }
  }

  lemma TookMore(takes: seq<Seen>, keys: seq<nat>, poisoned: bool)
    requires TookOf(takes, keys) && |takes| < |keys|
    ensures !poisoned ==> TookOf(takes + [Take(keys[|takes|], poisoned)], keys)
    ensures poisoned ==> EndsPoisoned(takes + [Take(keys[|takes|], poisoned)], keys)
  {
    assert (takes + [Take(keys[|takes|], poisoned)])[..|takes|] == takes;
  }

  lemma LastStepFollows(w: World, mem: Memory, poisoned: seq<bool>, t: nat, call: Call, pc: Pc,
                        looks: seq<Seen>, takes: seq<Seen>)
    requires WorldOk(w) && MemoryShape(w, mem) && call.UnlockRing?
    requires pc.Aborting? || pc.Installing? || pc.RingReturned?
    requires pc.Installing? && pc.j < |pc.scan.decrypted| ==>
               pc.scan.decrypted[pc.j] < |mem.slots| && |pc.scan.materials| == |pc.scan.decrypted|
    requires RingFollows(w, call, pc, looks, takes)
    ensures RingFollows(w, call, RingStep(w, mem, poisoned, t, call, pc).pc, looks, takes)
  {
    if pc.Aborting? {
      AbortFollows(w, call, looks, takes, pc.scan);
    } else if pc.Installing? {
      InstallFollows(w, call, looks, takes, pc.scan);
    }
  }

  lemma AbortFollows(w: World, call: Call, looks: seq<Seen>, takes: seq<Seen>, scan: Scan)
    requires call.UnlockRing? && AllOpened(w, MembersOf(w, call), call.pass, looks, scan)
    requires EndsPoisoned(takes, scan.decrypted)
    ensures RingAnswer(w, call, looks, takes, Err(RingLockPoisoned))
  {
  }

  lemma InstallFollows(w: World, call: Call, looks: seq<Seen>, takes: seq<Seen>, scan: Scan)
    requires call.UnlockRing? && AllOpened(w, MembersOf(w, call), call.pass, looks, scan)
    requires TookOf(takes, scan.decrypted) && |takes| == |scan.decrypted|
    ensures forall outcomes :: RingAnswer(w, call, looks, takes, Ok(outcomes))
  {
  }

  lemma StartStepFollows(w: World, s: State, t: nat)
    requires WorldOk(w) && Shape(w, s) && t in w.calls && w.calls[t].UnlockRing?
    ensures RingFollows(w, w.calls[t], RingStep(w, s.mem, s.poisoned, t, w.calls[t], Start).pc, [], [])
  {
    var members := MembersOf(w, w.calls[t]);
    NoneActiveMeans(w, members);
    assert members[..0] == [];
  }

  lemma RingStepFollows(w: World, s: State, t: nat, pc: Pc, ok: bool, looks: seq<Seen>, takes: seq<Seen>)
    requires WorldOk(w) && Shape(w, s) && t in w.calls && w.calls[t].UnlockRing?
    requires RingOkAt(w, s.mem, t, w.calls[t], pc) && RingFollows(w, w.calls[t], pc, looks, takes)
    ensures var seen := SeenAt(w, s, w.calls[t], pc, ok);
            RingFollows(w, w.calls[t], RingStep(w, s.mem, s.poisoned, t, w.calls[t], pc).pc,
                        MoreReads(looks, seen), MoreTakes(takes, seen))
  {
    if pc.Scanning? || pc.Reading? {
      ScanCase(w, s, t, pc, ok, looks);
    } else if pc.Acquiring? {
      TakeCase(w, s, t, pc, ok, looks, takes);
    } else {
      SilentStepFollows(w, s, t, pc, looks, takes);
    }
  }

  lemma ScanCase(w: World, s: State, t: nat, pc: Pc, ok: bool, looks: seq<Seen>)
    requires WorldOk(w) && Shape(w, s) && t in w.calls && w.calls[t].UnlockRing? && (pc.Scanning? || pc.Reading?)
    requires RingOkAt(w, s.mem, t, w.calls[t], pc) && RingFollows(w, w.calls[t], pc, looks, [])
    ensures RingFollows(w, w.calls[t], RingStep(w, s.mem, s.poisoned, t, w.calls[t], pc).pc,
                        MoreReads(looks, SeenAt(w, s, w.calls[t], pc, ok)),
                        MoreTakes([], SeenAt(w, s, w.calls[t], pc, ok)))
  {
    ScanStepFollows(w, s, t, pc, ok, looks);
    assert looks + [] == looks;
  }

  lemma TakeCase(w: World, s: State, t: nat, pc: Pc, ok: bool, looks: seq<Seen>, takes: seq<Seen>)
    requires WorldOk(w) && Shape(w, s) && t in w.calls && w.calls[t].UnlockRing? && pc.Acquiring?
    requires RingFollows(w, w.calls[t], pc, looks, takes)
    ensures var seen := SeenAt(w, s, w.calls[t], pc, ok);
            RingFollows(w, w.calls[t], RingStep(w, s.mem, s.poisoned, t, w.calls[t], pc).pc,
                        MoreReads(looks, seen), MoreTakes(takes, seen))
  {
    TakeStepFollows(w, s, t, pc, ok, looks, takes);
    assert takes + [] == takes;
  }

  /** Steps at which a keyring call sees nothing. */
  lemma SilentStepFollows(w: World, s: State, t: nat, pc: Pc, looks: seq<Seen>, takes: seq<Seen>)
    requires WorldOk(w) && Shape(w, s) && t in w.calls && w.calls[t].UnlockRing?
    requires !pc.Scanning? && !pc.Reading? && !pc.Acquiring?
    requires RingOkAt(w, s.mem, t, w.calls[t], pc) && RingFollows(w, w.calls[t], pc, looks, takes)
    ensures RingFollows(w, w.calls[t], RingStep(w, s.mem, s.poisoned, t, w.calls[t], pc).pc, looks, takes)
  {
    if pc.Start? {
      StartStepFollows(w, s, t);
    } else {
      assert pc.Installing? && pc.j < |pc.scan.decrypted| ==>
          pc.scan.decrypted[pc.j] < |s.mem.slots| && |pc.scan.materials| == |pc.scan.decrypted|
      by {
        if pc.Installing? && pc.j < |pc.scan.decrypted| {
          NextToInstall(w, s.mem, t, MembersOf(w, w.calls[t]), w.calls[t].pass, pc.j, pc.scan);
        }
      }
      LastStepFollows(w, s.mem, s.poisoned, t, w.calls[t], pc, looks, takes);
    }
  }

  /** What a call has read before taking its first write lock, and the locks it has taken since. */
  ghost function LooksIn(trace: seq<Seen>): seq<Seen> {
    if trace == [] then []
    else LooksIn(trace[..|trace| - 1]) + (if trace[|trace| - 1].Read? then [trace[|trace| - 1]] else [])
  }

  ghost function TakesIn(trace: seq<Seen>): seq<Seen> {
    if trace == [] then []
    else TakesIn(trace[..|trace| - 1]) + (if trace[|trace| - 1].Take? then [trace[|trace| - 1]] else [])
  }

  lemma LooksMore(trace: seq<Seen>, r: Seen)
    ensures LooksIn(trace + [r]) == LooksIn(trace) + (if r.Read? then [r] else [])
  {
    assert (trace + [r])[..|trace|] == trace;
  }

  lemma TakesMore(trace: seq<Seen>, r: Seen)
    ensures TakesIn(trace + [r]) == TakesIn(trace) + (if r.Take? then [r] else [])
  {
    assert (trace + [r])[..|trace|] == trace;
  }

  lemma OneMoreSeen(trace: seq<Seen>, seen: seq<Seen>)
    requires |seen| <= 1
    ensures LooksIn(trace + seen) == MoreReads(LooksIn(trace), seen)
    ensures TakesIn(trace + seen) == MoreTakes(TakesIn(trace), seen)
  {
    if seen == [] {
      assert trace + seen == trace;
    } else {
      assert seen == [seen[0]];
      LooksMore(trace, seen[0]);
      TakesMore(trace, seen[0]);
    }
  }

  /** The keyring call is where its reads and takes have brought it. */
  ghost predicate RingOnTrack(w: World, call: Call, pc: Pc, trace: seq<Seen>)
    requires call.UnlockRing?
  {
    RingFollows(w, call, pc, LooksIn(trace), TakesIn(trace))
  }

  lemma OnTrackStep(w: World, s: State, t: nat, e: Event, trace: seq<Seen>)
    requires WorldOk(w) && Inv(w, s) && t in w.calls && w.calls[t].UnlockRing? && Enabled(w, s, e)
    requires RingOnTrack(w, w.calls[t], s.pcs[t], trace)
    ensures RingOnTrack(w, w.calls[t], Next(w, s, e).pcs[t],
                        trace + (if e.Run? && e.thread == t then SeenAt(w, s, w.calls[t], s.pcs[t], e.ok) else []))
  {
    if e.Run? && e.thread == t {
      assert ThreadOk(w, s.mem, t, s.pcs[t]);
      RingStepFollows(w, s, t, s.pcs[t], e.ok, LooksIn(trace), TakesIn(trace));
      OneMoreSeen(trace, SeenAt(w, s, w.calls[t], s.pcs[t], e.ok));
    } else {
      assert trace + [] == trace;
    }
  }

  lemma RunStepOnTrack(w: World, states: seq<State>, events: seq<Event>, i: nat, t: nat, trace: seq<Seen>)
    requires WorldOk(w) && IsRun(w, states, events) && i < |events| && t in w.calls && w.calls[t].UnlockRing?
    requires RingOnTrack(w, w.calls[t], states[i].pcs[t], trace)
    ensures RingOnTrack(w, w.calls[t], states[i + 1].pcs[t], trace + SeenBy(w, states, events, i, t))
  {
    RunKeepsInv(w, states, events, i);
    OnTrackStep(w, states[i], t, events[i], trace);
  }

  /** Along every run. */
  lemma RingFollowsTrace(w: World, states: seq<State>, events: seq<Event>, i: nat, t: nat)
    requires WorldOk(w) && IsRun(w, states, events) && i < |states| && t in w.calls && w.calls[t].UnlockRing?
    ensures RingOnTrack(w, w.calls[t], states[i].pcs[t], Trace(w, states, events, i, t))
  {
    var onTrack := (n: int) => 0 <= n < |states|
                               && RingOnTrack(w, w.calls[t], states[n].pcs[t], Trace(w, states, events, n, t));
    assert onTrack(0);
    forall n | 0 <= n < i && onTrack(n) ensures onTrack(n + 1) {
      RunStepOnTrack(w, states, events, n, t, Trace(w, states, events, n, t));
    }
    HoldsAlong(onTrack, i);
  }

  /**
   * Every answer of a keyring call, in every run: exactly what its reads of the active members, in ring
   * order, the decoders on those it read as locked, and the write locks it then took make it.
   */
  lemma RingAnswersAreExact(w: World, states: seq<State>, events: seq<Event>, i: nat, t: nat)
    requires WorldOk(w) && IsRun(w, states, events) && i < |states| && t in w.calls && w.calls[t].UnlockRing?
    requires states[i].pcs[t].RingReturned?
    ensures var trace := Trace(w, states, events, i, t);
            RingAnswer(w, w.calls[t], LooksIn(trace), TakesIn(trace), states[i].pcs[t].ring)
  {
    RingFollowsTrace(w, states, events, i, t);
    ReturnedAnswer(w, w.calls[t], states[i].pcs[t], Trace(w, states, events, i, t));
  }

  lemma ReturnedAnswer(w: World, call: Call, pc: Pc, trace: seq<Seen>)
    requires call.UnlockRing? && pc.RingReturned? && RingOnTrack(w, call, pc, trace)
    ensures RingAnswer(w, call, LooksIn(trace), TakesIn(trace), pc.ring)
  {
  }

  /** Absent and inactive rings are refused, and nothing else is refused as such. */
  lemma RingRefusalsAreExact(w: World, states: seq<State>, events: seq<Event>, i: nat, t: nat)
    requires WorldOk(w) && IsRun(w, states, events) && i < |states| && t in w.calls && w.calls[t].UnlockRing?
    requires states[i].pcs[t].RingReturned?
    ensures states[i].pcs[t].ring == Err(UnknownKeyring) <==> w.calls[t].name !in w.store.keyrings
    ensures states[i].pcs[t].ring == Err(NoActiveKeys) <==>
            && w.calls[t].name in w.store.keyrings
            && forall k :: k in w.store.keyrings[w.calls[t].name] && k < |w.store.keys| ==>
                 w.store.keys[k].state != Active
  {
    RingAnswersAreExact(w, states, events, i, t);
    if w.calls[t].name in w.store.keyrings {
      NoneActiveMeans(w, w.store.keyrings[w.calls[t].name]);
    }
  }

  lemma {:induction false} TriedMeans(w: World, pass: string, looks: seq<Seen>, opens: bool, k: nat)
    ensures k in Tried(w, pass, looks, opens) <==>
            exists y :: 0 <= y < |looks| && looks[y].Read? && looks[y].key == k
                        && !(looks[y].full && !looks[y].poisoned) && Opens(w, k, pass) == opens
  {
    if looks != [] {
      var n := |looks| - 1;
      TriedMeans(w, pass, looks[..n], opens, k);
      if k in Tried(w, pass, looks, opens) && k in Tried(w, pass, looks[..n], opens) {
        var y :| 0 <= y < n && looks[..n][y].Read? && looks[..n][y].key == k
                 && !(looks[..n][y].full && !looks[..n][y].poisoned) && Opens(w, k, pass) == opens;
        assert looks[y] == looks[..n][y];
      }
      if y :| 0 <= y < |looks| && looks[y].Read? && looks[y].key == k
              && !(looks[y].full && !looks[y].poisoned) && Opens(w, k, pass) == opens {
        assert y < n ==> looks[..n][y] == looks[y];
      }
    }
  }

  lemma {:induction false} ActiveMeans(w: World, members: seq<nat>, k: nat)
    ensures k in ActiveOf(w, members) <==> k in members && IsActive(w, k)
  {
    if members != [] {
      var init, last := members[..|members| - 1], members[|members| - 1];
      ActiveMeans(w, init, k);
      assert k in members <==> k in init || k == last by { assert members == init + [last]; }
    }
  }

  lemma {:induction false} TakesAreSeen(trace: seq<Seen>, y: nat) returns (z: nat)
    requires y < |TakesIn(trace)|
    ensures z < |trace| && trace[z] == TakesIn(trace)[y]
  {
    if y < |TakesIn(trace[..|trace| - 1])| {
      z := TakesAreSeen(trace[..|trace| - 1], y);
    } else {
      z := |trace| - 1;
    }
  }

  /** A keyring call reports a poisoned lock only if an active member that it opened had its lock poisoned by then. */
  lemma PoisonReportIsTrue(w: World, states: seq<State>, events: seq<Event>, i: nat, t: nat) returns (k: nat, n: nat)
    requires WorldOk(w) && IsRun(w, states, events) && i < |states| && t in w.calls && w.calls[t].UnlockRing?
    requires states[i].pcs[t] == RingReturned(Err(RingLockPoisoned))
    ensures k in MembersOf(w, w.calls[t]) && k < |w.store.keys| && w.store.keys[k].state == Active
    ensures Opens(w, k, w.calls[t].pass) && n < i && IsPoisoned(states[n].poisoned, k)
  {
    RingAnswersAreExact(w, states, events, i, t);
    var trace := Trace(w, states, events, i, t);
    k := PoisonedMember(w, w.calls[t], LooksIn(trace), TakesIn(trace));
    var z := TakesAreSeen(trace, |TakesIn(trace)| - 1);
    n := SeenWasThere(w, states, events, i, t, z);
  }

  lemma PoisonedMember(w: World, call: Call, looks: seq<Seen>, takes: seq<Seen>) returns (k: nat)
    requires call.UnlockRing? && RingAnswer(w, call, looks, takes, Err(RingLockPoisoned))
    ensures k in MembersOf(w, call) && IsActive(w, k) && Opens(w, k, call.pass)
    ensures takes != [] && takes[|takes| - 1] == Take(k, true)
  {
    var good := Tried(w, call.pass, looks, true);
    k := good[|takes| - 1];
    assert k in good;
    TriedMeans(w, call.pass, looks, true, k);
    var y :| 0 <= y < |looks| && looks[y].Read? && looks[y].key == k && Opens(w, k, call.pass);
    assert ActiveOf(w, MembersOf(w, call))[y] == k;
    ActiveMeans(w, MembersOf(w, call), k);
  }

  ghost predicate NoPoison(events: seq<Event>) {
    forall e :: e in events ==> !e.Poison?
  }

  lemma {:induction false} NeverPoisoned(w: World, states: seq<State>, events: seq<Event>, i: nat, k: nat)
    requires WorldOk(w) && IsRun(w, states, events) && i < |states| && NoPoison(events)
    ensures !IsPoisoned(states[i].poisoned, k)
  {
    if i > 0 {
      NeverPoisoned(w, states, events, i - 1, k);
      assert events[i - 1] in events;
    }
  }

  /** Where no lock is poisoned, a passphrase that opens every active member of a ring that has one is never refused. */
  lemma RightPassphraseIsNotRefused(w: World, states: seq<State>, events: seq<Event>, i: nat, t: nat)
    requires WorldOk(w) && IsRun(w, states, events) && i < |states| && NoPoison(events)
    requires t in w.calls && w.calls[t].UnlockRing? && states[i].pcs[t].RingReturned?
    requires exists k :: k in MembersOf(w, w.calls[t]) && IsActive(w, k)
    requires forall k :: k in MembersOf(w, w.calls[t]) && IsActive(w, k) ==> Opens(w, k, w.calls[t].pass)
    ensures states[i].pcs[t].ring.Ok?
  {
    RingAnswersAreExact(w, states, events, i, t);
    var members, looks := MembersOf(w, w.calls[t]), LooksIn(Trace(w, states, events, i, t));
    var k :| k in members && IsActive(w, k);
    ActiveMeans(w, members, k);
    if Tried(w, w.calls[t].pass, looks, false) != [] {
      var q := Tried(w, w.calls[t].pass, looks, false)[0];
      TriedMeans(w, w.calls[t].pass, looks, false, q);
      assert q in ActiveOf(w, members);
      ActiveMeans(w, members, q);
    }
    if states[i].pcs[t].ring == Err(RingLockPoisoned) {
      var q, n := PoisonReportIsTrue(w, states, events, i, t);
      NeverPoisoned(w, states, events, n, q);
    }
  }

  // ---- The single-key calls ----

  /** `unlock`: the state, a look, the decoder, the write lock, a second look under it. */
  ghost predicate KeyAnswer(w: World, k: nat, pass: string, trace: seq<Seen>, r: Result<MemberResult, UnlockError>) {
    if !(k < |w.store.keys| && w.store.keys[k].state == Active) then trace == [] && r == Err(Inactive)
    else
      && |trace| >= 1 && trace[0].Read? && trace[0].key == k
      && (if trace[0].poisoned then |trace| == 1 && r == Err(LockPoisoned)
          else if trace[0].full then |trace| == 1 && r == Ok(AlreadyUnlocked)
          else if !Opens(w, k, pass) then |trace| == 1 && r == Err(BadPassphrase)
          else
            && |trace| >= 2
            && (if trace[1] == Take(k, true) then |trace| == 2 && r == Err(LockPoisoned)
                else
                  && |trace| == 3 && trace[1] == Take(k, false) && trace[2].Read? && trace[2].key == k
                  && r == Ok(if trace[2].full then AlreadyUnlocked else Unlocked)))
  }

  /** A signer: the state, a look before and one at signing, each step with whatever else decided it. */
  ghost predicate SignAnswer(w: World, k: nat, trace: seq<Seen>, out: SignOutcome) {
    if !(k < |w.store.keys| && w.store.keys[k].state == Active) then trace == [] && out == NotActive
    else
      && |trace| >= 1 && trace[0].Read? && trace[0].key == k
      && (if trace[0].poisoned || !trace[0].full then |trace| == 1 && out == RefusedLocked
          else if !trace[0].ok then |trace| == 1 && out == Rejected
          else
            && |trace| == 2 && trace[1].Read? && trace[1].key == k
            && (if trace[1].poisoned then out == Failed
                else if !trace[1].full then out == LockedAtSigning
                else if !trace[1].ok then out == Failed
                else out.Signed?))
  }

  ghost predicate SingleFollows(w: World, call: Call, pc: Pc, trace: seq<Seen>)
    requires !call.UnlockRing?
  {
    var k := call.key;
    match pc
    case Start => trace == []
    case KeyReading => call.UnlockKey? && IsActive(w, k) && trace == []
    case KeyAcquiring(_) => call.UnlockKey? && FoundLocked(w, k, call.pass, trace)
    case KeyInstalling(_) =>
      call.UnlockKey? && |trace| == 2 && FoundLocked(w, k, call.pass, trace[..1]) && trace[1] == Take(k, false)
    case KeyReturned(r) => call.UnlockKey? && KeyAnswer(w, k, call.pass, trace, r)
    case SignChecking => call.SignWith? && IsActive(w, k) && trace == []
    case SignReady => call.SignWith? && FoundUnlocked(w, k, trace)
    case SignHolding => call.SignWith? && FoundUnlocked(w, k, trace)
    case SignReturned(out) => call.SignWith? && SignAnswer(w, k, trace, out)
    case Observing => call.Observe? && trace == []
    case ObserveReturned(unlocked) =>
      call.Observe? && |trace| == 1 && trace[0].Read? && trace[0].key == k
      && unlocked == (trace[0].full && !trace[0].poisoned)
    case _ => false
  }

  ghost predicate FoundLocked(w: World, k: nat, pass: string, trace: seq<Seen>) {
    && IsActive(w, k) && Opens(w, k, pass)
    && |trace| == 1 && trace[0].Read? && trace[0].key == k && !trace[0].poisoned && !trace[0].full
  }

  ghost predicate FoundUnlocked(w: World, k: nat, trace: seq<Seen>) {
    && IsActive(w, k)
    && |trace| == 1 && trace[0].Read? && trace[0].key == k && !trace[0].poisoned && trace[0].full && trace[0].ok
  }

  lemma SingleStepFollows(w: World, s: State, t: nat, pc: Pc, ok: bool, trace: seq<Seen>)
    requires WorldOk(w) && Shape(w, s) && t in w.calls && !w.calls[t].UnlockRing?
    requires SingleFollows(w, w.calls[t], pc, trace)
    ensures SingleFollows(w, w.calls[t], ThreadStep(w, s.mem, s.poisoned, t, pc, ok).pc,
                          trace + SeenAt(w, s, w.calls[t], pc, ok))
  {
    var seen := SeenAt(w, s, w.calls[t], pc, ok);
    assert |trace| == 1 ==> (trace + seen)[..1] == trace;
    assert seen == [] ==> trace + seen == trace;
    assert trace == [] ==> trace + seen == seen;
  }

  lemma RunStepFollows(w: World, states: seq<State>, events: seq<Event>, i: nat, t: nat, trace: seq<Seen>)
    requires WorldOk(w) && IsRun(w, states, events) && i < |events| && t in w.calls && !w.calls[t].UnlockRing?
    requires SingleFollows(w, w.calls[t], states[i].pcs[t], trace)
    ensures SingleFollows(w, w.calls[t], states[i + 1].pcs[t], trace + SeenBy(w, states, events, i, t))
  {
    assert Enabled(w, states[i], events[i]);
    if events[i].Run? && events[i].thread == t {
      SingleStepFollows(w, states[i], t, states[i].pcs[t], events[i].ok, trace);
    } else {
      assert trace + [] == trace;
    }
  }

  lemma SingleFollowsTrace(w: World, states: seq<State>, events: seq<Event>, i: nat, t: nat)
    requires WorldOk(w) && IsRun(w, states, events) && i < |states| && t in w.calls && !w.calls[t].UnlockRing?
    ensures SingleFollows(w, w.calls[t], states[i].pcs[t], Trace(w, states, events, i, t))
  {
    var onTrack := (n: int) =>
      0 <= n < |states| && SingleFollows(w, w.calls[t], states[n].pcs[t], Trace(w, states, events, n, t));
    assert onTrack(0);
    forall n | 0 <= n < i && onTrack(n) ensures onTrack(n + 1) {
      RunStepFollows(w, states, events, n, t, Trace(w, states, events, n, t));
    }
    HoldsAlong(onTrack, i);
  }

  /** Every answer of a single-key unlock, a signer and an observer, in every run, from what it saw. */
  lemma SingleAnswersAreExact(w: World, states: seq<State>, events: seq<Event>, i: nat, t: nat)
    requires WorldOk(w) && IsRun(w, states, events) && i < |states| && t in w.calls
    ensures var call, pc, trace := w.calls[t], states[i].pcs[t], Trace(w, states, events, i, t);
            && (call.UnlockKey? && Returned(pc) ==> pc.KeyReturned? && KeyAnswer(w, call.key, call.pass, trace, pc.key))
            && (call.SignWith? && Returned(pc) ==> pc.SignReturned? && SignAnswer(w, call.key, trace, pc.signed))
            && (call.Observe? && Returned(pc) ==>
                  pc.ObserveReturned? && |trace| == 1 && trace[0].Read? && trace[0].key == call.key
                  && pc.unlocked == (trace[0].full && !trace[0].poisoned))
  {
    if !w.calls[t].UnlockRing? {
      SingleFollowsTrace(w, states, events, i, t);
    }
  }
}
