/**
 * Key unlocking as a system of threads over per-key reader/writer locks.
 *
 * A lock is the set of guards the threads hold, so lock ownership is read off the threads' program
 * counters. Every acquisition, and every release together with the access it protects, is one step;
 * any number of keyring unlocks, single-key unlocks, signers and observers interleave.
 */
module KeyringUnlock {
  import opened Prelude
  import opened KeyStore

  datatype Material = P256Key(secret: nat) | Secp256k1Key(secret: nat) | RsaPssKey(secret: nat)

  function AlgorithmOf(m: Material): KeyAlgorithm {
    match m
    case P256Key(_) => P256
    case Secp256k1Key(_) => Secp256k1
    case RsaPssKey(_) => RsaPss
  }

  /** The PKCS#8 decoders, one per algorithm: (algorithm, PEM, passphrase) to a raw secret. */
  type Decoder = (KeyAlgorithm, string, string) -> Option<nat>

  function SecretOf(m: Material): nat {
    m.secret
  }

  /** `decrypt`: what the decoder of the key's own algorithm makes of its PEM, as material of that algorithm. */
  function Decrypt(decode: Decoder, key: Key, pass: string): (m: Option<Material>)
    ensures m.Some? <==> decode(key.algorithm, key.pem, pass).Some?
    ensures m.Some? ==> decode(key.algorithm, key.pem, pass) == Some(SecretOf(m.value))
    ensures m.Some? ==> AlgorithmOf(m.value) == key.algorithm
  {
    match (key.algorithm, decode(key.algorithm, key.pem, pass))
    case (P256, Some(x)) => Some(P256Key(x))
    case (Secp256k1, Some(x)) => Some(Secp256k1Key(x))
    case (RsaPss, Some(x)) => Some(RsaPssKey(x))
    case (_, None) => None
  }

  // ---- The local work of unlock_keyring ----

  datatype MemberResult = Unlocked | AlreadyUnlocked | SkippedInactive

  datatype Outcome = Outcome(keyId: string, result: MemberResult)

  datatype RingError =
    | UnknownKeyring
    | NoActiveKeys
    | InvalidPassphrase
    | PassphraseMismatch(openedIds: seq<string>, failed: seq<string>)
    | RingLockPoisoned

  /** The vectors `unlock_keyring` accumulates; `decrypted` and `materials` run in parallel. */
  datatype Scan = Scan(
    outcomes: seq<Outcome>,
    decrypted: seq<nat>,
    materials: seq<Material>,
    openedIds: seq<string>,
    failed: seq<string>)

  const EMPTY_SCAN := Scan([], [], [], [], [])

  /** One iteration of the member loop, given what `is_unlocked` answered. */
  function ScanMember(decode: Decoder, store: Store, position: nat, unlocked: bool, pass: string, scan: Scan): Scan
    requires position < |store.keys|
  {
    var key := store.keys[position];
    if key.state != Active then
      scan.(outcomes := scan.outcomes + [Outcome(key.id, SkippedInactive)])
    else if unlocked then
      scan.(outcomes := scan.outcomes + [Outcome(key.id, AlreadyUnlocked)])
    else
      match Decrypt(decode, key, pass)
      case Some(m) =>
        Scan(scan.outcomes + [Outcome(key.id, Unlocked)], scan.decrypted + [position], scan.materials + [m],
             scan.openedIds + [key.id], scan.failed)
      case None =>
        scan.(outcomes := scan.outcomes + [Outcome(key.id, Unlocked)], failed := scan.failed + [key.id])
  }

  function Verdict(scan: Scan): Option<RingError> {
    if scan.failed == [] then None
    else if scan.openedIds == [] then Some(InvalidPassphrase)
    else Some(PassphraseMismatch(scan.openedIds, scan.failed))
  }

  /** Overwrites the first outcome with this key id, as the lookup in the install loop does. */
  function Patch(outcomes: seq<Outcome>, keyId: string): seq<Outcome> {
    if outcomes == [] then []
    else if outcomes[0].keyId == keyId then [outcomes[0].(result := AlreadyUnlocked)] + outcomes[1..]
    else [outcomes[0]] + Patch(outcomes[1..], keyId)
  }

  /** With distinct ids the lookup hits the one intended entry and no other. */
  lemma {:induction false} PatchHits(outcomes: seq<Outcome>, x: nat)
    requires x < |outcomes|
    requires forall i, j :: 0 <= i < j < |outcomes| ==> outcomes[i].keyId != outcomes[j].keyId
    ensures Patch(outcomes, outcomes[x].keyId) == outcomes[x := Outcome(outcomes[x].keyId, AlreadyUnlocked)]
  {
    if x > 0 {
      var rest := outcomes[1..];
      assert rest[x - 1] == outcomes[x];
      forall i, j | 0 <= i < j < |rest| ensures rest[i].keyId != rest[j].keyId {
        assert rest[i] == outcomes[i + 1] && rest[j] == outcomes[j + 1];
      }
      PatchHits(rest, x - 1);
      var hit := Outcome(outcomes[x].keyId, AlreadyUnlocked);
      assert outcomes[0].keyId != outcomes[x].keyId;
      assert Patch(outcomes, outcomes[x].keyId) == [outcomes[0]] + rest[x - 1 := hit];
    }
  }

  // ---- The concurrent system ----

  datatype Call =
    | UnlockRing(name: string, pass: string)
    | UnlockKey(key: nat, pass: string)
    | SignWith(key: nat)
    | Observe(key: nat)

  datatype UnlockError = Inactive | BadPassphrase | LockPoisoned

  datatype SignOutcome = NotActive | RefusedLocked | Rejected | Signed(material: Material) | LockedAtSigning | Failed

  /** Program counters; `Start` to the matching `...Returned`. */
  datatype Pc =
    | Start
    | Scanning(scan: Scan)
    | Reading(scan: Scan)
    | Acquiring(j: nat, scan: Scan)
    | Aborting(lo: nat, hi: nat, scan: Scan)
    | Installing(j: nat, scan: Scan)
    | RingReturned(ring: Result<seq<Outcome>, RingError>)
    | KeyReading
    | KeyAcquiring(material: Material)
    | KeyInstalling(material: Material)
    | KeyReturned(key: Result<MemberResult, UnlockError>)
    | SignChecking
    | SignReady
    | SignHolding
    | SignReturned(signed: SignOutcome)
    | Observing
    | ObserveReturned(unlocked: bool)

  datatype World = World(store: Store, decode: Decoder, calls: map<nat, Call>)

  /** The lock-protected slots; `installer` is a history variable: the thread that wrote a slot. */
  datatype Memory = Memory(slots: seq<Option<Material>>, installer: seq<Option<nat>>)

  datatype State = State(mem: Memory, poisoned: seq<bool>, pcs: map<nat, Pc>)

  datatype Event = Run(thread: nat, ok: bool) | Poison(key: nat)

  ghost predicate WorldOk(w: World) {
    && Sound(w.store)
    && forall t :: t in w.calls && !w.calls[t].UnlockRing? ==> w.calls[t].key < |w.store.keys|
  }

  ghost predicate Shape(w: World, s: State) {
    MemoryShape(w, s.mem) && |s.poisoned| == |w.store.keys| && s.pcs.Keys == w.calls.Keys
  }

  ghost predicate MemoryShape(w: World, mem: Memory) {
    |mem.slots| == |w.store.keys| == |mem.installer|
  }

  function IsActive(w: World, k: nat): bool {
    k < |w.store.keys| && w.store.keys[k].state == Active
  }

  /** The members of the keyring a call names (none for a single-key call). */
  function MembersOf(w: World, call: Call): seq<nat> {
    if call.UnlockRing? then Members(w.store, call.name) else []
  }

  function HoldsRead(w: World, call: Call, pc: Pc, k: nat): bool {
    match pc
    case Reading(scan) =>
      var members := MembersOf(w, call);
      |scan.outcomes| < |members| && members[|scan.outcomes|] == k
    case KeyReading => call.UnlockKey? && call.key == k
    case SignChecking => call.SignWith? && call.key == k
    case SignHolding => call.SignWith? && call.key == k
    case Observing => call.Observe? && call.key == k
    case _ => false
  }

  function HoldsWrite(call: Call, pc: Pc, k: nat): bool {
    match pc
    case Acquiring(j, scan) => j <= |scan.decrypted| && k in scan.decrypted[..j]
    case Aborting(lo, hi, scan) => lo <= hi <= |scan.decrypted| && k in scan.decrypted[lo..hi]
    case Installing(j, scan) => j <= |scan.decrypted| && k in scan.decrypted[j..]
    case KeyInstalling(_) => call.UnlockKey? && call.key == k
    case _ => false
  }

  datatype Want = Free | ReadLock(key: nat) | WriteLock(key: nat)

  /** The lock a thread's next step has to acquire, if any. */
  function Wants(w: World, call: Call, pc: Pc): Want {
    match pc
    case Start =>
      if call.UnlockRing? || (!call.Observe? && !IsActive(w, call.key)) then Free else ReadLock(call.key)
    case Scanning(scan) =>
      var members := MembersOf(w, call);
      if |scan.outcomes| < |members| && IsActive(w, members[|scan.outcomes|])
      then ReadLock(members[|scan.outcomes|]) else Free
    case Acquiring(j, scan) => if j < |scan.decrypted| then WriteLock(scan.decrypted[j]) else Free
    case KeyAcquiring(_) => if call.UnlockKey? then WriteLock(call.key) else Free
    case SignReady => if call.SignWith? then ReadLock(call.key) else Free
    case _ => Free
  }

  predicate Returned(pc: Pc) {
    pc.RingReturned? || pc.KeyReturned? || pc.SignReturned? || pc.ObserveReturned?
  }

  ghost predicate NoWriter(w: World, s: State, k: nat) {
    forall u :: u in s.pcs && u in w.calls ==> !HoldsWrite(w.calls[u], s.pcs[u], k)
  }

  ghost predicate NoReader(w: World, s: State, k: nat) {
    forall u :: u in s.pcs && u in w.calls ==> !HoldsRead(w, w.calls[u], s.pcs[u], k)
  }

  ghost predicate Available(w: World, s: State, want: Want) {
    match want
    case Free => true
    case ReadLock(k) => NoWriter(w, s, k)
    case WriteLock(k) => NoWriter(w, s, k) && NoReader(w, s, k)
  }

  ghost predicate Enabled(w: World, s: State, e: Event) {
    match e
    case Run(t, _) =>
      && t in w.calls && t in s.pcs && !Returned(s.pcs[t])
      && Available(w, s, Wants(w, w.calls[t], s.pcs[t]))
    case Poison(k) => k < |s.poisoned|
  }

  /** `is_unlocked`: a poisoned lock reads as locked. */
  function SeesUnlocked(mem: Memory, poisoned: seq<bool>, k: nat): bool {
    SlotFull(mem, k) && !IsPoisoned(poisoned, k)
  }

  function SlotFull(mem: Memory, k: nat): bool {
    k < |mem.slots| && mem.slots[k].Some?
  }

  function IsPoisoned(poisoned: seq<bool>, k: nat): bool {
    k < |poisoned| && poisoned[k]
  }

  function Install(mem: Memory, t: nat, k: nat, m: Material): Memory
    requires k < |mem.slots| && k < |mem.installer|
  {
    Memory(mem.slots[k := Some(m)], mem.installer[k := Some(t)])
  }

  /** What one step of a thread leaves behind: the memory and the thread's next program counter. */
  datatype Local = Local(mem: Memory, pc: Pc)

  ghost predicate NoneActive(w: World, members: seq<nat>) {
    forall k :: k in members ==> !IsActive(w, k)
  }

  ghost function RingStep(w: World, mem: Memory, poisoned: seq<bool>, t: nat, call: Call, pc: Pc): Local
    requires WorldOk(w) && MemoryShape(w, mem) && call.UnlockRing?
  {
    var members := MembersOf(w, call);
    match pc
    case Start =>
      Local(mem, if members == [] then RingReturned(Err(UnknownKeyring))
                 else if NoneActive(w, members) then RingReturned(Err(NoActiveKeys))
                 else Scanning(EMPTY_SCAN))
    case Scanning(scan) =>
      if |scan.outcomes| >= |members| then
        Local(mem, if Verdict(scan).Some? then RingReturned(Err(Verdict(scan).value)) else Acquiring(0, scan))
      else
        var k := members[|scan.outcomes|];
        assert k in members;
        Local(mem, if IsActive(w, k) then Reading(scan)
                   else Scanning(ScanMember(w.decode, w.store, k, false, call.pass, scan)))
    case Reading(scan) =>
      if |scan.outcomes| >= |members| then Local(mem, pc)
      else
        var k := members[|scan.outcomes|];
        assert k in members;
        Local(mem, Scanning(ScanMember(w.decode, w.store, k, SeesUnlocked(mem, poisoned, k), call.pass, scan)))
    case Acquiring(j, scan) =>
      Local(mem, if j >= |scan.decrypted| then Installing(0, scan)
                 else if IsPoisoned(poisoned, scan.decrypted[j]) then Aborting(0, j, scan)
                 else Acquiring(j + 1, scan))
    case Aborting(lo, hi, scan) =>
      Local(mem, if lo >= hi then RingReturned(Err(RingLockPoisoned)) else Aborting(lo + 1, hi, scan))
    case Installing(j, scan) =>
      if j >= |scan.decrypted| then Local(mem, RingReturned(Ok(scan.outcomes)))
      else
        var k := scan.decrypted[j];
        if k >= |mem.slots| || j >= |scan.materials| then Local(mem, pc)
        else if mem.slots[k].Some? then
          Local(mem, Installing(j + 1, scan.(outcomes := Patch(scan.outcomes, w.store.keys[k].id))))
        else
          Local(Install(mem, t, k, scan.materials[j]), Installing(j + 1, scan))
    case _ => Local(mem, pc)
  }

  function KeyStep(w: World, mem: Memory, poisoned: seq<bool>, t: nat, call: Call, pc: Pc): Local
    requires MemoryShape(w, mem) && call.UnlockKey? && call.key < |w.store.keys|
  {
    var k := call.key;
    match pc
    case Start => Local(mem, if IsActive(w, k) then KeyReading else KeyReturned(Err(Inactive)))
    case KeyReading =>
      Local(mem, if IsPoisoned(poisoned, k) then KeyReturned(Err(LockPoisoned))
                 else if mem.slots[k].Some? then KeyReturned(Ok(AlreadyUnlocked))
                 else match Decrypt(w.decode, w.store.keys[k], call.pass)
                      case Some(m) => KeyAcquiring(m)
                      case None => KeyReturned(Err(BadPassphrase)))
    case KeyAcquiring(m) =>
      Local(mem, if IsPoisoned(poisoned, k) then KeyReturned(Err(LockPoisoned)) else KeyInstalling(m))
    case KeyInstalling(m) =>
      if mem.slots[k].Some? then Local(mem, KeyReturned(Ok(AlreadyUnlocked)))
      else Local(Install(mem, t, k, m), KeyReturned(Ok(Unlocked)))
    case _ => Local(mem, pc)
  }

  /** `validate_signing_request` reads the slot, then `sign_digest` reads it again. */
  function SignStep(w: World, mem: Memory, poisoned: seq<bool>, call: Call, pc: Pc, ok: bool): Local
    requires MemoryShape(w, mem) && call.SignWith? && call.key < |w.store.keys|
  {
    var k := call.key;
    match pc
    case Start => Local(mem, if IsActive(w, k) then SignChecking else SignReturned(NotActive))
    case SignChecking =>
      Local(mem, if !SeesUnlocked(mem, poisoned, k) then SignReturned(RefusedLocked)
                 else if ok then SignReady else SignReturned(Rejected))
    case SignReady => Local(mem, SignHolding)
    case SignHolding =>
      Local(mem, if IsPoisoned(poisoned, k) then SignReturned(Failed)
                 else match mem.slots[k]
                      case None => SignReturned(LockedAtSigning)
                      case Some(m) => if ok then SignReturned(Signed(m)) else SignReturned(Failed))
    case _ => Local(mem, pc)
  }

  function ObserveStep(mem: Memory, poisoned: seq<bool>, call: Call, pc: Pc): Local
    requires call.Observe?
  {
    match pc
    case Start => Local(mem, Observing)
    case Observing => Local(mem, ObserveReturned(SeesUnlocked(mem, poisoned, call.key)))
    case _ => Local(mem, pc)
  }

  ghost function ThreadStep(w: World, mem: Memory, poisoned: seq<bool>, t: nat, pc: Pc, ok: bool): Local
    requires WorldOk(w) && MemoryShape(w, mem) && t in w.calls
  {
    var call := w.calls[t];
    match call
    case UnlockRing(_, _) => RingStep(w, mem, poisoned, t, call, pc)
    case UnlockKey(_, _) => KeyStep(w, mem, poisoned, t, call, pc)
    case SignWith(_) => SignStep(w, mem, poisoned, call, pc, ok)
    case Observe(_) => ObserveStep(mem, poisoned, call, pc)
  }

  ghost function Next(w: World, s: State, e: Event): State
    requires WorldOk(w) && Shape(w, s) && Enabled(w, s, e)
  {
    match e
    case Poison(k) => s.(poisoned := s.poisoned[k := true])
    case Run(t, ok) =>
      var local := ThreadStep(w, s.mem, s.poisoned, t, s.pcs[t], ok);
      s.(mem := local.mem, pcs := s.pcs[t := local.pc])
  }

  ghost predicate Init(w: World, s: State) {
    && Shape(w, s)
    && (forall k :: 0 <= k < |s.mem.slots| ==> s.mem.slots[k] == None && s.mem.installer[k] == None)
    && (forall t :: t in s.pcs ==> s.pcs[t] == Start)
    && (forall k :: 0 <= k < |s.poisoned| ==> !s.poisoned[k])
  }

  /** `states` is a run of the system: each state follows from the one before by an enabled event. */
  ghost predicate IsRun(w: World, states: seq<State>, events: seq<Event>)
    requires WorldOk(w)
  {
    && |states| == |events| + 1
    && Init(w, states[0])
    && (forall i :: 0 <= i < |states| ==> Shape(w, states[i]))
    && (forall i :: 0 <= i < |events| ==>
          Enabled(w, states[i], events[i]) && states[i + 1] == Next(w, states[i], events[i]))
  }

  // ---- The invariant ----

  ghost predicate NoInstall(mem: Memory, t: nat) {
    forall k :: 0 <= k < |mem.installer| ==> mem.installer[k] != Some(t)
  }

  function InstalledBy(mem: Memory, k: nat, t: nat): bool {
    k < |mem.installer| && mem.installer[k] == Some(t)
  }

  /** `outcomes` names the first members of the keyring, in order, skipping exactly the inactive ones. */
  ghost predicate Names(w: World, members: seq<nat>, outcomes: seq<Outcome>) {
    && |outcomes| <= |members|
    && forall x :: 0 <= x < |outcomes| ==>
         && members[x] < |w.store.keys|
         && outcomes[x].keyId == w.store.keys[members[x]].id
         && (outcomes[x].result == SkippedInactive <==> !IsActive(w, members[x]))
  }

  /** The decrypted keys: active members among the first `n`, in ring order, with their own material. */
  ghost predicate Opened(w: World, members: seq<nat>, n: nat, pass: string, scan: Scan) {
    && |scan.materials| == |scan.decrypted|
    && (forall u :: 0 <= u < |scan.decrypted| ==>
          && scan.decrypted[u] in members && Rank(members, scan.decrypted[u]) < n
          && IsActive(w, scan.decrypted[u])
          && Decrypt(w.decode, w.store.keys[scan.decrypted[u]], pass) == Some(scan.materials[u]))
    && (forall u, v :: 0 <= u < v < |scan.decrypted| ==>
          Rank(members, scan.decrypted[u]) < Rank(members, scan.decrypted[v]))
  }

  ghost predicate ScanOk(w: World, mem: Memory, members: seq<nat>, pass: string, scan: Scan) {
    && Names(w, members, scan.outcomes)
    && Opened(w, members, |scan.outcomes|, pass, scan)
    && (forall x :: 0 <= x < |scan.outcomes| ==>
          && (members[x] in scan.decrypted ==> scan.outcomes[x].result == Unlocked)
          && (scan.outcomes[x].result == AlreadyUnlocked ==> SlotFull(mem, members[x]))
          && (scan.outcomes[x].result == Unlocked ==> members[x] in scan.decrypted || scan.failed != []))
  }

  ghost predicate InstallOk(w: World, mem: Memory, t: nat, members: seq<nat>, pass: string, j: nat, scan: Scan) {
    && Names(w, members, scan.outcomes) && |scan.outcomes| == |members|
    && Opened(w, members, |members|, pass, scan)
    && j <= |scan.decrypted|
    && (forall x :: 0 <= x < |members| ==>
          && (members[x] in scan.decrypted[j..] ==> scan.outcomes[x].result == Unlocked)
          && (scan.outcomes[x].result == AlreadyUnlocked
              ==> SlotFull(mem, members[x]) && !InstalledBy(mem, members[x], t))
          && (scan.outcomes[x].result == Unlocked
              ==> members[x] in scan.decrypted[j..] || InstalledBy(mem, members[x], t)))
    && (forall k :: InstalledBy(mem, k, t) ==> k in scan.decrypted[..j])
  }

  /** An honest report: one entry per member in ring order; `Unlocked` exactly for what this call wrote. */
  ghost predicate ReportOk(w: World, mem: Memory, t: nat, members: seq<nat>, outcomes: seq<Outcome>) {
    && Names(w, members, outcomes) && |outcomes| == |members|
    && (forall x :: 0 <= x < |members| ==>
          && (outcomes[x].result == Unlocked <==> InstalledBy(mem, members[x], t))
          && (IsActive(w, members[x]) ==> SlotFull(mem, members[x])))
    && (forall k :: InstalledBy(mem, k, t) ==> k in members)
  }

  ghost predicate RingOkAt(w: World, mem: Memory, t: nat, call: Call, pc: Pc)
    requires call.UnlockRing?
  {
    var members := MembersOf(w, call);
    match pc
    case Start => NoInstall(mem, t)
    case Scanning(scan) => NoInstall(mem, t) && ScanOk(w, mem, members, call.pass, scan)
    case Reading(scan) =>
      NoInstall(mem, t) && ScanOk(w, mem, members, call.pass, scan)
      && |scan.outcomes| < |members| && IsActive(w, members[|scan.outcomes|])
    case Acquiring(j, scan) =>
      NoInstall(mem, t) && ScanOk(w, mem, members, call.pass, scan)
      && |scan.outcomes| == |members| && scan.failed == [] && j <= |scan.decrypted|
    case Aborting(lo, hi, scan) =>
      NoInstall(mem, t) && lo <= hi <= |scan.decrypted| && Opened(w, members, |members|, call.pass, scan)
    case Installing(j, scan) => InstallOk(w, mem, t, members, call.pass, j, scan)
    case RingReturned(Ok(outcomes)) => ReportOk(w, mem, t, members, outcomes)
    case RingReturned(Err(_)) => NoInstall(mem, t)
    case _ => false
  }

  ghost predicate KeyOkAt(w: World, mem: Memory, t: nat, call: Call, pc: Pc)
    requires call.UnlockKey?
  {
    var k := call.key;
    match pc
    case Start => NoInstall(mem, t)
    case KeyReading => NoInstall(mem, t) && IsActive(w, k)
    case KeyAcquiring(m) => NoInstall(mem, t) && IsActive(w, k)
        && Decrypt(w.decode, w.store.keys[k], call.pass) == Some(m)
    case KeyInstalling(m) => NoInstall(mem, t) && IsActive(w, k)
        && Decrypt(w.decode, w.store.keys[k], call.pass) == Some(m)
    case KeyReturned(Ok(Unlocked)) => forall k' :: InstalledBy(mem, k', t) <==> k' == k
    case KeyReturned(Ok(AlreadyUnlocked)) => NoInstall(mem, t) && SlotFull(mem, k)
    case KeyReturned(Ok(SkippedInactive)) => false
    case KeyReturned(Err(_)) => NoInstall(mem, t)
    case _ => false
  }

  ghost predicate SignOkAt(w: World, mem: Memory, call: Call, pc: Pc)
    requires call.SignWith?
  {
    var k := call.key;
    match pc
    case Start => true
    case SignChecking => IsActive(w, k)
    case SignReady => IsActive(w, k) && SlotFull(mem, k)
    case SignHolding => IsActive(w, k) && SlotFull(mem, k)
    case SignReturned(out) =>
      out != LockedAtSigning
          && (out.Signed? ==> IsActive(w, k) && k < |mem.slots| && mem.slots[k] == Some(out.material))
    case _ => false
  }

  ghost predicate ThreadOk(w: World, mem: Memory, t: nat, pc: Pc)
    requires t in w.calls
  {
    var call := w.calls[t];
    match call
    case UnlockRing(_, _) => RingOkAt(w, mem, t, call, pc)
    case UnlockKey(_, _) => KeyOkAt(w, mem, t, call, pc)
    case SignWith(_) => NoInstall(mem, t) && SignOkAt(w, mem, call, pc)
    case Observe(_) =>
      NoInstall(mem, t) && (pc.Start? || pc.Observing?
                            || (pc.ObserveReturned? && (pc.unlocked ==> SlotFull(mem, call.key))))
  }

  /** A full slot belongs to an active key and holds what its installer's passphrase decrypts that key to. */
  ghost predicate SlotOk(w: World, k: nat, slot: Option<Material>, installer: Option<nat>) {
    && (slot.Some? <==> installer.Some?)
    && (slot.Some? ==>
          && IsActive(w, k)
          && installer.value in w.calls
          && var call := w.calls[installer.value];
             && (call.UnlockRing? || call.UnlockKey?)
             && slot == Decrypt(w.decode, w.store.keys[k], call.pass))
  }

  ghost predicate MemoryOk(w: World, mem: Memory) {
    && MemoryShape(w, mem)
    && forall k :: 0 <= k < |mem.slots| ==> SlotOk(w, k, mem.slots[k], mem.installer[k])
  }

  /** A write guard excludes every other guard on the same key. */
  ghost predicate Exclusive(w: World, pcs: map<nat, Pc>) {
    forall t, u, k ::
      (t in w.calls && u in w.calls && t in pcs && u in pcs && t != u && HoldsWrite(w.calls[t], pcs[t], k))
      ==> !HoldsWrite(w.calls[u], pcs[u], k) && !HoldsRead(w, w.calls[u], pcs[u], k)
  }

  ghost predicate Inv(w: World, s: State) {
    && Shape(w, s)
    && MemoryOk(w, s.mem)
    && (forall t :: t in w.calls ==> ThreadOk(w, s.mem, t, s.pcs[t]))
    && Exclusive(w, s.pcs)
  }
}
