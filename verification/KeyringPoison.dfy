/** A run of the unlock system in which a poisoned lock makes an unlocked key read as locked. */
module KeyringPoison {
  import opened Prelude
  import opened KeyStore
  import opened KeyringUnlock

  lemma Extend(w: World, states: seq<State>, events: seq<Event>, e: Event, s': State)
    requires WorldOk(w) && IsRun(w, states, events) && Steps(w, states[|events|], e, s') && Shape(w, s')
    ensures IsRun(w, states + [s'], events + [e])
  {
    var states', events' := states + [s'], events + [e];
    forall i | 0 <= i < |events'|
      ensures Enabled(w, states'[i], events'[i]) && states'[i + 1] == Next(w, states'[i], events'[i]) {
      if i < |events| {
        assert states'[i] == states[i] && events'[i] == events[i] && states'[i + 1] == states[i + 1];
      } else {
        assert states'[i] == states[|events|] && events'[i] == e && states'[i + 1] == s';
      }
    }
  }

  ghost predicate Steps(w: World, s: State, e: Event, s': State)
    requires WorldOk(w)
  {
    Shape(w, s) && Enabled(w, s, e) && Next(w, s, e) == s'
  }

  /** The state in which call `t` alone has started and is at `pc`. */
  function Alone(w: World, t: nat, mem: Memory, pc: Pc): State {
    State(mem, seq(|w.store.keys|, _ => false), (map u | u in w.calls :: Start)[t := pc])
  }

  /** A step of a keyring call that alone has started: nobody is in its way. */
  lemma AloneMoves(w: World, t: nat, mem: Memory, pc: Pc, mem': Memory, pc': Pc)
    requires WorldOk(w) && MemoryShape(w, mem) && t in w.calls && w.calls[t].UnlockRing? && !Returned(pc)
    requires RingStep(w, mem, seq(|w.store.keys|, _ => false), t, w.calls[t], pc) == Local(mem', pc')
    requires var want := Wants(w, w.calls[t], pc);
             want == Free || (!HoldsWrite(w.calls[t], pc, want.key) && !HoldsRead(w, w.calls[t], pc, want.key))
    ensures Steps(w, Alone(w, t, mem, pc), Run(t, true), Alone(w, t, mem', pc'))
  {
    var s, s' := Alone(w, t, mem, pc), Alone(w, t, mem', pc');
    assert s.pcs.Keys == w.calls.Keys && s.pcs[t := pc'] == s'.pcs;
  }

  /** Call `t` unlocks a keyring whose only member `k` is active and decrypts to `x`. */
  ghost predicate OpensOne(w: World, t: nat, k: nat, x: Material) {
    && WorldOk(w) && t in w.calls && w.calls[t].UnlockRing? && MembersOf(w, w.calls[t]) == [k]
    && IsActive(w, k) && Decrypt(w.decode, w.store.keys[k], w.calls[t].pass) == Some(x)
  }

  function Empty(w: World): Memory {
    Memory(seq(|w.store.keys|, _ => None), seq(|w.store.keys|, _ => None))
  }

  function Opened1(w: World, k: nat, x: Material): Scan
    requires k < |w.store.keys|
  {
    Scan([Outcome(w.store.keys[k].id, Unlocked)], [k], [x], [w.store.keys[k].id], [])
  }

  /** Alone, such a call scans and comes to the point of taking the write lock. */
  lemma AloneScans(w: World, t: nat, k: nat, x: Material) returns (states: seq<State>, events: seq<Event>)
    requires OpensOne(w, t, k, x)
    ensures IsRun(w, states, events) && states[|events|] == Alone(w, t, Empty(w), Acquiring(0, Opened1(w, k, x)))
  {
    var mem, scan := Empty(w), Opened1(w, k, x);
    assert !NoneActive(w, [k]) by { assert k in [k]; }
    AloneMoves(w, t, mem, Start, mem, Scanning(EMPTY_SCAN));
    AloneMoves(w, t, mem, Scanning(EMPTY_SCAN), mem, Reading(EMPTY_SCAN));
    assert !SeesUnlocked(mem, seq(|w.store.keys|, _ => false), k);
    assert ScanMember(w.decode, w.store, k, false, w.calls[t].pass, EMPTY_SCAN) == scan;
    AloneMoves(w, t, mem, Reading(EMPTY_SCAN), mem, Scanning(scan));
    AloneMoves(w, t, mem, Scanning(scan), mem, Acquiring(0, scan));
    states, events := [Alone(w, t, mem, Start)], [];
    states, events := AloneExtends(w, t, states, events, mem, Scanning(EMPTY_SCAN));
    states, events := AloneExtends(w, t, states, events, mem, Reading(EMPTY_SCAN));
    states, events := AloneExtends(w, t, states, events, mem, Scanning(scan));
    states, events := AloneExtends(w, t, states, events, mem, Acquiring(0, scan));
  }

  lemma AloneExtends(w: World, t: nat, states: seq<State>, events: seq<Event>, mem': Memory, pc': Pc)
    returns (states': seq<State>, events': seq<Event>)
    requires WorldOk(w) && MemoryShape(w, mem') && t in w.calls
    requires IsRun(w, states, events) && Steps(w, states[|events|], Run(t, true), Alone(w, t, mem', pc'))
    ensures states' == states + [Alone(w, t, mem', pc')] && events' == events + [Run(t, true)]
            && IsRun(w, states', events')
  {
    states', events' := states + [Alone(w, t, mem', pc')], events + [Run(t, true)];
    Extend(w, states, events, Run(t, true), Alone(w, t, mem', pc'));
  }

  /** And then installs and returns. */
  lemma AloneInstalls(w: World, t: nat, k: nat, x: Material) returns (states: seq<State>, events: seq<Event>)
    requires OpensOne(w, t, k, x)
    ensures IsRun(w, states, events)
    ensures states[|events|] == Alone(w, t, Install(Empty(w), t, k, x), RingReturned(Ok(Opened1(w, k, x).outcomes)))
  {
    var mem, scan := Empty(w), Opened1(w, k, x);
    var mem' := Install(mem, t, k, x);
    AloneMoves(w, t, mem, Acquiring(0, scan), mem, Acquiring(1, scan));
    AloneMoves(w, t, mem, Acquiring(1, scan), mem, Installing(0, scan));
    AloneMoves(w, t, mem, Installing(0, scan), mem', Installing(1, scan));
    AloneMoves(w, t, mem', Installing(1, scan), mem', RingReturned(Ok(scan.outcomes)));
    states, events := AloneScans(w, t, k, x);
    states, events := AloneExtends(w, t, states, events, mem, Acquiring(1, scan));
    states, events := AloneExtends(w, t, states, events, mem, Installing(0, scan));
    states, events := AloneExtends(w, t, states, events, mem', Installing(1, scan));
    states, events := AloneExtends(w, t, states, events, mem', RingReturned(Ok(scan.outcomes)));
  }

  /** Poisoned under nobody's guard, a key is "locked" to an observer that comes after. */
  lemma PoisonHides(w: World, states: seq<State>, events: seq<Event>, v: nat, k: nat)
    returns (states': seq<State>, events': seq<Event>)
    requires WorldOk(w) && IsRun(w, states, events) && v in w.calls && w.calls[v] == Observe(k)
    requires states[|events|].pcs[v] == Start && NoWriter(w, states[|events|], k)
    ensures IsRun(w, states', events') && states <= states' && |events'| == |events| + 3
    ensures states'[|events'|].pcs[v] == ObserveReturned(false) && states'[|events'|].mem == states[|events|].mem
  {
    var s := states[|events|];
    var s1 := s.(poisoned := s.poisoned[k := true]);
    var s2 := s1.(pcs := s1.pcs[v := Observing]);
    var s3 := s2.(pcs := s2.pcs[v := ObserveReturned(false)]);
    Extend(w, states, events, Poison(k), s1);
    assert NoWriter(w, s1, k);
    Extend(w, states + [s1], events + [Poison(k)], Run(v, true), s2);
    Extend(w, states + [s1] + [s2], events + [Poison(k)] + [Run(v, true)], Run(v, true), s3);
    states', events' := states + [s1] + [s2] + [s3], events + [Poison(k)] + [Run(v, true)] + [Run(v, true)];
  }

  /**
   * For every keyring with one active member that a passphrase opens, and every observer of that key,
   * there is a run in which the keyring call returns success, the lock is then poisoned, and the
   * observer is told "locked" although the slot is full.
   */
  lemma PoisonedKeyReadsAsLocked(w: World, t: nat, k: nat, x: Material, v: nat)
    returns (states: seq<State>, events: seq<Event>, i: nat)
    requires OpensOne(w, t, k, x) && v in w.calls && w.calls[v] == Observe(k)
    ensures IsRun(w, states, events) && i < |states|
    ensures states[i].pcs[t].RingReturned? && states[i].pcs[t].ring.Ok? && states[i].pcs[v] == Start
    ensures states[|events|].pcs[v] == ObserveReturned(false) && SlotFull(states[|events|].mem, k)
  {
    var states0, events0 := AloneInstalls(w, t, k, x);
    i := |events0|;
    assert NoWriter(w, states0[i], k);
    states, events := PoisonHides(w, states0, events0, v, k);
  }

  /** Such a world: one key in one keyring, one unlock of it and one observer. */
  lemma OneKeyWorld() returns (w: World)
    ensures OpensOne(w, 0, 0, P256Key(0)) && 1 in w.calls && w.calls[1] == Observe(0)
  {
    var store := Store([Key("k", P256, Active, "pem")], map["k" := 0], map["r" := [0]], map["k" := "r"]);
    w := World(store, (_, _, _) => Some(0), map[0 := UnlockRing("r", ""), 1 := Observe(0)]);
    assert Ids(store.keys) == ["k"];
  }
}
