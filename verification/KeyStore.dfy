/** The immutable key store: `KeyStore::from_keys` and the lookups over its four indices. */
module KeyStore {
  import opened Prelude

  datatype KeyAlgorithm = P256 | Secp256k1 | RsaPss

  datatype KeyState = Active | Disabled | Retired

  datatype Key = Key(id: string, algorithm: KeyAlgorithm, state: KeyState, pem: string)

  datatype KeyringConfig = KeyringConfig(id: string, keys: seq<string>)

  datatype Store = Store(
    keys: seq<Key>,
    index: map<string, nat>,
    keyrings: map<string, seq<nat>>,
    keyringByKey: map<string, string>)

  datatype BuildError =
    | NoKeys
    | DuplicateKey(id: string)
    | EmptyKeyring(ring: string)
    | UnknownMember(ring: string, key: string)
    | SharedMember(key: string, previous: string, ring: string)
    | DuplicateKeyring(ring: string)

  function Ids(keys: seq<Key>): (ids: seq<string>)
    ensures |ids| == |keys| && forall p :: 0 <= p < |keys| ==> ids[p] == keys[p].id
  {
    seq(|keys|, p requires 0 <= p < |keys| => keys[p].id)
  }

  // ---- What a well-structured set of keys and keyrings is ----

  /** One keyring on its own: it lists known keys, at least one, none twice. */
  ghost predicate RingOk(ids: seq<string>, ring: KeyringConfig) {
    && ring.keys != []
    && Distinct(ring.keys)
    && forall k :: k in ring.keys ==> k in ids
  }

  /** Two keyrings beside each other: different names, no key in common. */
  ghost predicate RingsApart(r1: KeyringConfig, r2: KeyringConfig) {
    r1.id != r2.id && forall k :: k in r1.keys ==> k !in r2.keys
  }

  ghost predicate RingsOk(ids: seq<string>, rings: seq<KeyringConfig>) {
    && (forall a :: 0 <= a < |rings| ==> RingOk(ids, rings[a]))
    && (forall a, b :: 0 <= a < b < |rings| ==> RingsApart(rings[a], rings[b]))
  }

  ghost predicate Structural(ids: seq<string>, rings: seq<KeyringConfig>) {
    ids != [] && Distinct(ids) && RingsOk(ids, rings)
  }

  /** What each error of `FromKeys` says about the input it was given. */
  ghost predicate Witness(error: BuildError, ids: seq<string>, rings: seq<KeyringConfig>) {
    match error
    case NoKeys => ids == []
    case DuplicateKey(id) => exists i, j :: 0 <= i < j < |ids| && ids[i] == id == ids[j]
    case EmptyKeyring(ring) => exists a :: 0 <= a < |rings| && rings[a].id == ring && rings[a].keys == []
    case UnknownMember(ring, key) =>
      key !in ids && exists a :: 0 <= a < |rings| && rings[a].id == ring && key in rings[a].keys
    case SharedMember(key, previous, ring) =>
      || (exists a :: 0 <= a < |rings| && rings[a].id == ring == previous
                      && exists i, j :: 0 <= i < j < |rings[a].keys| && rings[a].keys[i] == key == rings[a].keys[j])
      || (exists a, b :: 0 <= a < b < |rings| && rings[a].id == previous && rings[b].id == ring
                         && key in rings[a].keys && key in rings[b].keys)
    case DuplicateKeyring(ring) => exists a, b :: 0 <= a < b < |rings| && rings[a].id == ring == rings[b].id
  }

  /** An error and a well-structured input exclude each other. */
  lemma WitnessRefutes(error: BuildError, ids: seq<string>, rings: seq<KeyringConfig>)
    requires Witness(error, ids, rings)
    ensures !Structural(ids, rings)
  {
  }

  // ---- What a store built from keys and keyrings holds ----

  ghost predicate IndexOf(index: map<string, nat>, ids: seq<string>) {
    && (forall p :: 0 <= p < |ids| ==> ids[p] in index && index[ids[p]] == p)
    && (forall id :: id in index ==> index[id] < |ids| && ids[index[id]] == id)
  }

  /** `positions` are the positions of the ring's keys, in declared order. */
  ghost predicate Resolves(positions: seq<nat>, ids: seq<string>, names: seq<string>) {
    && |positions| == |names|
    && (forall i :: 0 <= i < |names| ==> positions[i] < |ids| && ids[positions[i]] == names[i])
  }

  ghost predicate Rings(keyrings: map<string, seq<nat>>, ids: seq<string>, rings: seq<KeyringConfig>) {
    && (forall a :: 0 <= a < |rings| ==> rings[a].id in keyrings && Resolves(keyrings[rings[a].id], ids, rings[a].keys))
    && (forall name :: name in keyrings ==> exists a :: 0 <= a < |rings| && rings[a].id == name)
  }

  ghost predicate Owners(owner: map<string, string>, rings: seq<KeyringConfig>) {
    && (forall a, k :: 0 <= a < |rings| && k in rings[a].keys ==> k in owner && owner[k] == rings[a].id)
    && (forall k :: k in owner ==> exists a :: 0 <= a < |rings| && k in rings[a].keys && rings[a].id == owner[k])
  }

  ghost predicate Represents(store: Store, keys: seq<Key>, rings: seq<KeyringConfig>) {
    && store.keys == keys
    && IndexOf(store.index, Ids(keys))
    && Rings(store.keyrings, Ids(keys), rings)
    && Owners(store.keyringByKey, rings)
  }

  // ---- from_keys ----

  method BuildIndex(keys: seq<Key>) returns (r: Result<map<string, nat>, BuildError>)
    ensures r.Ok? ==> Distinct(Ids(keys)) && IndexOf(r.value, Ids(keys))
    ensures r.Err? ==> r.error.DuplicateKey? && Witness(r.error, Ids(keys), [])
  {
    var index: map<string, nat> := map[];
    ghost var ids := Ids(keys);
    for p := 0 to |keys|
      invariant Distinct(ids[..p])
      invariant forall q :: 0 <= q < p ==> ids[q] in index && index[ids[q]] == q
      invariant forall id :: id in index ==> index[id] < p && ids[index[id]] == id
    {
      if keys[p].id in index {
        assert ids[index[keys[p].id]] == keys[p].id == ids[p];
        return Err(DuplicateKey(keys[p].id));
      }
      index := index[keys[p].id := p];
      assert ids[..p + 1] == ids[..p] + [ids[p]];
    }
    assert ids[..|keys|] == ids;
    return Ok(index);
  }

  /** The ring's first `i` keys are distinct, were unclaimed before, and are all that it has claimed since. */
  ghost predicate Claimed(ring: KeyringConfig, i: nat, owner0: map<string, string>, owner: map<string, string>)
    requires i <= |ring.keys|
  {
    && (forall x :: 0 <= x < i ==> ring.keys[x] !in owner0 && ring.keys[x] in owner && owner[ring.keys[x]] == ring.id)
    && (forall x, y :: 0 <= x < y < i ==> ring.keys[x] != ring.keys[y])
    && (forall k :: k in owner0 ==> k in owner && owner[k] == owner0[k])
    && (forall k :: k in owner ==> k in owner0 || exists x :: 0 <= x < i && ring.keys[x] == k)
  }

  lemma ClaimStep(ring: KeyringConfig, i: nat, owner0: map<string, string>, owner: map<string, string>)
    requires i < |ring.keys| && Claimed(ring, i, owner0, owner) && ring.keys[i] !in owner
    ensures Claimed(ring, i + 1, owner0, owner[ring.keys[i] := ring.id])
  {
    var owner' := owner[ring.keys[i] := ring.id];
    forall k | k in owner' && k !in owner0 ensures exists x :: 0 <= x < i + 1 && ring.keys[x] == k {
      if k in owner {
        var x :| 0 <= x < i && ring.keys[x] == k;
      } else {
        assert ring.keys[i] == k;
      }
    }
  }

  /** The inner loop of `from_keys`: resolves one keyring and claims its members. */
  method ResolveMembers(ring: KeyringConfig, index: map<string, nat>, owner0: map<string, string>,
                        ghost ids: seq<string>)
    returns (r: Result<seq<nat>, BuildError>, owner: map<string, string>)
    requires IndexOf(index, ids) && Distinct(ids)
    ensures r.Ok? ==> MembersResolved(ring, ids, owner0, owner, r.value)
    ensures r.Err? ==> MemberFault(r.error, ring, ids, owner0)
  {
    owner := owner0;
    var members: seq<nat> := [];
    for i := 0 to |ring.keys|
      invariant |members| == i
      invariant forall x :: 0 <= x < i ==> members[x] < |ids| && ids[members[x]] == ring.keys[x]
      invariant Claimed(ring, i, owner0, owner)
    {
      var key := ring.keys[i];
      if key !in index {
        return Err(UnknownMember(ring.id, key)), owner;
      }
      if key in owner {
        SharedIsFault(ring, ids, i, owner0, owner);
        return Err(SharedMember(key, owner[key], ring.id)), owner;
      }
      ClaimStep(ring, i, owner0, owner);
      owner := owner[key := ring.id];
      members := members + [index[key]];
    }
    ClaimedIsResolved(ring, ids, owner0, owner, members);
    return Ok(members), owner;
  }

  /** The keyring is resolved in declared order, each of its keys known, unrepeated and newly claimed, and no other. */
  ghost predicate MembersResolved(ring: KeyringConfig, ids: seq<string>, owner0: map<string, string>,
                                  owner: map<string, string>, positions: seq<nat>)
  {
    && Distinct(ring.keys) && Resolves(positions, ids, ring.keys)
    && (forall k :: k in ring.keys ==> k in ids && k !in owner0 && k in owner && owner[k] == ring.id)
    && (forall k :: k in owner0 ==> k in owner && owner[k] == owner0[k])
    && (forall k :: k in owner ==> k in owner0 || k in ring.keys)
  }

  /** The error names a key of the keyring that is unknown, claimed before by the keyring named, or repeated. */
  ghost predicate MemberFault(error: BuildError, ring: KeyringConfig, ids: seq<string>, owner0: map<string, string>) {
    match error
    case UnknownMember(name, key) => name == ring.id && key in ring.keys && key !in ids
    case SharedMember(key, previous, name) =>
      && name == ring.id && key in ring.keys
      && ((key in owner0 && owner0[key] == previous)
          || (previous == ring.id
              && exists i, j :: 0 <= i < j < |ring.keys| && ring.keys[i] == key == ring.keys[j]))
    case _ => false
  }

  lemma SharedIsFault(ring: KeyringConfig, ids: seq<string>, i: nat, owner0: map<string, string>,
                      owner: map<string, string>)
    requires i < |ring.keys| && Claimed(ring, i, owner0, owner) && ring.keys[i] in owner
    ensures MemberFault(SharedMember(ring.keys[i], owner[ring.keys[i]], ring.id), ring, ids, owner0)
  {
    if ring.keys[i] !in owner0 {
      var x :| 0 <= x < i && ring.keys[x] == ring.keys[i];
      assert x < i && ring.keys[x] == ring.keys[i];
    }
  }

  lemma ClaimedIsResolved(ring: KeyringConfig, ids: seq<string>, owner0: map<string, string>,
                          owner: map<string, string>,
                          positions: seq<nat>)
    requires Claimed(ring, |ring.keys|, owner0, owner) && Resolves(positions, ids, ring.keys)
    ensures MembersResolved(ring, ids, owner0, owner, positions)
  {
    forall k | k in ring.keys ensures k in ids && k !in owner0 && k in owner && owner[k] == ring.id {
      var i :| 0 <= i < |ring.keys| && ring.keys[i] == k;
      assert ids[positions[i]] == k;
    }
  }

  /**
   * `from_keys` succeeds exactly on well-structured input (an error is a witness that the input is
   * not), and what it builds represents that input.
   */
  method FromKeys(keys: seq<Key>, rings: seq<KeyringConfig>) returns (r: Result<Store, BuildError>)
    ensures r.Ok? <==> Structural(Ids(keys), rings)
    ensures r.Ok? ==> Represents(r.value, keys, rings)
    ensures r.Err? ==> Witness(r.error, Ids(keys), rings)
  {
    ghost var ids := Ids(keys);
    if |keys| == 0 {
      return Err(NoKeys);
    }
    var indexed := BuildIndex(keys);
    if indexed.Err? {
      WitnessRefutes(indexed.error, ids, rings);
      return Err(indexed.error);
    }
    var index := indexed.value;
    var ringIndex: map<string, seq<nat>> := map[];
    var owner: map<string, string> := map[];
    for a := 0 to |rings|
      invariant RingsOk(ids, rings[..a])
      invariant Rings(ringIndex, ids, rings[..a])
      invariant Owners(owner, rings[..a])
    {
      var ring := rings[a];
      if |ring.keys| == 0 {
        WitnessRefutes(EmptyKeyring(ring.id), ids, rings);
        return Err(EmptyKeyring(ring.id));
      }
      var members, owner' := ResolveMembers(ring, index, owner, ids);
      if members.Err? {
        MemberErrorIsWitness(members.error, ids, rings, a, owner);
        WitnessRefutes(members.error, ids, rings);
        return Err(members.error);
      }
      if ring.id in ringIndex {
        DuplicateIsWitness(ids, rings, a, ringIndex);
        WitnessRefutes(DuplicateKeyring(ring.id), ids, rings);
        return Err(DuplicateKeyring(ring.id));
      }
      ExtendAll(ids, rings, a, owner, owner', ringIndex, members.value);
      ringIndex := ringIndex[ring.id := members.value];
      owner := owner';
    }
    assert rings[..|rings|] == rings;
    return Ok(Store(keys, index, ringIndex, owner));
  }

  lemma MemberErrorIsWitness(error: BuildError, ids: seq<string>, rings: seq<KeyringConfig>, a: nat,
                             owner: map<string, string>)
    requires a < |rings| && Owners(owner, rings[..a]) && MemberFault(error, rings[a], ids, owner)
    ensures Witness(error, ids, rings)
  {
    if error.SharedMember? && error.key in owner && owner[error.key] == error.previous {
      var b :| 0 <= b < a && error.key in rings[..a][b].keys && rings[..a][b].id == owner[error.key];
      assert rings[b].id == error.previous && error.key in rings[b].keys;
    }
  }

  lemma DuplicateIsWitness(ids: seq<string>, rings: seq<KeyringConfig>, a: nat, ringIndex: map<string, seq<nat>>)
    requires a < |rings| && Rings(ringIndex, ids, rings[..a]) && rings[a].id in ringIndex
    ensures Witness(DuplicateKeyring(rings[a].id), ids, rings)
  {
    var b :| 0 <= b < a && rings[..a][b].id == rings[a].id;
    assert rings[b].id == rings[a].id;
  }

  /** One more resolved keyring extends all three indices. */
  lemma ExtendAll(ids: seq<string>, rings: seq<KeyringConfig>, a: nat, owner: map<string, string>,
                  owner': map<string, string>, ringIndex: map<string, seq<nat>>, positions: seq<nat>)
    requires a < |rings| && rings[a].keys != [] && rings[a].id !in ringIndex
    requires RingsOk(ids, rings[..a]) && Rings(ringIndex, ids, rings[..a]) && Owners(owner, rings[..a])
    requires MembersResolved(rings[a], ids, owner, owner', positions)
    ensures RingsOk(ids, rings[..a + 1])
    ensures Rings(ringIndex[rings[a].id := positions], ids, rings[..a + 1])
    ensures Owners(owner', rings[..a + 1])
  {
    assert RingsOk(ids, rings[..a + 1]) by { ExtendRingsOk(ids, rings, a, owner, ringIndex); }
    assert Owners(owner', rings[..a + 1]) by { ExtendOwners(rings, a, owner, owner'); }
    ExtendRingIndex(ids, rings, a, ringIndex, positions);
  }

  lemma ExtendRingsOk(ids: seq<string>, rings: seq<KeyringConfig>, a: nat, owner: map<string, string>,
                      ringIndex: map<string, seq<nat>>)
    requires a < |rings| && RingOk(ids, rings[a])
    requires RingsOk(ids, rings[..a]) && Rings(ringIndex, ids, rings[..a]) && Owners(owner, rings[..a])
    requires rings[a].id !in ringIndex
    requires forall k :: k in rings[a].keys ==> k !in owner
    ensures RingsOk(ids, rings[..a + 1])
  {
    var before, after := rings[..a], rings[..a + 1];
    assert after == before + [rings[a]];
    forall b | 0 <= b < a
      ensures RingsApart(before[b], rings[a])
    {
      assert before[b].id in ringIndex;
      forall k | k in before[b].keys ensures k !in rings[a].keys {
        assert k in owner;
      }
    }
  }

  lemma ExtendOwners(rings: seq<KeyringConfig>, a: nat, owner: map<string, string>, owner': map<string, string>)
    requires a < |rings| && Owners(owner, rings[..a])
    requires forall k :: k in rings[a].keys ==> k in owner' && owner'[k] == rings[a].id
    requires forall k :: k in owner ==> k in owner' && owner'[k] == owner[k]
    requires forall k :: k in owner' ==> k in owner || k in rings[a].keys
    ensures Owners(owner', rings[..a + 1])
  {
    var before, after := rings[..a], rings[..a + 1];
    assert after == before + [rings[a]];
    forall k | k in owner'
      ensures exists b :: 0 <= b < |after| && k in after[b].keys && after[b].id == owner'[k]
    {
      if k in owner {
        var b :| 0 <= b < |before| && k in before[b].keys && before[b].id == owner[k];
        assert after[b] == before[b];
      } else {
        assert after[a] == rings[a];
      }
    }
  }

  lemma ExtendRingIndex(ids: seq<string>, rings: seq<KeyringConfig>, a: nat, ringIndex: map<string, seq<nat>>,
                        members: seq<nat>)
    requires a < |rings| && Rings(ringIndex, ids, rings[..a])
    requires rings[a].id !in ringIndex && Resolves(members, ids, rings[a].keys)
    ensures Rings(ringIndex[rings[a].id := members], ids, rings[..a + 1])
  {
  }

  // ---- Lookups ----

  function Get(store: Store, id: string): Option<Key>
    requires forall k :: k in store.index ==> store.index[k] < |store.keys|
  {
    if id in store.index then Some(store.keys[store.index[id]]) else None
  }

  /** Positions of a keyring's members; empty for an unknown keyring. */
  function Members(store: Store, name: string): seq<nat> {
    if name in store.keyrings then store.keyrings[name] else []
  }

  function KeyringForKey(store: Store, id: string): Option<string> {
    if id in store.keyringByKey then Some(store.keyringByKey[id]) else None
  }

  /** The facts about a store that concurrent unlocks depend on, with no reference to configuration. */
  ghost predicate Sound(store: Store) {
    && Distinct(Ids(store.keys))
    && IndexOf(store.index, Ids(store.keys))
    && (forall name :: name in store.keyrings ==>
          store.keyrings[name] != [] && Distinct(store.keyrings[name])
          && forall k :: k in store.keyrings[name] ==>
               k < |store.keys| && KeyringForKey(store, store.keys[k].id) == Some(name))
  }

  /** Everything `from_keys` builds is sound, so its keyrings are disjoint lists without repeats. */
  lemma BuiltStoreIsSound(store: Store, keys: seq<Key>, rings: seq<KeyringConfig>)
    requires Structural(Ids(keys), rings) && Represents(store, keys, rings)
    ensures Sound(store)
  {
    forall name | name in store.keyrings
      ensures store.keyrings[name] != [] && Distinct(store.keyrings[name])
      ensures forall k :: k in store.keyrings[name] ==>
                k < |keys| && KeyringForKey(store, keys[k].id) == Some(name)
    {
      var a :| 0 <= a < |rings| && rings[a].id == name;
      RingIsSound(store, keys, rings, a);
    }
  }

  lemma RingIsSound(store: Store, keys: seq<Key>, rings: seq<KeyringConfig>, a: nat)
    requires a < |rings| && RingOk(Ids(keys), rings[a])
    requires Rings(store.keyrings, Ids(keys), rings) && Owners(store.keyringByKey, rings)
    ensures var positions := store.keyrings[rings[a].id];
            && positions != [] && Distinct(positions)
            && forall k :: k in positions ==> k < |keys| && KeyringForKey(store, keys[k].id) == Some(rings[a].id)
  {
    var positions := store.keyrings[rings[a].id];
    PositionsAreDistinct(positions, Ids(keys), rings[a].keys);
    forall k | k in positions
      ensures k < |keys| && KeyringForKey(store, keys[k].id) == Some(rings[a].id)
    {
      NamedInRing(positions, Ids(keys), rings[a].keys, k);
    }
  }

  lemma PositionsAreDistinct(positions: seq<nat>, ids: seq<string>, names: seq<string>)
    requires Resolves(positions, ids, names) && Distinct(names)
    ensures Distinct(positions)
  {
    forall i, j | 0 <= i < j < |positions| ensures positions[i] != positions[j] {
      assert names[i] != names[j];
    }
  }

  lemma NamedInRing(positions: seq<nat>, ids: seq<string>, names: seq<string>, k: nat)
    requires Resolves(positions, ids, names) && k in positions
    ensures k < |ids| && ids[k] in names
  {
    var i :| 0 <= i < |positions| && positions[i] == k;
    assert names[i] in names;
  }

  /** A key belongs to at most one keyring. */
  lemma RingsDisjoint(store: Store, r1: string, r2: string, k: nat)
    requires Sound(store) && k in Members(store, r1) && k in Members(store, r2)
    ensures r1 == r2
  {
    assert KeyringForKey(store, store.keys[k].id) == Some(r1);
  }

  /**
   * The lookups are mutually inverse: `get` finds exactly the configured keys, `keyring_members`
   * lists a keyring's keys in declared order, and `keyring_for_key` answers the keyring that lists
   * the key, or none.
   */
  lemma LookupsAreInverse(store: Store, keys: seq<Key>, rings: seq<KeyringConfig>)
    requires Structural(Ids(keys), rings) && Represents(store, keys, rings)
    ensures forall id, key :: Get(store, id) == Some(key) <==> key in keys && key.id == id
    ensures forall a :: 0 <= a < |rings| ==> Resolves(Members(store, rings[a].id), Ids(keys), rings[a].keys)
    ensures forall name :: Members(store, name) != [] <==> exists a :: 0 <= a < |rings| && rings[a].id == name
    ensures forall id, name :: KeyringForKey(store, id) == Some(name)
                          <==> exists k :: k in Members(store, name) && k < |keys| && keys[k].id == id
  {
    BuiltStoreIsSound(store, keys, rings);
    var ids := Ids(keys);
    forall id, key
      ensures Get(store, id) == Some(key) <==> key in keys && key.id == id
    {
      if key in keys && key.id == id {
        var p :| 0 <= p < |keys| && keys[p] == key;
        assert ids[p] == id;
      }
    }
    forall name
      ensures Members(store, name) != [] <==> exists a :: 0 <= a < |rings| && rings[a].id == name
    {
    }
    forall id, name | KeyringForKey(store, id) == Some(name)
      ensures exists k :: k in Members(store, name) && k < |keys| && keys[k].id == id
    {
      var a :| 0 <= a < |rings| && id in rings[a].keys && rings[a].id == name;
      var i :| 0 <= i < |rings[a].keys| && rings[a].keys[i] == id;
      assert Resolves(Members(store, name), ids, rings[a].keys);
      var k := Members(store, name)[i];
      assert k in Members(store, name) && keys[k].id == id;
    }
  }
}
