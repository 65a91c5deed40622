/** The validated configuration: keys, keyrings, identities and policies. */
module Config {
  import opened Prelude
  import opened Text
  import opened KeyStore

  const MAX_OAUTH_SESSION_TTL_SECONDS := 3600

  datatype KeyConfig = KeyConfig(
    id: string, algorithm: KeyAlgorithm, pemPath: string, state: KeyState, passphraseCredential: Option<string>)

  datatype IdentityKind = GithubAccount | GithubActions

  datatype IdentityConfig = IdentityConfig(
    id: string,
    kind: IdentityKind,
    githubUserId: Option<string>,
    githubLogin: Option<string>,
    repositoryId: Option<string>,
    repository: Option<string>,
    workflowPath: Option<string>,
    allowedEventNames: Option<seq<string>>,
    allowedRefTypes: Option<seq<string>>,
    requiredEnvironment: Option<string>,
    requiredRunnerEnvironment: Option<string>,
    allowedWorkflowShas: Option<seq<string>>)

  datatype PolicyAction = Sign

  datatype PolicyConfig = PolicyConfig(identity: string, actions: seq<PolicyAction>, keys: seq<string>)

  datatype Config = Config(
    keys: seq<KeyConfig>,
    keyrings: seq<KeyringConfig>,
    sessionTtl: nat,
    jwksTtl: nat,
    identities: seq<IdentityConfig>,
    policies: seq<PolicyConfig>)

  datatype ConfigError =
    | NoKey | BadKeyId(id: string) | DuplicateKeyId(id: string) | PassphraseCredentialSet(id: string)
    | BadKeyringId(id: string) | DuplicateKeyringId(id: string) | KeyringWithoutKeys(id: string)
    | KeyringKeyUnknown(id: string, key: string) | KeyringKeyRepeated(id: string, key: string)
    | BadSessionTtl | BadJwksTtl
    | NoIdentity | BadIdentityId(id: string) | DuplicateIdentityId(id: string) | BadAccount(id: string)
    | DuplicateUserId(user: string) | BadActions(id: string)
    | NoPolicy | PolicyIdentityUnknown(id: string) | PolicyEmpty(id: string) | PolicyRepeats(id: string)
    | PolicyKeyUnknown(id: string, key: string) | SignPolicyUnconstrained(id: string)

  // ---- Syntax ----

  /** Key, keyring and identity names: `[A-Za-z0-9._-]{1,128}`. */
  predicate ValidName(s: string) {
    0 < |s| <= 128 && forall i :: 0 <= i < |s| ==> IsAlphanumeric(s[i]) || s[i] in {'.', '_', '-'}
  }

  predicate ValidNumericId(s: string) {
    s != [] && forall i :: 0 <= i < |s| ==> IsDigit(s[i])
  }

  /** `owner/name` with exactly one slash and both parts present. */
  predicate ValidRepository(s: string) {
    match FirstIndexOf(s, '/')
    case None => false
    case Some(i) => i > 0 && i + 1 < |s| && '/' !in s[i + 1..]
  }

  predicate ValidCommitSha(s: string) {
    |s| in {40, 64} && forall i :: 0 <= i < |s| ==> IsHex(s[i])
  }

  predicate ValidWorkflowPath(path: string) {
    !StartsWith(path, "/") && StartsWith(path, ".github/workflows/") && !ContainsDotDot(path)
  }

  predicate SomeBlank(values: seq<string>) {
    exists i :: 0 <= i < |values| && Blank(values[i])
  }

  predicate HasActionsFields(identity: IdentityConfig) {
    identity.repositoryId.Some? || identity.repository.Some? || HasClaimConstraints(identity)
  }

  predicate HasClaimConstraints(identity: IdentityConfig) {
    || identity.workflowPath.Some? || identity.allowedEventNames.Some? || identity.allowedRefTypes.Some?
    || identity.requiredEnvironment.Some? || identity.requiredRunnerEnvironment.Some?
    || identity.allowedWorkflowShas.Some?
  }

  predicate ValidAccount(identity: IdentityConfig) {
    && identity.githubUserId.Some? && ValidNumericId(identity.githubUserId.value)
    && !HasActionsFields(identity)
    && (identity.githubLogin.Some? ==> !Blank(identity.githubLogin.value))
  }

  /** `validate_actions_identity`. */
  predicate ValidConstraints(identity: IdentityConfig) {
    HasClaimConstraints(identity) ==>
      && identity.workflowPath.Some? && ValidWorkflowPath(identity.workflowPath.value)
      && identity.allowedEventNames.Some? && identity.allowedEventNames.value != []
      && !SomeBlank(identity.allowedEventNames.value)
      && (identity.allowedRefTypes.Some? ==>
            identity.allowedRefTypes.value != [] && !SomeBlank(identity.allowedRefTypes.value))
      && (identity.requiredEnvironment.Some? ==> !Blank(identity.requiredEnvironment.value))
      && (identity.requiredRunnerEnvironment.Some? ==> !Blank(identity.requiredRunnerEnvironment.value))
      && (identity.allowedWorkflowShas.Some? ==>
            && identity.allowedWorkflowShas.value != []
            && forall i :: 0 <= i < |identity.allowedWorkflowShas.value| ==>
                 ValidCommitSha(identity.allowedWorkflowShas.value[i]))
  }

  predicate ValidActions(identity: IdentityConfig) {
    && identity.repositoryId.Some? && ValidNumericId(identity.repositoryId.value)
    && identity.githubUserId.None? && identity.githubLogin.None?
    && (identity.repository.Some? ==> ValidRepository(identity.repository.value))
    && ValidConstraints(identity)
  }

  predicate ValidIdentity(identity: IdentityConfig) {
    && ValidName(identity.id)
    && match identity.kind
       case GithubAccount => ValidAccount(identity)
       case GithubActions => ValidActions(identity)
  }

  // ---- The whole configuration ----

  function KeyIds(keys: seq<KeyConfig>): (ids: seq<string>)
    ensures |ids| == |keys| && forall i :: 0 <= i < |keys| ==> ids[i] == keys[i].id
  {
    seq(|keys|, i requires 0 <= i < |keys| => keys[i].id)
  }

  ghost predicate KeysOk(keys: seq<KeyConfig>) {
    && keys != []
    && Distinct(KeyIds(keys))
    && forall i :: 0 <= i < |keys| ==> ValidName(keys[i].id) && keys[i].passphraseCredential.None?
  }

  ghost predicate KeyringsOk(ids: seq<string>, rings: seq<KeyringConfig>) {
    RingsOk(ids, rings) && forall a :: 0 <= a < |rings| ==> ValidName(rings[a].id)
  }

  ghost predicate IdentitiesOk(identities: seq<IdentityConfig>) {
    FirstIdentitiesOk(identities, |identities|)
  }

  /** The first `n` identities are valid, have different names, and the accounts among them different users. */
  ghost predicate FirstIdentitiesOk(identities: seq<IdentityConfig>, n: nat)
    requires n <= |identities|
  {
    && (forall i :: 0 <= i < n ==> ValidIdentity(identities[i]))
    && (forall i, j :: 0 <= i < j < n ==> IdentitiesApart(identities[i], identities[j]))
  }

  predicate IdentitiesApart(x: IdentityConfig, y: IdentityConfig) {
    && x.id != y.id
    && (x.kind == GithubAccount == y.kind ==> x.githubUserId != y.githubUserId)
  }

  /** A GitHub Actions identity may sign only under a workflow path, a required environment and tag refs. */
  predicate MaySign(identity: IdentityConfig) {
    && identity.workflowPath.Some?
    && identity.requiredEnvironment.Some?
    && (identity.allowedRefTypes.Some? ==>
          forall i :: 0 <= i < |identity.allowedRefTypes.value| ==> identity.allowedRefTypes.value[i] == "tag")
  }

  ghost predicate PolicyOk(ids: seq<string>, identities: seq<IdentityConfig>, policy: PolicyConfig) {
    && policy.actions != [] && Distinct(policy.actions)
    && policy.keys != [] && Distinct(policy.keys)
    && (forall k :: 0 <= k < |policy.keys| ==> policy.keys[k] == "*" || policy.keys[k] in ids)
    && exists i :: 0 <= i < |identities| && identities[i].id == policy.identity
                   && (identities[i].kind == GithubActions && Sign in policy.actions ==> MaySign(identities[i]))
  }

  ghost predicate ValidConfig(c: Config) {
    && KeysOk(c.keys)
    && KeyringsOk(KeyIds(c.keys), c.keyrings)
    && 0 < c.sessionTtl <= MAX_OAUTH_SESSION_TTL_SECONDS
    && 0 < c.jwksTtl
    && c.identities != [] && IdentitiesOk(c.identities)
    && c.policies != []
    && forall p :: 0 <= p < |c.policies| ==> PolicyOk(KeyIds(c.keys), c.identities, c.policies[p])
  }

  // ---- normalize_and_validate ----

  method ValidateKeys(keys: seq<KeyConfig>) returns (r: Option<ConfigError>, ids: set<string>)
    ensures r.None? <==> KeysOk(keys)
    ensures r.None? ==> forall id :: id in ids <==> id in KeyIds(keys)
  {
    ids := {};
    if |keys| == 0 {
      return Some(NoKey), ids;
    }
    ghost var all := KeyIds(keys);
    for i := 0 to |keys|
      invariant Distinct(all[..i])
      invariant forall x :: 0 <= x < i ==> ValidName(keys[x].id) && keys[x].passphraseCredential.None?
      invariant forall id :: id in ids <==> id in all[..i]
    {
      var key := keys[i];
      if !ValidName(key.id) {
        return Some(BadKeyId(key.id)), ids;
      }
      if key.id in ids {
        ghost var x :| 0 <= x < i && all[..i][x] == key.id;
        assert all[x] == all[i];
        return Some(DuplicateKeyId(key.id)), ids;
      }
      ids := ids + {key.id};
      assert all[..i + 1] == all[..i] + [key.id];
      if key.passphraseCredential.Some? {
        return Some(PassphraseCredentialSet(key.id)), ids;
      }
    }
    assert all[..|keys|] == all;
    return None, ids;
  }

  method ValidateKeyrings(known: set<string>, rings: seq<KeyringConfig>, ghost ids: seq<string>)
    returns (r: Option<ConfigError>)
    requires forall id :: id in known <==> id in ids
    ensures r.None? <==> KeyringsOk(ids, rings)
  {
    var names: set<string> := {};
    var owner: map<string, string> := map[];
    for a := 0 to |rings|
      invariant RingsOk(ids, rings[..a])
      invariant forall b :: 0 <= b < a ==> ValidName(rings[b].id) && rings[b].id in names
      invariant forall name :: name in names ==> exists b :: 0 <= b < a && rings[b].id == name
      invariant Owners(owner, rings[..a])
    {
      var ring := rings[a];
      if !ValidName(ring.id) {
        return Some(BadKeyringId(ring.id));
      }
      if ring.id in names {
        ghost var b :| 0 <= b < a && rings[b].id == ring.id;
        assert !RingsApart(rings[b], rings[a]);
        return Some(DuplicateKeyringId(ring.id));
      }
      names := names + {ring.id};
      if |ring.keys| == 0 {
        assert !RingOk(ids, rings[a]);
        return Some(KeyringWithoutKeys(ring.id));
      }
      var bad, owner' := ClaimMembers(known, ring, owner, ids);
      if bad.Some? {
        MembersRefused(ids, rings, a, owner);
        return bad;
      }
      ghost var before := rings[..a];
      assert rings[..a + 1] == before + [ring];
      forall b | 0 <= b < a ensures RingsApart(before[b], ring) {
        forall k | k in before[b].keys ensures k !in ring.keys {
          assert k in owner;
        }
      }
      ExtendOwners(rings, a, owner, owner');
      owner := owner';
    }
    assert rings[..|rings|] == rings;
    return None;
  }

  /** The member loop for one keyring. */
  method ClaimMembers(known: set<string>, ring: KeyringConfig, owner0: map<string, string>, ghost ids: seq<string>)
    returns (r: Option<ConfigError>, owner: map<string, string>)
    requires forall id :: id in known <==> id in ids
    ensures r.None? <==> Distinct(ring.keys) && forall k :: k in ring.keys ==> k in ids && k !in owner0
    ensures r.None? ==> && (forall k :: k in ring.keys ==> k in owner && owner[k] == ring.id)
                        && (forall k :: k in owner0 ==> k in owner && owner[k] == owner0[k])
                        && (forall k :: k in owner ==> k in owner0 || k in ring.keys)
  {
    owner := owner0;
    for i := 0 to |ring.keys|
      invariant forall x :: 0 <= x < i ==> ring.keys[x] in ids
      invariant Claimed(ring, i, owner0, owner)
    {
      var key := ring.keys[i];
      if key !in known {
        return Some(KeyringKeyUnknown(ring.id, key)), owner;
      }
      if key in owner {
        if key !in owner0 {
          ghost var x :| 0 <= x < i && ring.keys[x] == key;
          assert ring.keys[x] == ring.keys[i];
        }
        return Some(KeyringKeyRepeated(ring.id, key)), owner;
      }
      ClaimStep(ring, i, owner0, owner);
      owner := owner[key := ring.id];
    }
    return None, owner;
  }

  lemma MembersRefused(ids: seq<string>, rings: seq<KeyringConfig>, a: nat, owner: map<string, string>)
    requires a < |rings| && Owners(owner, rings[..a])
    requires !(Distinct(rings[a].keys) && forall k :: k in rings[a].keys ==> k in ids && k !in owner)
    ensures !RingsOk(ids, rings)
  {
  }

  /** The checks on one identity, in the order they are made. */
  function CheckIdentity(identity: IdentityConfig, names: set<string>, accounts: set<string>): (r: Option<ConfigError>)
    ensures r.None? <==> && ValidIdentity(identity) && identity.id !in names
                         && (identity.kind == GithubAccount ==>
                               identity.githubUserId.Some? && identity.githubUserId.value !in accounts)
  {
    if !ValidName(identity.id) then Some(BadIdentityId(identity.id))
    else if identity.id in names then Some(DuplicateIdentityId(identity.id))
    else match identity.kind
         case GithubAccount =>
           if identity.githubUserId.None? || !ValidNumericId(identity.githubUserId.value)
           then Some(BadAccount(identity.id))
           else if identity.githubUserId.value in accounts then Some(DuplicateUserId(identity.githubUserId.value))
           else if HasActionsFields(identity) then Some(BadAccount(identity.id))
           else if identity.githubLogin.Some? && Blank(identity.githubLogin.value) then Some(BadAccount(identity.id))
           else None
         case GithubActions => if ValidActions(identity) then None else Some(BadActions(identity.id))
  }

  /** `names` and `accounts` are what the first `n` identities have used up. */
  ghost predicate Used(identities: seq<IdentityConfig>, n: nat, names: set<string>, accounts: set<string>)
    requires n <= |identities|
  {
    && (forall id :: id in names <==> exists i :: 0 <= i < n && identities[i].id == id)
    && (forall user :: user in accounts <==>
          exists i :: 0 <= i < n && identities[i].kind == GithubAccount && identities[i].githubUserId == Some(user))
  }

  lemma IdentityAccepted(identities: seq<IdentityConfig>, n: nat, names: set<string>, accounts: set<string>)
    requires n < |identities| && Used(identities, n, names, accounts) && FirstIdentitiesOk(identities, n)
    ensures CheckIdentity(identities[n], names, accounts).None? <==> FirstIdentitiesOk(identities, n + 1)
  {
  }

  lemma PrefixesAreOk(identities: seq<IdentityConfig>, n: nat)
    requires n <= |identities|
    ensures IdentitiesOk(identities) ==> FirstIdentitiesOk(identities, n)
  {
  }

  function Users(identity: IdentityConfig): set<string> {
    if identity.kind == GithubAccount && identity.githubUserId.Some? then {identity.githubUserId.value} else {}
  }

  lemma UsedStep(identities: seq<IdentityConfig>, n: nat, names: set<string>, accounts: set<string>)
    requires n < |identities| && Used(identities, n, names, accounts)
    ensures Used(identities, n + 1, names + {identities[n].id}, accounts + Users(identities[n]))
  {
  }

  /** `kinds` maps the names of the first `n` identities to their kinds. */
  ghost predicate KindsOf(identities: seq<IdentityConfig>, n: nat, kinds: map<string, IdentityKind>)
    requires n <= |identities|
  {
    && (forall i :: 0 <= i < n ==> identities[i].id in kinds && kinds[identities[i].id] == identities[i].kind)
    && (forall id :: id in kinds ==> exists i :: 0 <= i < n && identities[i].id == id)
  }

  lemma KindsStep(identities: seq<IdentityConfig>, n: nat, kinds: map<string, IdentityKind>)
    requires n < |identities| && KindsOf(identities, n, kinds)
    requires forall i :: 0 <= i < n ==> IdentitiesApart(identities[i], identities[n])
    ensures KindsOf(identities, n + 1, kinds[identities[n].id := identities[n].kind])
  {
  }

  method ValidateIdentities(identities: seq<IdentityConfig>)
    returns (r: Option<ConfigError>, kinds: map<string, IdentityKind>)
    ensures r.None? <==> identities != [] && IdentitiesOk(identities)
    ensures r.None? ==> && (forall i :: 0 <= i < |identities| ==>
                              identities[i].id in kinds && kinds[identities[i].id] == identities[i].kind)
                        && (forall id :: id in kinds ==> exists i :: 0 <= i < |identities| && identities[i].id == id)
  {
    kinds := map[];
    if |identities| == 0 {
      return Some(NoIdentity), kinds;
    }
    var names: set<string> := {};
    var accounts: set<string> := {};
    for n := 0 to |identities|
      invariant FirstIdentitiesOk(identities, n)
      invariant Used(identities, n, names, accounts)
      invariant KindsOf(identities, n, kinds)
    {
      var identity := identities[n];
      IdentityAccepted(identities, n, names, accounts);
      r := CheckIdentity(identity, names, accounts);
      if r.Some? {
        PrefixesAreOk(identities, n + 1);
        return;
      }
      UsedStep(identities, n, names, accounts);
      KindsStep(identities, n, kinds);
      names := names + {identity.id};
      accounts := accounts + Users(identity);
      kinds := kinds[identity.id := identity.kind];
    }
    return None, kinds;
  }

  method HasRepeats<T(==, !new)>(values: seq<T>) returns (repeats: bool)
    ensures repeats <==> !Distinct(values)
  {
    var seen: set<T> := {};
    for i := 0 to |values|
      invariant Distinct(values[..i])
      invariant forall v :: v in seen <==> v in values[..i]
    {
      if values[i] in seen {
        ghost var x :| 0 <= x < i && values[..i][x] == values[i];
        assert values[x] == values[i];
        return true;
      }
      seen := seen + {values[i]};
      assert values[..i + 1] == values[..i] + [values[i]];
    }
    assert values[..|values|] == values;
    return false;
  }

  /** `identities.iter().find(|identity| identity.id == id)`. */
  function FindIdentity(identities: seq<IdentityConfig>, id: string): (r: Option<IdentityConfig>)
    ensures r.Some? ==> r.value in identities && r.value.id == id
    ensures r.None? <==> forall i :: 0 <= i < |identities| ==> identities[i].id != id
  {
    if identities == [] then None
    else if identities[0].id == id then Some(identities[0])
    else FindIdentity(identities[1..], id)
  }

  method ValidatePolicyKeys(known: set<string>, policy: PolicyConfig, ghost ids: seq<string>)
    returns (r: Option<ConfigError>)
    requires forall id :: id in known <==> id in ids
    ensures r.None? <==> && Distinct(policy.keys)
                         && forall k :: 0 <= k < |policy.keys| ==> policy.keys[k] == "*" || policy.keys[k] in ids
  {
    var seen: set<string> := {};
    for k := 0 to |policy.keys|
      invariant forall x :: 0 <= x < k ==> policy.keys[x] == "*" || policy.keys[x] in ids
      invariant Distinct(policy.keys[..k])
      invariant forall key :: key in seen <==> key in policy.keys[..k]
    {
      var key := policy.keys[k];
      if key != "*" && key !in known {
        return Some(PolicyKeyUnknown(policy.identity, key));
      }
      if key in seen {
        ghost var x :| 0 <= x < k && policy.keys[..k][x] == key;
        assert policy.keys[x] == policy.keys[k];
        return Some(PolicyRepeats(policy.identity));
      }
      seen := seen + {key};
      assert policy.keys[..k + 1] == policy.keys[..k] + [key];
    }
    assert policy.keys[..|policy.keys|] == policy.keys;
    return None;
  }

  /** In a list of identities with different names, a name stands for one identity. */
  lemma NameIsUnique(identities: seq<IdentityConfig>, x: IdentityConfig, y: IdentityConfig)
    requires IdentitiesOk(identities) && x in identities && y in identities && x.id == y.id
    ensures x == y
  {
  }

  method ValidatePolicy(known: set<string>, kinds: map<string, IdentityKind>, identities: seq<IdentityConfig>,
                        policy: PolicyConfig, ghost ids: seq<string>)
    returns (r: Option<ConfigError>)
    requires forall id :: id in known <==> id in ids
    requires IdentitiesOk(identities)
    requires forall i :: 0 <= i < |identities| ==>
               identities[i].id in kinds && kinds[identities[i].id] == identities[i].kind
    requires forall id :: id in kinds ==> exists i :: 0 <= i < |identities| && identities[i].id == id
    ensures r.None? <==> PolicyOk(ids, identities, policy)
  {
    if policy.identity !in kinds {
      return Some(PolicyIdentityUnknown(policy.identity));
    }
    if policy.actions == [] || policy.keys == [] {
      return Some(PolicyEmpty(policy.identity));
    }
    var repeats := HasRepeats(policy.actions);
    if repeats {
      return Some(PolicyRepeats(policy.identity));
    }
    r := ValidatePolicyKeys(known, policy, ids);
    if r.Some? {
      return;
    }
    var identity := FindIdentity(identities, policy.identity).value;
    forall x | x in identities && x.id == policy.identity ensures x == identity {
      NameIsUnique(identities, x, identity);
    }
    ghost var i :| 0 <= i < |identities| && identities[i] == identity;
    if kinds[policy.identity] == GithubActions && Sign in policy.actions && !MaySign(identity) {
      return Some(SignPolicyUnconstrained(policy.identity));
    }
    return None;
  }

  /** The configuration is accepted exactly when it is valid as a whole. */
  method Validate(c: Config) returns (r: Option<ConfigError>)
    ensures r.None? <==> ValidConfig(c)
  {
    var known: set<string>, kinds: map<string, IdentityKind>;
    r, known := ValidateKeys(c.keys);
    if r.Some? {
      return;
    }
    ghost var ids := KeyIds(c.keys);
    r := ValidateKeyrings(known, c.keyrings, ids);
    if r.Some? {
      return;
    }
    if c.sessionTtl == 0 || c.sessionTtl > MAX_OAUTH_SESSION_TTL_SECONDS {
      return Some(BadSessionTtl);
    }
    if c.jwksTtl == 0 {
      return Some(BadJwksTtl);
    }
    r, kinds := ValidateIdentities(c.identities);
    if r.Some? {
      return;
    }
    if |c.policies| == 0 {
      return Some(NoPolicy);
    }
    for p := 0 to |c.policies|
      invariant forall q :: 0 <= q < p ==> PolicyOk(ids, c.identities, c.policies[q])
    {
      r := ValidatePolicy(known, kinds, c.identities, c.policies[p], ids);
      if r.Some? {
        return;
      }
    }
    return None;
  }

  /** The keys a validated configuration loads: same ids, algorithms and states, in order. */
  function LoadedKeys(keys: seq<KeyConfig>, pems: seq<string>): (loaded: seq<Key>)
    requires |pems| == |keys|
    ensures |loaded| == |keys|
    ensures forall i :: 0 <= i < |keys| ==>
              loaded[i] == Key(keys[i].id, keys[i].algorithm, keys[i].state, pems[i])
  {
    seq(|keys|, i requires 0 <= i < |keys| => Key(keys[i].id, keys[i].algorithm, keys[i].state, pems[i]))
  }

  /** The store holds the configured keys, in order, under an exact index. */
  ghost predicate LoadedFrom(c: Config, store: Store) {
    && |store.keys| == |c.keys|
    && (forall k :: 0 <= k < |c.keys| ==>
          && store.keys[k].id == c.keys[k].id && store.keys[k].algorithm == c.keys[k].algorithm
          && store.keys[k].state == c.keys[k].state)
    && IndexOf(store.index, KeyIds(c.keys))
  }

  /** `KeyStore::load` after reading the PEM files never fails on a validated configuration. */
  method LoadStore(c: Config, pems: seq<string>) returns (store: Store)
    requires ValidConfig(c) && |pems| == |c.keys|
    ensures Represents(store, LoadedKeys(c.keys, pems), c.keyrings) && Sound(store) && LoadedFrom(c, store)
  {
    var keys := LoadedKeys(c.keys, pems);
    assert Ids(keys) == KeyIds(c.keys);
    var built := FromKeys(keys, c.keyrings);
    store := built.value;
    BuiltStoreIsSound(store, keys, c.keyrings);
  }

  // ---- What the rules mean, in characters and fields ----

  lemma ValidNameMeans(s: string)
    ensures ValidName(s) <==> 1 <= |s| <= 128 && forall c :: c in s ==> c in LOWER + UPPER + DIGITS + "._-"
  {
    forall c ensures IsAlphanumeric(c) || c in {'.', '_', '-'} <==> c in LOWER + UPPER + DIGITS + "._-" {
      AlphanumericMeans(c);
    }
    assert forall i :: 0 <= i < |s| ==> s[i] in s;
  }

  lemma ValidNumericIdMeans(s: string)
    ensures ValidNumericId(s) <==> s != "" && forall c :: c in s ==> c in DIGITS
  {
    forall c ensures IsDigit(c) <==> c in DIGITS {
      DigitMeans(c);
    }
    assert forall i :: 0 <= i < |s| ==> s[i] in s;
  }

  lemma ValidCommitShaMeans(s: string)
    ensures ValidCommitSha(s) <==> (|s| == 40 || |s| == 64) && forall c :: c in s ==> c in DIGITS + "abcdef" + "ABCDEF"
  {
    forall c ensures IsHex(c) <==> c in DIGITS + "abcdef" + "ABCDEF" {
      HexMeans(c);
    }
    assert forall i :: 0 <= i < |s| ==> s[i] in s;
  }

  ghost predicate IsOwnerAndName(s: string, owner: string, name: string) {
    owner != "" && name != "" && '/' !in owner && '/' !in name && s == owner + "/" + name
  }

  lemma ValidRepositoryMeans(s: string)
    ensures ValidRepository(s) <==> exists owner, name :: IsOwnerAndName(s, owner, name)
  {
    var found := FirstIndexOf(s, '/');
    if ValidRepository(s) {
      assert IsOwnerAndName(s, s[..found.value], s[found.value + 1..]);
    }
    if owner, name :| IsOwnerAndName(s, owner, name) {
      FirstIndexAfter(owner, '/', name);
      assert s == owner + ['/'] + name && s[|owner| + 1..] == name;
    }
  }

  ghost predicate HasDotDotBetween(path: string, pre: string, post: string) {
    path == pre + ".." + post
  }

  lemma ValidWorkflowPathMeans(path: string)
    ensures ValidWorkflowPath(path) <==>
            ".github/workflows/" <= path && !exists pre, post :: HasDotDotBetween(path, pre, post)
  {
    if i :| 0 <= i < |path| - 1 && path[i] == '.' && path[i + 1] == '.' {
      assert HasDotDotBetween(path, path[..i], path[i + 2..]);
    }
    if pre, post :| HasDotDotBetween(path, pre, post) {
      assert path[|pre|] == '.' && path[|pre| + 1] == '.';
    }
    if ".github/workflows/" <= path {
      assert path[0] == ".github/workflows/"[0];
    }
  }

  /** No text of whitespace only. */
  ghost predicate HasText(s: string) {
    exists i :: 0 <= i < |s| && !IsWhitespace(s[i])
  }

  /** An account identity names a user and possibly a login, and nothing that belongs to Actions. */
  lemma ValidAccountMeans(identity: IdentityConfig)
    requires identity.kind == GithubAccount
    ensures ValidIdentity(identity) <==>
            && ValidName(identity.id)
            && identity == IdentityConfig(identity.id, GithubAccount, identity.githubUserId, identity.githubLogin,
                                          None, None, None, None, None, None, None, None)
            && identity.githubUserId.Some? && ValidNumericId(identity.githubUserId.value)
            && (identity.githubLogin.Some? ==> HasText(identity.githubLogin.value))
  {
  }

  /** No claim is constrained. */
  ghost predicate Unconstrained(identity: IdentityConfig) {
    identity == identity.(workflowPath := None, allowedEventNames := None, allowedRefTypes := None,
                          requiredEnvironment := None, requiredRunnerEnvironment := None, allowedWorkflowShas := None)
  }

  ghost predicate AllHaveText(values: seq<string>) {
    values != [] && forall v :: v in values ==> HasText(v)
  }

  /** Claims are constrained under a workflow path, with events, and with nothing blank or empty. */
  ghost predicate Constrained(identity: IdentityConfig) {
    && identity.workflowPath.Some? && ValidWorkflowPath(identity.workflowPath.value)
    && identity.allowedEventNames.Some? && AllHaveText(identity.allowedEventNames.value)
    && (identity.allowedRefTypes.Some? ==> AllHaveText(identity.allowedRefTypes.value))
    && (identity.requiredEnvironment.Some? ==> HasText(identity.requiredEnvironment.value))
    && (identity.requiredRunnerEnvironment.Some? ==> HasText(identity.requiredRunnerEnvironment.value))
    && (identity.allowedWorkflowShas.Some? ==>
          && identity.allowedWorkflowShas.value != []
          && forall sha :: sha in identity.allowedWorkflowShas.value ==> ValidCommitSha(sha))
  }

  lemma NoneBlankMeans(values: seq<string>)
    ensures values != [] && !SomeBlank(values) <==> AllHaveText(values)
  {
    assert forall i :: 0 <= i < |values| ==> values[i] in values && (Blank(values[i]) <==> !HasText(values[i]));
  }

  /** An Actions identity names a repository and no account, and constrains its claims fully or not at all. */
  lemma ValidActionsMeans(identity: IdentityConfig)
    requires identity.kind == GithubActions
    ensures ValidIdentity(identity) <==>
            && ValidName(identity.id)
            && identity.repositoryId.Some? && ValidNumericId(identity.repositoryId.value)
            && identity.githubUserId == None && identity.githubLogin == None
            && (identity.repository.Some? ==> ValidRepository(identity.repository.value))
            && (Unconstrained(identity) || Constrained(identity))
  {
    if identity.allowedEventNames.Some? {
      NoneBlankMeans(identity.allowedEventNames.value);
    }
    if identity.allowedRefTypes.Some? {
      NoneBlankMeans(identity.allowedRefTypes.value);
    }
    if identity.allowedWorkflowShas.Some? {
      assert forall i :: 0 <= i < |identity.allowedWorkflowShas.value| ==>
          identity.allowedWorkflowShas.value[i] in identity.allowedWorkflowShas.value;
    }
  }

  /** An Actions identity may not sign without workflow path or environment, or with a ref type but "tag". */
  lemma MaySignMeans(identity: IdentityConfig)
    ensures MaySign(identity) <==>
            && identity.workflowPath != None && identity.requiredEnvironment != None
            && (identity.allowedRefTypes == None || forall t :: t in identity.allowedRefTypes.value ==> t == "tag")
  {
    if identity.allowedRefTypes.Some? {
      assert forall i :: 0 <= i < |identity.allowedRefTypes.value| ==>
          identity.allowedRefTypes.value[i] in identity.allowedRefTypes.value;
    }
  }
}
