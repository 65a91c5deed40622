# A verified model of microtun-signer

microtun-signer is a small signing service. Operators unlock its encrypted keys one at a time or a
keyring at a time; people log in by exchanging a GitHub device-flow token for a short-lived session;
GitHub Actions workflows present an OIDC token; and a signature is issued only to a principal whose
identity, policy, key state and request context all check out. Many requests share the same state,
so the interesting guarantees are about every interleaving and about configuration checks that have
to hold up all the way to the signature.

The Dafny files model that shared state and those checks and prove what they guarantee. Check the
whole project with `dafny verify dfyconfig.toml`.

| file | part of the service |
|---|---|
| `KeyStore.dfy` | building the key and keyring indices, and the lookups in them |
| `KeyringUnlock.dfy`, `KeyringSafety.dfy`, `KeyringTheorems.dfy`, `KeyringAnswers.dfy`, `KeyringPoison.dfy` | unlock, sign and observe calls interleaving over per-key reader/writer locks: the system, its invariant, what follows from it, what every call answers, and a run with a poisoned lock |
| `KeySlots.dfy` | the unlock operations as they update the key slots in place |
| `Expiring.dfy` | maps whose entries expire: purging against promises, and against an unbounded log |
| `JtiReplay.dfy`, `Sessions.dfy` | the replay cache of OIDC tokens and the session store, as such maps |
| `DeviceExchange.dfy`, `ExchangeTheorems.dfy`, `ExchangeEvents.dfy`, `ExchangeRuns.dfy` | interleaved device-token exchanges with failures and cancellation: the system, what follows from it, all of it told by the events, and what an exchange can count on |
| `JwksRefresh.dfy` | the single-flight refresh of GitHub's token-signing keys |
| `Limiter.dfy` | the sliding-window limiter in front of the exchange |
| `Config.dfy`, `Identity.dfy` | configuration validation and identity resolution |
| `Signing.dfy` | from an authenticated request to a signature, and where every signature comes from |
| `Requests.dfy` | from the bearer header and the key cache to a signature |
| `SessionToken.dfy` | the session token on the wire and in the client's cache |
| `KeyEncryption.dfy` | the bounds on a key file's scrypt parameters |
| `Prelude.dfy`, `Text.dfy` | shared datatypes, sequence facts and string operations |

## How the model reads

- **State machines.** Threads and requests are program counters over shared state; a run is any
  sequence of enabled events from the initial state. An access to shared state under its lock is one
  step. Lock ownership in the key store is read off the program counters, so a guard is released
  exactly when the code drops it. History fields (`installer`, `log`, `promises`, `origin`) record what
  happened and no step looks at them, except that a fresh random session token is one that no mint
  has drawn before.
- **Critical sections as methods.** What the code does in place is a class method or a loop, proved
  equal to the function that the state machines and lemmas use.
- **Time** is an integer. A method that reads the clock before it takes the lock gets a reading `now`
  no later than the lock time `at`; lock times never go back. Guarantees that need readings in lock
  order say so.
- **Cryptography** is uninterpreted: decryption is any function from algorithm, PEM and passphrase to
  a secret or nothing, SHA-256 is injective, fresh random tokens have not been used before.

## Findings

- src/auth.rs:679-687: `record_jti` reads the monotonic clock, then the wall clock, then takes the
  lock. When time passes between the readings a jti can be accepted again before `exp` plus 60
  seconds: `JtiReplay.SkewedRunAcceptsTwice` has such a run, `JtiReplay.EarlyAcceptanceIff` says
  exactly when one exists, and `Signing.SecondSignatureIff` carries it to signatures.
- src/auth.rs:629 and src/auth.rs:688: the cache lets go of a jti at exactly `exp` plus 60. A verifier
  whose 60-second leeway is not strict still accepts the token then, so a second signature is possible
  at that moment for every token first used before it expired, no later than its wall reading (`Signing.SecondSignatureIff`);
  `Signing.SignedAgainByIff` has the exact condition for any last moment of acceptance.
- src/auth.rs:732-737: a refresher cancelled after `fetch_jwks` returned and before it has the cache's
  write lock loses the fetched keys with the attempt already stamped, and callers go on being served
  the older ones (`JwksRefresh.LostFetchServesOlderKey`).
  `JwksRefresh.AnswerIsLatestSuccessIffNotLost` says exactly when an answer is from the latest
  successful fetch.
- src/api.rs:81: `admit` uses the reading itself as the cutoff where `checked_sub` fails, which the
  model takes to be below 60 seconds. (Whether it fails there depends on how the platform represents
  an instant.) Then a burst at one reading is never limited; from 60 on it is
  (`Limiter.BurstIsLimitedIffClockIsOldEnough`). With readings in order, the windows that every run
  keeps bounded are exactly those that start at 60 or later, and those before the clock's start
  (`Limiter.WindowIsBoundedIff`).
- src/api.rs:80-82: `admit` reads the clock before it waits for the mutex. If a later reading gets in
  first, even by one second, a window can hold 11 attempts (`Limiter.StaleReadingBreaksTheBound`): the
  bound holds of all runs with readings of at least 60 and at most d seconds behind iff d is zero
  (`Limiter.BoundHoldsIffNoLag`). With readings of at least 60 in any order it holds back from the
  latest reading so far (`Limiter.AtMostTenBeforeLatestReading`), and `Limiter.RecordedIffFewRemain`
  says exactly which calls are recorded, for readings of any age in any order.
- src/auth.rs:424-430, src/auth.rs:459-464 and src/auth.rs:679-688: the session store and the jti
  cache also purge with readings from before the lock, so a lookup with an older reading may miss what
  is unexpired at that reading (`Sessions.StaleReadingMisses`, `JtiReplay.StaleReadingForgets`).
  `Sessions.AcceptedIffUnpurged` and `JtiReplay.ReplayedIffRemembered` say exactly what is remembered,
  in any order of readings.
- src/key.rs:351-356: behind a poisoned lock an unlocked key would read as locked through
  `is_unlocked` (`KeyringPoison.PoisonedKeyReadsAsLocked`). Only a panic under a write guard poisons a
  key lock, and no statement under one in src/key.rs:171-190 or src/key.rs:417-427 panics, so this is
  about what would follow, not about an input the code is shown to receive. After a keyring unlock,
  members read as unlocked exactly as long as their locks are not poisoned
  (`KeyringTheorems.AtomicUnlockIsSeenIffNotPoisoned`, `KeyringTheorems.SuccessIsSeenIffNotPoisoned`);
  their slots stay full either way.
- src/session_cache.rs:67-97: the client's 30-second margin covers a delay of exactly 30 seconds
  between minting and storing a session, and no more (`SessionToken.StoringDelayIsExact`).

## Model

| member | source | states |
|---|---|---|
| KeyringTheorems.KeyringUnlockIsAtomic | src/key.rs:135-190 | In every run: from the moment anyone is inside a guard of a slot that a keyring call wrote, everyone who is later inside a guard of any active member of that keyring, reader or other writer, finds its slot full, although guards are released one by one |
| KeyringTheorems.AtomicUnlockIsSeenIffNotPoisoned | src/key.rs:351-356 | Under the same hypotheses `is_unlocked` answers "unlocked" iff the member's lock is not poisoned at that step |
| KeyringTheorems.SuccessIsSeenIffNotPoisoned | src/key.rs:351-356 | After a keyring call returned success, an observer of any active member is answered "unlocked" iff its lock is not poisoned at that step |
| KeyringPoison.PoisonedKeyReadsAsLocked | src/key.rs:351-356 | For every keyring with one active member that opens there is a run in which the call succeeds, the lock is then poisoned and a later observer is told "locked" although the slot is full |
| KeyringPoison.OneKeyWorld | src/key.rs:42-84 | Such a keyring exists |
| KeyringTheorems.ErrorInstallsNothing | src/key.rs:122-190 | A keyring or single-key call that returns an error, including a poisoned lock, owns no slot at any moment of the run |
| KeyringTheorems.SuccessUnlocksEveryMember | src/key.rs:114-190 | After a keyring call returned success every active member is unlocked for the rest of the run |
| KeyringTheorems.WrittenOnce | src/key.rs:180-188 | A full slot keeps its contents and its installer in every later state: slots are written at most once and never revert |
| KeyringTheorems.SlotContents | src/key.rs:400-427 | A full slot belongs to an active key and holds exactly the secret that the decoder of the key's own algorithm makes of the key's own file under the passphrase of the call that installed it |
| KeyringTheorems.ReportsAreHonest | src/key.rs:139-190 | A returned call reports `Unlocked` for a key if and only if it is the call that filled the slot |
| KeyringTheorems.UnlockedReportedOnce | src/key.rs:180-190 | No two calls of a run report `Unlocked` for the same key |
| KeyringTheorems.OutcomesFollowTheRing | src/key.rs:139-190 | A successful keyring call reports one outcome per member in ring order under its own id: skipped iff inactive, unlocked iff installed by this call, already unlocked iff another call filled it |
| KeyringAnswers.RingAnswersAreExact | src/key.rs:122-190 | Every answer of a keyring call in every run, from what it saw: it reads each active member once in ring order; if the decoders fail on any member read as locked it answers those ids (and the opened ones) or an invalid passphrase; else it takes the write locks in order and answers a poisoned lock iff it meets one, and success otherwise |
| KeyringAnswers.SeenWasThere | src/key.rs:351-356 | Whatever a call has seen of a slot or a lock was so at one earlier state of the run |
| KeyringAnswers.RingRefusalsAreExact | src/key.rs:127-133 | Unknown keyring iff the ring is absent, and no active keys iff it is present and every member is inactive |
| KeyringAnswers.PoisonReportIsTrue | src/key.rs:171-179 | A keyring call reports a poisoned lock only if some active member that its passphrase opens had its lock poisoned before |
| KeyringAnswers.RightPassphraseIsNotRefused | src/key.rs:135-190 | In a run in which no lock is poisoned, a passphrase that opens every active member of a ring that has one is answered with success |
| KeyringAnswers.SingleAnswersAreExact | src/key.rs:380-431 | Every answer of a single-key unlock, a signer and an observer in every run, from what it saw: inactive, poisoned, already unlocked, bad passphrase or unlocked; not active, locked, rejected, failed or signed; unlocked or not; each exactly in its case |
| KeyringTheorems.SigningNeverFindsTheKeyLocked | src/key.rs:429-431 | A signer that passed the check never gets `Locked` from `sign_digest`, and signs with the secret that some unlock call's passphrase opened its own key file to |
| KeyringTheorems.WaitsUpwards | src/key.rs:171-179 | Wherever a thread's invariant holds, so in every reachable state: a thread that waits for a key lock while holding others holds only locks of the same keyring that come earlier in its order, and waits to write |
| KeyringTheorems.NoDeadlock | src/key.rs:171-190 | In every reachable state with an unfinished call some call can step, even if readers queue behind waiting writers |
| KeyringTheorems.CallsAreBounded | src/key.rs:135-190 | A call on a keyring of n members takes at most 4n + 6 steps of its own, whatever the others do |
| KeyringTheorems.ReturnedStays | src/key.rs:190-190 | A call that has returned never changes its answer |
| KeyringTheorems.RunKeepsInv | src/key.rs:122-190 | The invariant of the unlock system holds in every state of every run |
| KeyringSafety.StepKeepsInv | src/key.rs:122-190 | Every enabled step of any thread keeps the invariant and every full slot with its installer |
| KeyringSafety.ExclusiveKept | src/key.rs:171-179 | A step that gains a guard only where no other guard is in the way keeps write guards exclusive |
| KeyringSafety.ReadsAreGuarded | src/key.rs:351-431 | What a thread does next depends on no slot but those it holds a guard of, and on no poisoning but of those locks and the one it takes to write |
| KeyringSafety.WritesAreGuarded | src/key.rs:180-188 | A step writes no slot but those its thread holds a write guard of |
| KeyringSafety.InstallSkips | src/key.rs:181-185 | Finding a slot filled meanwhile, the install loop corrects exactly that member's outcome and writes nothing |
| KeyringSafety.InstallWrites | src/key.rs:186-188 | Writing an empty slot keeps every outcome in agreement with who filled which slot |
| KeyringUnlock.PatchHits | src/key.rs:183-185 | With distinct ids, overwriting the first outcome with a given id changes the intended entry and no other |
| KeyringUnlock.Decrypt | src/key.rs:400-415 | Succeeds iff the decoder of the key's algorithm opens its PEM under the passphrase, and then holds that secret as material of that algorithm |
| KeySlots.Slots.constructor | src/key.rs:308-314 | Every key of a loaded store starts locked |
| KeySlots.Slots.Install | src/key.rs:417-427 | Answers a poisoned lock; otherwise fills the slot if it is empty and leaves it alone if not, and says which; no other slot changes |
| KeySlots.Slots.Unlock | src/key.rs:380-427 | Without interference: inactive, lock poisoned, already unlocked, unlocked or bad passphrase, each exactly in its case, and only a successful decryption changes the slot |
| KeySlots.Slots.ScanMembers | src/key.rs:135-158 | The member loop computes the scan of the members over the slots as `is_unlocked` shows them |
| KeySlots.ScanAllReports | src/key.rs:139-158 | The scan has one outcome per member, and its opened and failed ids are the locked active members by whether decryption succeeds, in ring order |
| KeySlots.ScanAllOpens | src/key.rs:144-151 | The scan's decrypted keys are, without repeats, exactly the locked active members the passphrase opens, with their own material |
| KeySlots.Slots.InstallAll | src/key.rs:180-190 | Installs every decrypted key whose slot is empty, keeps full slots, touches no other slot, and corrects exactly the outcomes of the slots found full |
| KeySlots.Slots.OpenMembers | src/key.rs:135-190 | Succeeds iff the passphrase opens every member seen as locked and active and none of those locks is poisoned, and then changes exactly those slots; on failure nothing changes and the error lists who opened and who failed, or reports the poisoned lock if none failed |
| KeySlots.Slots.UnlockKeyring | src/key.rs:122-190 | All or nothing without interference: success iff some member is active, the passphrase opens every locked active one and no active member's lock is poisoned; exactly those slots change; every error in exactly its case |
| KeyStore.BuildIndex | src/key.rs:46-51 | Succeeds iff key ids are distinct, with an index that is the inverse of the id list; a failure names a repeated id |
| KeyStore.ResolveMembers | src/key.rs:59-73 | Resolves a ring to positions in declared order and claims each member once; a failure names an unknown, already claimed or repeated member |
| KeyStore.FromKeys | src/key.rs:42-84 | Succeeds iff the input is well structured; the store it returns represents the input; an error is a concrete witness against it |
| KeyStore.WitnessRefutes | src/key.rs:43-76 | An error witness of any kind contradicts well-structuredness |
| KeyStore.BuiltStoreIsSound | src/key.rs:53-84 | Everything `from_keys` builds has distinct ids, an exact index, and keyrings that are non-empty, free of repeats, in bounds and owned |
| KeyStore.RingsDisjoint | src/key.rs:64-71 | A key position belongs to at most one keyring |
| KeyStore.LookupsAreInverse | src/key.rs:86-113 | `get` finds exactly the configured keys, `keyring_members` lists the declared order, and `keyring_for_key` answers a ring iff that ring lists the key |
| Config.ValidateKeys | src/config.rs:309-325 | Accepts iff there is a key and ids are valid, distinct and without a passphrase credential; collects exactly those ids |
| Config.ClaimMembers | src/config.rs:339-355 | Accepts a keyring iff its members are known, unrepeated and unclaimed, and then claims exactly those |
| Config.ValidateKeyrings | src/config.rs:327-356 | Accepts iff names are valid and the structural keyring rules hold |
| Config.CheckIdentity | src/config.rs:405-469 | Accepts one identity iff it is valid on its own and its name and account are unused |
| Config.ValidateIdentities | src/config.rs:397-471 | Accepts iff there is an identity, each is valid, and names and account user ids are distinct; the kind table is exact |
| Config.HasRepeats | src/config.rs:489-494 | True iff some value occurs twice |
| Config.ValidatePolicyKeys | src/config.rs:495-503 | Accepts iff the keys are unrepeated and each is `*` or known |
| Config.ValidatePolicy | src/config.rs:476-542 | Accepts iff the policy names a configured identity, is non-empty and unrepeated, covers known keys, and a sign policy for Actions is constrained by workflow path, environment and tags |
| Config.Validate | src/config.rs:309-545 | Accepts iff the configuration as a whole is valid |
| Config.NameIsUnique | src/config.rs:408-410 | In an accepted configuration an identity name stands for one identity |
| Config.ValidNameMeans | src/config.rs:639-645 | Names are 1 to 128 ASCII letters, digits, dots, underscores and dashes |
| Config.ValidNumericIdMeans | src/config.rs:625-630 | Numeric ids are one or more decimal digits |
| Config.ValidRepositoryMeans | src/config.rs:632-637 | A repository is a non-empty owner and a non-empty name without slashes around one slash |
| Config.ValidCommitShaMeans | src/config.rs:647-649 | Commit SHAs are 40 or 64 hexadecimal digits of either case |
| Config.ValidWorkflowPathMeans | src/config.rs:565-570 | Workflow paths begin with `.github/workflows/` and nowhere contain two dots in a row |
| Config.ValidAccountMeans | src/config.rs:413-445 | An account identity is valid iff it has a name, a numeric user id and possibly a login with text, and sets nothing else |
| Config.ValidActionsMeans | src/config.rs:446-468 | An Actions identity is valid iff it has a name, a numeric repository id, possibly a repository, no account fields, and constrains its claims fully or not at all |
| Config.MaySignMeans | src/config.rs:513-540 | A sign policy is refused for an Actions identity iff it lacks workflow path or environment, or lists a ref type other than `tag` |
| Config.LoadStore | src/key.rs:32-84 | A validated configuration never fails in `from_keys`, and the store is sound and represents it |
| Identity.FindAccount | src/auth.rs:504-509 | Finds a matching account identity if there is one and nothing otherwise |
| Identity.AccountMatchIsUnique | src/config.rs:421-423 | In a validated configuration an account matches at most one identity |
| Identity.AccountOrderIsIrrelevant | src/auth.rs:504-509 | Reordering a validated configuration never changes which identity an account gets |
| Identity.NextMatch | src/auth.rs:889-892 | The next index from a start whose identity matches the claims, with no match skipped |
| Identity.ResolvesTheOnlyMatch | src/auth.rs:885-901 | Resolution yields an identity iff exactly one configured identity matches, and then that one |
| Identity.ActionsOrderIsIrrelevant | src/auth.rs:885-901 | Reordering the identities never changes what a token resolves to |
| Identity.AddingNeverRedirects | src/auth.rs:885-901 | Adding an identity anywhere either leaves a token's resolution alone, or, if it matches too, denies a token that had a match and serves one that had none |
| Identity.MatchFixesWorkflowPath | src/auth.rs:947-951 | No claims match two identities with different workflow paths |
| Identity.MatchesActionsMeans | src/auth.rs:903-978 | Field by field: an identity matches iff kind, repository id and any configured repository agree, and under a workflow path also workflow ref, event, ref type (a tag if none is listed), environment, runner and, from a non-empty list, commit |
| Identity.ResolutionInFields | src/auth.rs:885-978 | A token that meets all the fields of exactly one identity resolves to it; one that misses some field of every identity, or meets two, is denied |
| Identity.MatchesAccountMeans | src/auth.rs:876-883 | An account matches iff the kind and user id agree, and the login ignoring ASCII case where one is configured |
| Identity.ClaimIsTrueMeans | src/auth.rs:853-859 | A claim counts as true iff it is the boolean or the text "true" |
| Text.IgnoringCaseMeans | src/auth.rs:882-882 | Two strings are equal ignoring ASCII case iff they are the same letters of either case, or the same characters, one by one |
| Signing.ActionsSignatureProvenance | src/api.rs:676-923 | For every validated configuration, in the fields of configuration and claims: a signature for an Actions token implies exactly one identity met, with workflow path, environment, event, repository, ref type, runner and commit as it allows, a tag ref protected by the boolean or text "true" and named, a policy naming identity, sign and the key or every key, an existing, active, unlocked key, and an accepted jti |
| Signing.SessionSignatureProvenance | src/api.rs:694-811 | A signature for a session implies a live session, a policy for its identity covering the key, and an active unlocked key; the replay cache is untouched |
| Signing.SessionSignatureTracedToLogin | src/auth.rs:356-383 | Across a whole run of the exchange, by its events: behind a signature for a session are a begin, GitHub's answer naming this application and a scope, the profile of a configured two-factor account, a 204 or 404 on revocation, the consumption and the unexpired mint of that token, in this order, under an identity the policy covers |
| Signing.ActionsSignatureIff | src/api.rs:676-923 | Both directions, in the same fields: an Actions token gets a signature iff the body is JSON, the jti is usable and unreplayed, the claims meet exactly one identity, a policy covers identity and key, the configured key is active and usable at both reads, the digest has 32 bytes, the ref is a named tag whose protection claim is the boolean or text "true", and the primitive signs |
| Signing.UnprotectedRefIsRefused | src/api.rs:893-903 | A request that passes every other check is answered that its ref is not protected for exactly the other values of that claim |
| Signing.RefusalsAreExact | src/api.rs:713-923 | Past authentication, for a configured key: the answer is, in this order, malformed JSON, policy denied, key state, locked, digest, the context refusals, failed, locked at signing or the signature over the digest, each exactly in its case |
| Signing.UnknownKeyIsRefused | src/api.rs:819-829 | For a key that is not configured: malformed JSON, policy denied for a well-formed uncovered name, and unknown key otherwise |
| Signing.AuthenticationIsExact | src/auth.rs:640-672 | An Actions token is invalid without verified claims or usable jti, denied unless its claims meet exactly one identity, refused as the replay cache says, and otherwise gives that identity's principal with the ref claims |
| Signing.SessionAuthenticationIsExact | src/auth.rs:451-475 | A request that is not JSON is told so; under a session token it goes on as the session's account iff that is live, and is an invalid token otherwise, with the replay cache untouched |
| Signing.GrantsMeans | src/authorization.rs:34-38 | A policy grants a key iff it names the identity and the sign action, and the key or every key |
| Signing.SignatureUsesTheKeyFile | src/key.rs:400-431 | A signature issued between two moments of a run is over the requested digest with the secret some unlock call's passphrase opened the requested key's own file to, under its configured algorithm |
| Signing.SessionSignatureIff | src/api.rs:676-868 | Both directions: a session gets a signature iff it is live and policy, key and digest allow it |
| Signing.SignedWithActiveKey | src/api.rs:813-868 | A signature is made over the requested 32-byte digest with the material in the slot of the requested key, which is configured, active and unlocked, under a granting policy |
| Signing.SignPolicyConstrains | src/config.rs:505-541 | In a validated configuration a sign policy for an Actions identity implies its workflow, environment and tag constraints |
| Signing.SignatureNeverLockedBetweenReads | src/api.rs:765-780 | When the check and the signing read happen in order in one run of the key store, the request is never answered locked at the second |
| Signing.SeenFollowsAttempts | src/auth.rs:640-649 | Requests touch the replay cache exactly as the sequence of their `record_jti` calls does |
| Signing.SignatureConsumesAcceptance | src/auth.rs:645-649 | Every signature for an Actions token consumes one accepted `record_jti` call of its own |
| Signing.OneSignaturePerToken | src/auth.rs:645-697 | Two signatures for one jti: the second holds the replay lock no earlier than the first one's cache expiry, which is exp plus 60 seconds less the time between the first one's two clock readings, however stale the readings |
| Signing.SignedAgainByIff | src/auth.rs:617-697 | For whatever last moment a verifier still accepts the token: some continuation of the run signs for it again by then iff neither the first call's cache expiry nor its lock time is past that moment |
| Signing.SecondSignatureIff | src/auth.rs:629-697 | A second signature before exp plus 60 is possible iff the token was unexpired, time passed between the first call's two readings and it got the lock before exp plus 60; at exp plus 60 itself, iff the first reading was no later than exp and the wall reading, and the lock no later than exp plus 60 |
| Requests.MintedTokenIsRouted | src/auth.rs:438-449 | A minted token in the header, under any spelling of the scheme, takes the session route unchanged, whatever the JWT library says of it |
| Requests.MintedTokenServedIff | src/api.rs:694-811 | A request with a minted token in its header gets a signature iff its body is JSON, the session under that token is live and policy, key and digest allow it; no key answer matters and the replay cache is untouched |
| Requests.JwtRouteMeans | src/auth.rs:438-449 | A request takes the JWT route iff its bearer token has three parts between dots and an RS256 header with that key id |
| Requests.SessionRouteMeans | src/auth.rs:438-449 | Any other bearer token takes the session route |
| Requests.EarlyRefusalsAreExact | src/api.rs:684-711 | A wrong content type, a bad bearer header, an unknown kid and an unavailable key are answered so, with the replay cache untouched |
| Requests.RestIsPassedOn | src/api.rs:676-711 | Past those refusals `create_signature` gets the credential, key id and body of the request unchanged, and its signature or error is the answer |
| Requests.KeyBehindSignature | src/auth.rs:617-640 | A signature on the JWT route: the key that verified the token is the one the last stored fetch lists under the token's kid, stored less than ttl plus 24 hours before it was answered, and the claims it verified match exactly one identity, which a policy grants the key |
| Requests.AnsweredKeyWasFetched | src/auth.rs:709-754 | A key answered in any run of the key cache is listed under its kid by the last stored fetch, which is not too old |
| JtiReplay.JtiCache.RecordJti | src/auth.rs:678-697 | The cache and the answer after a call are those of `Record` on the cache before |
| JtiReplay.PromisesHonoured | src/auth.rs:688-695 | At any lock time every accepted jti is still cached or its time is over, even with stale readings |
| JtiReplay.AcceptancesAreApart | src/auth.rs:678-697 | Between two acceptances of one jti the lock time passes the first one's expiry in the cache |
| JtiReplay.OneAcceptancePerLifetime | src/auth.rs:678-697 | With one shared clock the second acceptance is at exp plus 60 or later, also when exp had already passed |
| JtiReplay.AcceptedAgainByIff | src/auth.rs:678-697 | After an acceptance, some continuation of the run accepts the jti again by a deadline iff neither the cache expiry nor the lock time of the first is past it, whatever the cache holds |
| JtiReplay.EarlyAcceptanceIff | src/auth.rs:679-687 | A jti can be accepted again before exp plus 60 iff the token was unexpired at the first reading, time passed before the wall reading, and the lock was taken before exp plus 60 |
| JtiReplay.SkewedRunAcceptsTwice | src/auth.rs:679-695 | A concrete timed run with two acceptances of one jti, the second ten seconds before exp plus 60 |
| JtiReplay.ReplayedIffRemembered | src/auth.rs:688-691 | For readings in any order: a call is refused as a replay iff an earlier call was accepted for its jti and neither a call in between nor this one reads a time at or after that acceptance's expiry |
| JtiReplay.StaleReadingForgets | src/auth.rs:679-688 | Concrete calls in which a later reading purges first and an older one then accepts a jti that is live at its own reading |
| JtiReplay.CacheAgreesWithLog | src/auth.rs:688-695 | With ordered readings the cache holds only latest acceptances from the unbounded log, and all the live ones |
| JtiReplay.CacheRefinesLog | src/auth.rs:688-696 | With ordered readings the answer is the log's: replayed iff live in the log, unavailable iff not live and 65,536 others are, accepted otherwise |
| Expiring.PurgeHonours | src/auth.rs:688-688 | Purging with a reading no later than the lock time breaks no promise |
| Expiring.InsertHonours | src/auth.rs:695-695 | Inserting under an absent key adds its promise and breaks none |
| Expiring.PurgeAgrees | src/auth.rs:425-425 | After a purge the map's keys are exactly the live keys of the unbounded log: nothing live is evicted |
| Expiring.InsertAgrees | src/auth.rs:430-430 | Inserting into the map and appending to the log keep them in agreement |
| Expiring.LookupsAgree | src/auth.rs:460-464 | A lookup finds an unexpired entry in the map iff the log has one, and the same one |
| Sessions.SessionStore.MintSession | src/auth.rs:424-430 | The store and the answer after minting are those of `Mint` on the store before |
| Sessions.StoreAgreesWithLog | src/auth.rs:424-430 | With ordered readings the store agrees with the log of all sessions ever granted |
| Sessions.AcceptedIffGrantedAndUnexpired | src/auth.rs:459-467 | A token is accepted for an account iff it was granted to that account and has not expired |
| Sessions.AcceptedIffUnpurged | src/auth.rs:424-467 | For readings in any order: a token is accepted for an account iff it was granted to it, is unexpired at the reading, and no mint since read a time at or after its expiry |
| Sessions.StaleReadingMisses | src/auth.rs:459-464 | Concrete calls in which a lookup with an old reading misses a session unexpired at that reading, after another mint's purge |
| Sessions.RefusedIffFull | src/auth.rs:425-429 | A mint is refused iff 4096 granted sessions are unexpired at its reading |
| DeviceExchange.DeviceTokenReplay.Begin | src/auth.rs:385-405 | The replay record and the answer after a begin are those of `BeginUse` |
| DeviceExchange.DeviceTokenReplay.Consume | src/auth.rs:90-104 | The used record and the answer after a consumption are those of `MarkConsumed`; the in-flight set is untouched |
| DeviceExchange.DeviceTokenReplay.Drop | src/auth.rs:107-112 | After the guard is dropped, whether its token can be begun again depends on the used record alone, at every reading; for every other token the answer is what it was |
| DeviceExchange.MovedIsOk | src/auth.rs:356-383 | Every step keeps an exchange's work in the one allowed order, and only extends its history |
| DeviceExchange.GuardsKept | src/auth.rs:385-405 | Every step keeps the in-flight set equal to the keys of the live guards, one guard per key |
| DeviceExchange.PermitsKept | src/api.rs:226-254 | Every step conserves permits: free ones plus handlers holding one make 8 |
| DeviceExchange.SessionsKept | src/auth.rs:407-436 | Every step keeps every stored session traceable to the complete history of the exchange that minted it |
| DeviceExchange.StepKeepsInv | src/auth.rs:356-436 | Every event of every exchange keeps the whole invariant |
| ExchangeTheorems.RunKeepsInv | src/auth.rs:356-436 | The invariant holds in every state of every run |
| ExchangeTheorems.LogsGrow | src/auth.rs:356-383 | An exchange's history is only ever extended |
| ExchangeTheorems.DeviceTokenIsSingleUse | src/auth.rs:89-104 | After a consumption with reading r, no begin for that token at a lock time before r plus one hour succeeds; it is answered as a replay and leaves the in-flight set alone |
| ExchangeTheorems.InFlightIsTheLiveGuards | src/auth.rs:396-405 | At all times the in-flight set is exactly the keys of the live guards, and no two guards share a key |
| ExchangeTheorems.InFlightIsBounded | src/api.rs:106-109 | Never more than 8 device tokens are in flight |
| ExchangeTheorems.SessionProvenance | src/auth.rs:356-436 | Every stored session has an exchange whose history is begin, ownership with scope, configured two-factor account, successful revocation, consumption and this mint, in that order |
| ExchangeTheorems.RevocationTriedExactlyOnce | src/auth.rs:364-377 | Once the ownership check passed, an exchange that ends uncancelled has tried revocation exactly once, whatever the account outcome |
| ExchangeTheorems.UnconsumedTokenIsRetryable | src/auth.rs:371-375 | A guard dropped before consumption leaves the token free: the next begin succeeds at any reading |
| ExchangeTheorems.FailedRevocationLeavesNothing | src/auth.rs:371-375 | A failed revocation ends the exchange with that error, the token unrecorded and no session of its making |
| ExchangeTheorems.StoreFollowsMints | src/auth.rs:407-436 | In every state of every run the session store is what the run's mints make of an empty store, no two of them for one token |
| ExchangeTheorems.RunAcceptsIffUnpurged | src/auth.rs:424-467 | In every run a session token is accepted for an account iff one of the run's mints granted it to that account, it is unexpired, and no later mint read a time at or after its expiry |
| ExchangeTheorems.RunRefusesIffFull | src/auth.rs:425-429 | A mint about to happen in a run with ordered readings is refused iff 4096 of the run's sessions are live at its reading |
| ExchangeEvents.SessionFromEvents | src/auth.rs:356-436 | For every stored session, by the events of the exchange that minted it, in order: a begin; a token check answered with this application's client id and `read:user` or `user`; a profile with two-factor authentication of a configured account; a revocation answered 204 or 404; the consumption; the mint, whose reading plus the lifetime is the expiry |
| ExchangeEvents.HistoryHasSources | src/auth.rs:356-436 | Every entry of an exchange's history goes back to an event of that exchange that means just that, in order |
| ExchangeEvents.EndsAreExact | src/auth.rs:226-615 | Every end of an exchange, granted, refused, cancelled or each of the failures, was brought by one event for the reason that end stands for |
| ExchangeEvents.EndsExactlyThen | src/auth.rs:226-615 | The converse: an event ends an exchange under way, and in that way, iff it brings the reason |
| ExchangeRuns.GoodLoginIsGranted | src/auth.rs:356-436 | Wherever a run stands, a token of 1 to 16,384 bytes that is neither in flight nor used, a free permit, room in both stores and good answers have a continuation that grants a session for that account, expiring the lifetime after the reading |
| ExchangeRuns.CancellationGivesBack | src/auth.rs:107-112 | At every await under the guard an exchange can be cancelled and is then over in two more steps, with its permit free, its token not in flight and neither store changed |
| ExchangeRuns.ExchangeCanGoOn | src/auth.rs:356-383 | An exchange under way can take its next step at any later time, uncancelled and whatever is answered, without the others' help |
| ExchangeRuns.ExchangesAreBounded | src/auth.rs:356-383 | An exchange takes at most nine steps |
| ExchangeEvents.ForeignTokenIsRefused | src/auth.rs:552-554 | A token that GitHub says belongs to another application ends its exchange as invalid: no revocation is ever answered to it and no session ever comes of it |
| ExchangeEvents.UsedWasConsumed | src/auth.rs:90-104 | A token recorded as used was consumed by an event, and is recorded until that event's reading plus one hour exactly |
| ExchangeEvents.ReplayRefusalIsJustified | src/auth.rs:385-405 | A begin refused as a replay finds another exchange's live guard for the token, or a consumption of it with a reading less than one hour before |
| JwksRefresh.FilterKeys | src/auth.rs:789-800 | Keeps, per kid, the last RSA key of the document that has a kid, names no other algorithm than RS256 and no other use than signatures; fails iff there is none |
| JwksRefresh.JwksCache.TryStamp | src/auth.rs:721-730 | Grants a claim iff no stamp is younger than 60 seconds; a granted claim shuts out every other until 60 seconds after its stamp; no lookup at any time sees a difference |
| JwksRefresh.JwksCache.StoreKeys | src/auth.rs:733-737 | From the store on every lookup serves exactly the new keys until they are ttl plus 24 hours old, with no trace of the old ones, and who may fetch when is unchanged |
| JwksRefresh.StepKeepsInv | src/auth.rs:709-754 | Every step of any caller keeps the refresh mutex exclusive and both stamps of the cache in the past |
| JwksRefresh.OneFetchAtATime | src/auth.rs:715-719 | No two callers are ever fetching at once |
| JwksRefresh.CallersAreBounded | src/auth.rs:709-754 | A caller takes at most seven steps, and goes without an answer iff it was cancelled |
| JwksRefresh.SomeCallerCanStep | src/auth.rs:715-719 | While a caller has no answer and is not cancelled, some caller can step at any later time, whatever a fetch returns |
| JwksRefresh.OneFetchPerStamp | src/auth.rs:721-732 | Counted on the states of a run: as many callers have entered a fetch as the stamp has moved, and successive stamps are at least 60 seconds apart |
| JwksRefresh.FetchesAreSpaced | src/auth.rs:721-732 | Between any two states of a run, at most one fetch more begins than full minutes pass, for any callers, failures and cancellations |
| JwksRefresh.EveryAnswerIsRight | src/auth.rs:709-754 | In terms of the run's events alone: every answer is the one the last stored fetch gives at that moment, its keys until it is ttl plus 24 hours old and never after, whatever failed or was cancelled since; before any store it is an error |
| JwksRefresh.FetchIsStoredOrLost | src/auth.rs:716-737 | A successful fetch is in its caller's hands, or was stored by its caller, or was lost with its caller's cancellation; until one of the two nobody else holds the refresh mutex |
| JwksRefresh.AnswerIsLatestSuccessIffNotLost | src/auth.rs:709-754 | An answer comes from the latest successful fetch iff that fetch was stored first; for callers that went through the mutex, iff its fetcher was not cancelled before storing it |
| JwksRefresh.LookAnswersIffFresh | src/auth.rs:699-719 | A look, first or under the mutex, answers at once iff the last stored fetch lists the kid and was stored less than the time to live ago |
| JwksRefresh.ClaimFetchesIffSpaced | src/auth.rs:721-731 | A claim begins a fetch iff no stamp was made in the last 60 seconds, and otherwise goes on to answer |
| JwksRefresh.LostFetchServesOlderKey | src/auth.rs:732-737 | A concrete run: a refresher is cancelled between its successful fetch and the store, and the next caller is served the older key for the same kid |
| Limiter.PruneDeque | src/api.rs:97-99 | Popping from the front yields the pruned deque |
| Limiter.DeviceExchangeLimiter.RetainSources | src/api.rs:85-90 | Prunes every deque and drops exactly the sources left empty |
| Limiter.DeviceExchangeLimiter.TryAdmit | src/api.rs:76-110 | The attempts and the answer are those of `Admit`; a permit is taken iff the attempt is recorded and one is free, and a busy answer still records |
| Limiter.WholeMapPruningIsInvisible | src/api.rs:85-90 | Pruning the whole map never changes what a later prune of any source leaves |
| Limiter.LimiterTracksLog | src/api.rs:96-103 | With ordered readings of any age each deque is the tail of its source's full log, what it dropped is out of reach of the window, and ten records on from one made at 60 or later at least 60 seconds have passed |
| Limiter.AtMostTenPerWindow | src/api.rs:96-103 | With ordered readings a half-open 60-second window holds at most 10 recorded attempts per source: every window if all readings are at least 60, and whatever the readings every window that starts at 60 or later |
| Limiter.DequeIsATail | src/api.rs:84-103 | With every reading at least 60, in any order: a deque is the tail of its source's full log and has dropped only what is outside the window at the latest reading so far |
| Limiter.AtMostTenBeforeLatestReading | src/api.rs:84-103 | With every reading at least 60, in any order: at every moment at most 10 recorded attempts of a source are less than 60 seconds older than the latest reading so far |
| Limiter.MapStaysSmall | src/api.rs:84-103 | After any calls at all the map has at most 4096 sources and only deques of 1 to 10 attempts |
| Limiter.LimiterRefinesLog | src/api.rs:84-103 | With ordered readings a call is refused iff the full log has 10 attempts of the source in the window, or none and 4096 other sources live |
| Limiter.DequeIsTheWindow | src/api.rs:96-103 | With readings in order and at least 60: after a call with room, the caller's deque equals the in-window part of its full log |
| Limiter.WindowIsBoundedIff | src/api.rs:81-103 | For readings in order and of any age: every run keeps a window from x at 10 recorded attempts per source iff x is at least 60 or the window ends before the clock starts |
| Limiter.BurstIsLimitedIffClockIsOldEnough | src/api.rs:81-81 | Of n calls at one reading min(n, 10) are recorded if the reading is at least 60, and all n if it is less |
| Limiter.StaleReadingBreaksTheBound | src/api.rs:80-82 | For every start time from 60 on, twelve calls with one reading a single second behind put 11 attempts into one window |
| Limiter.BoundHoldsIffNoLag | src/api.rs:80-103 | The window bound holds of every run whose readings are at least 60 and lag at most d seconds behind earlier ones iff d is zero |
| Limiter.DequeIsFronted | src/api.rs:84-103 | For readings in any order and of any age: a deque starts at the first logged attempt that no later prune had a cutoff at or after |
| Limiter.RecordedIffFewRemain | src/api.rs:84-103 | For readings in any order and of any age: a call is recorded iff fewer than 10 logged attempts of its source remain and there is room, where an attempt remains iff some attempt logged no later than it has seen no prune with a cutoff at or after its time |
| SessionToken.DecodeEncode | src/auth.rs:420-423 | Decoding an encoded byte string gives it back, for every byte string |
| SessionToken.TokenIsInjective | src/auth.rs:420-423 | Different random bytes give different tokens |
| SessionToken.TokenSurvivesHeader | src/auth.rs:980-997 | A minted token comes back unchanged from the bearer header under any spelling of the scheme |
| SessionToken.TokenIsASessionToken | src/auth.rs:869-874 | A minted token is never taken for a JWT, whatever its first part decodes to, and the client may cache it |
| SessionToken.LetterTable | src/auth.rs:420-423 | The encoder's letters are the URL-safe alphabet of section 5 of RFC 4648 in order |
| SessionToken.BearerTokenMeans | src/auth.rs:980-997 | A header carries a token iff it is the scheme in any case, one space and a non-empty token without space or tab, in visible ASCII of at most 16,384 bytes |
| SessionToken.BearerErrorMeans | src/auth.rs:980-997 | A visible header past 16,384 bytes is too large, and any other without a token is missing one |
| SessionToken.IsActionsJwtMeans | src/auth.rs:869-874 | A token is taken for a JWT iff it has exactly three parts between dots and a good header |
| SessionToken.SessionCache.Load | src/session_cache.rs:36-78 | Returns the cached token iff the file is private, readable, of this version, valid and 30 seconds from expiry; deletes anything else |
| SessionToken.SessionCache.Store | src/session_cache.rs:80-111 | Stores a valid token with its saturating expiry, refuses an invalid one or a zero lifetime and leaves the file alone |
| SessionToken.CachedTokenIsAccepted | src/session_cache.rs:67-97 | A token stored within 30 seconds of minting is unexpired at the server whenever the cache returns it |
| SessionToken.StoringDelayIsExact | src/session_cache.rs:67-97 | For a session longer than the margin, that is so for every load iff it was stored within 30 seconds |
| SessionToken.UsableMeans | src/session_cache.rs:67-75 | The cache returns a token iff its file is private, of version 1, with the prefix, at most 16,384 bytes and no whitespace, and more than 30 seconds from expiry |
| SessionToken.StoredIsUsableIff | src/session_cache.rs:67-97 | What was stored comes back iff the token is good and more than 30 seconds are left, up to the end of the 64-bit clock |
| KeyEncryption.ProductsFit | src/key.rs:517-531 | None of the three products overflows 128 bits for 64-bit N and 16-bit r and p |
| KeyEncryption.AcceptedBounds | src/key.rs:460-531 | Accepted parameters satisfy 8 <= r <= 1024, N <= 2^20 and 2^17 <= N p <= 2^24 |
| KeyEncryption.BoundsAreTight | src/key.rs:457-466 | Each of those bounds is reached, and N=16384, r=8, p=8 is accepted |
| KeyEncryption.AcceptsMeans | src/key.rs:517-531 | Parameters are accepted iff r is at least 8, N p at least 2^17, 128 N r at most 2^30 and N r p at most 2^27 |

## Left out

- Cryptography, PKCS#8 and PEM decoding, JWT signature checking, SHA-256 and the random generator: foreign libraries, uninterpreted here as described above.
- HTTP calls to GitHub, routing, JSON and TOML parsing, error bodies and audit records: an external call is an arbitrary answer, a request arrives parsed or malformed, and nothing depends on audit records.
- Principal fields that only feed audit records (subject, issuer, actor, run id and the like).
- File ownership and mode checks, symbolic links, systemd credentials, the admin socket and group lookup: operating-system calls; the cache file carries one flag for "private".
- `src/client.rs`, the command line and the admin handlers' timeouts and concurrency permits: sequencing over libraries; dropping the permits only allows more interleavings of unlock calls.
- Config.Validate: does not check URLs, API version, audience, client id, credential names, listen address and socket mode, which are single-branch facts nothing else here depends on; nor which message a refusal carries.
- The PBKDF2 iteration range of a key file, and removing the client's cache file: single-branch facts.
- Lock poisoning other than of key locks: the replay and jti mutexes are never poisoned in the model, so their `ReplayCacheUnavailable` answers are the capacity ones only.
- Panics, process restarts and clock additions out of range.
- Limiter.AtMostTenPerWindow: needs readings in lock order, exactly as `BoundHoldsIffNoLag` says, and for windows that start before 60 readings of at least 60, as `BurstIsLimitedIffClockIsOldEnough` shows.
- Limiter.LimiterRefinesLog: needs readings of at least 60 in lock order; `RecordedIffFewRemain` does without both.
- Signing.SignedAgainByIff: speaks of the lock time of the second call; a request verified in time and held up before `record_jti` may take the lock later than any moment at which its token would still verify.
- DeviceExchange.StepKeepsInv: whether the limiter lets a request through is left open, so everything about exchanges holds whatever it decides; only the permits are counted.
- JtiReplay.CacheRefinesLog: needs readings in lock order, as `StaleReadingForgets` shows; `ReplayedIffRemembered` does without.
- Sessions.AcceptedIffGrantedAndUnexpired: needs readings in lock order, as `StaleReadingMisses` shows, and fresh session tokens; `AcceptedIffUnpurged` does without the order.
- KeySlots.Slots.UnlockKeyring: describes the call without interference; what holds under interleaving is stated in `KeyringTheorems`.
- KeyringTheorems.NoDeadlock: says that some call can always step, and `CallsAreBounded` that each call takes finitely many steps; that the lock serves every particular waiter is up to its fairness and is not modelled.
