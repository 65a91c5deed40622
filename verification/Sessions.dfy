/** The store of signer-local sessions, keyed by the hash of the bearer token. */
module Sessions {
  import opened Prelude
  import opened Expiring

  const MAX_OAUTH_SESSIONS := 4096

  /** SHA-256 of a token, as an injective function of the token. */
  datatype Digest = Sha256(preimage: string)

  datatype Account = Account(identityId: string, userId: string, login: string)

  type Store = map<Digest, Entry<Account>>

  datatype Minted = Minted(sessions: Store, granted: bool)

  /** The body of `mint_github_account_session` under the write lock; `granted` is false at capacity. */
  function Mint(sessions: Store, key: Digest, account: Account, now: int, ttl: int): Minted {
    var kept := Retain(sessions, now);
    if |kept| >= MAX_OAUTH_SESSIONS then Minted(kept, false)
    else Minted(kept[key := Entry(now + ttl, account)], true)
  }

  /** The lookup of `authenticate_github_account_session`. */
  function Lookup(sessions: Store, key: Digest, now: int): Option<Account> {
    if key in sessions && sessions[key].until > now then Some(sessions[key].value) else None
  }

  class SessionStore {
    var sessions: Store

    constructor ()
      ensures sessions == map[]
    {
      sessions := map[];
    }

    method MintSession(key: Digest, account: Account, now: int, ttl: int) returns (granted: bool)
      modifies this
      ensures Minted(sessions, granted) == Mint(old(sessions), key, account, now, ttl)
    {
      sessions := Retain(sessions, now);
      if |sessions| >= MAX_OAUTH_SESSIONS {
        return false;
      }
      sessions := sessions[key := Entry(now + ttl, account)];
      return true;
    }
  }

  // ---- Runs ----

  datatype MintCall = MintCall(key: Digest, account: Account, now: int)

  ghost predicate NondecreasingReadings(calls: seq<MintCall>) {
    forall i, j :: 0 <= i < j < |calls| ==> calls[i].now <= calls[j].now
  }

  /** Session tokens carry 32 random bytes; distinct mints use distinct tokens. */
  ghost predicate FreshTokens(calls: seq<MintCall>) {
    forall i, j :: 0 <= i < j < |calls| ==> calls[i].key != calls[j].key
  }

  function After(calls: seq<MintCall>, ttl: int): Store {
    if calls == [] then map[]
    else
      var c := calls[|calls| - 1];
      Mint(After(calls[..|calls| - 1], ttl), c.key, c.account, c.now, ttl).sessions
  }

  function Granted(calls: seq<MintCall>, ttl: int, i: nat): bool
    requires i < |calls|
  {
    Mint(After(calls[..i], ttl), calls[i].key, calls[i].account, calls[i].now, ttl).granted
  }

  /** Every session ever granted, in order. */
  function Log(calls: seq<MintCall>, ttl: int): seq<Grant<Digest, Account>> {
    if calls == [] then []
    else
      var n, c := |calls| - 1, calls[|calls| - 1];
      if Granted(calls, ttl, n)
      then Log(calls[..n], ttl) + [Grant(c.key, Entry(c.now + ttl, c.account))]
      else Log(calls[..n], ttl)
  }

  lemma MintAgrees(sessions: Store, log: seq<Grant<Digest, Account>>, c: MintCall, ttl: int)
    requires Agrees(sessions, log, c.now)
    ensures var minted := Mint(sessions, c.key, c.account, c.now, ttl);
            Agrees(minted.sessions, if minted.granted then log + [Grant(c.key, Entry(c.now + ttl, c.account))]
                   else log, c.now)
  {
  }

  lemma AgreesLater(sessions: Store, log: seq<Grant<Digest, Account>>, last: int, now: int)
    requires Agrees(sessions, log, last) && last <= now
    ensures Agrees(sessions, log, now)
  {
  }

  lemma {:induction false} StoreAgreesWithLog(calls: seq<MintCall>, ttl: int, last: int)
    requires NondecreasingReadings(calls) && (calls != [] ==> calls[|calls| - 1].now <= last)
    ensures Agrees(After(calls, ttl), Log(calls, ttl), last)
  {
    if calls != [] {
      var before, c := calls[..|calls| - 1], calls[|calls| - 1];
      StoreAgreesWithLog(before, ttl, c.now);
      MintAgrees(After(before, ttl), Log(before, ttl), c, ttl);
      AgreesLater(After(calls, ttl), Log(calls, ttl), c.now, last);
    }
  }

  lemma GrantedPrefix(calls: seq<MintCall>, ttl: int, n: nat, i: nat)
    requires i < n <= |calls|
    ensures Granted(calls[..n], ttl, i) == Granted(calls, ttl, i)
  {
    assert calls[..n][..i] == calls[..i];
  }

  // ---- When exactly a session is there, for readings in any order ----

  /** Call `i` was granted, and no later mint carried a reading from after its expiry. */
  ghost predicate Unpurged(calls: seq<MintCall>, ttl: int, i: nat)
    requires i < |calls|
  {
    Granted(calls, ttl, i) && forall j :: i < j < |calls| ==> calls[j].now < calls[i].now + ttl
  }

  function Held(sessions: Store, key: Digest): Option<Entry<Account>> {
    if key in sessions then Some(sessions[key]) else None
  }

  lemma UnpurgedStep(calls: seq<MintCall>, ttl: int, i: nat)
    requires i + 1 < |calls|
    ensures Unpurged(calls, ttl, i) <==>
            Unpurged(calls[..|calls| - 1], ttl, i) && calls[|calls| - 1].now < calls[i].now + ttl
  {
    var n := |calls| - 1;
    GrantedPrefix(calls, ttl, n, i);
    assert forall j :: i < j < n ==> calls[..n][j] == calls[j];
  }

  lemma {:induction false} OnlyMintedIsHeld(calls: seq<MintCall>, ttl: int, key: Digest)
    requires forall i :: 0 <= i < |calls| ==> calls[i].key != key
    ensures Held(After(calls, ttl), key) == None
  {
    if calls != [] {
      OnlyMintedIsHeld(calls[..|calls| - 1], ttl, key);
    }
  }

  lemma {:induction false} HeldIffUnpurged(calls: seq<MintCall>, ttl: int, i: nat)
    requires FreshTokens(calls) && i < |calls|
    ensures Held(After(calls, ttl), calls[i].key)
         == if Unpurged(calls, ttl, i) then Some(Entry(calls[i].now + ttl, calls[i].account)) else None
  {
    var n := |calls| - 1;
    if i < n {
      HeldIffUnpurged(calls[..n], ttl, i);
      UnpurgedStep(calls, ttl, i);
    } else {
      OnlyMintedIsHeld(calls[..n], ttl, calls[n].key);
    }
  }

  /** Some call granted `key` to `account`, it is unexpired, and no mint since read a time at or after its expiry. */
  ghost predicate GrantHolds(calls: seq<MintCall>, ttl: int, key: Digest, account: Account, now: int) {
    exists i :: 0 <= i < |calls| && calls[i].key == key && calls[i].account == account
                && Unpurged(calls, ttl, i) && calls[i].now + ttl > now
  }

  /**
   * Whatever the order of readings, a token is accepted for an account exactly when it was granted to
   * that account, is unexpired at the reading, and no mint since then read a time at or after its expiry.
   */
  lemma AcceptedIffUnpurged(calls: seq<MintCall>, ttl: int, key: Digest, now: int)
    requires FreshTokens(calls)
    ensures forall account :: Lookup(After(calls, ttl), key, now) == Some(account)
              <==> GrantHolds(calls, ttl, key, account, now)
  {
    if i :| 0 <= i < |calls| && calls[i].key == key {
      HeldIffUnpurged(calls, ttl, i);
      forall i' | 0 <= i' < |calls| && calls[i'].key == key ensures i' == i {
      }
    } else {
      OnlyMintedIsHeld(calls, ttl, key);
    }
  }

  /**
   * With readings in order, a token is accepted exactly when it was granted and has not expired, and
   * then for the account it was granted to.
   */
  lemma AcceptedIffGrantedAndUnexpired(calls: seq<MintCall>, ttl: int, key: Digest, now: int)
    requires NondecreasingReadings(calls) && FreshTokens(calls)
    requires calls != [] ==> calls[|calls| - 1].now <= now
    ensures forall account :: Lookup(After(calls, ttl), key, now) == Some(account)
              <==> exists i :: 0 <= i < |calls| && calls[i].key == key && calls[i].account == account
                               && Granted(calls, ttl, i) && calls[i].now + ttl > now
  {
    AcceptedIffUnpurged(calls, ttl, key, now);
    forall i | 0 <= i < |calls| && calls[i].now + ttl > now
      ensures Unpurged(calls, ttl, i) <==> Granted(calls, ttl, i) {
      assert forall j :: i < j < |calls| ==> calls[j].now <= now;
    }
  }

  /** A lookup with a reading from before somebody else's purge misses a session that is unexpired at that reading. */
  lemma StaleReadingMisses(key: Digest, other: Digest, account: Account, ttl: nat)
    requires key != other && ttl > 0
    ensures var calls := [MintCall(key, account, 0), MintCall(other, account, ttl)];
            && FreshTokens(calls) && NondecreasingReadings(calls)
            && Granted(calls, ttl, 0) && calls[0].now + ttl > ttl - 1
            && Lookup(After(calls, ttl), key, ttl - 1) == None
  {
    var a, b := MintCall(key, account, 0), MintCall(other, account, ttl);
    var calls := [a, b];
    assert calls[..1] == [a] && [a][..0] == [] && calls[..0] == [];
    assert After([], ttl) == map[] && Retain(After([], ttl), 0) == map[];
    assert After([a], ttl) == map[key := Entry(ttl, account)];
  }

  // ---- Capacity ----

  /** A mint is refused exactly when 4096 granted sessions are still unexpired at its reading. */
  lemma RefusedIffFull(calls: seq<MintCall>, ttl: int, i: nat)
    requires NondecreasingReadings(calls) && i < |calls|
    ensures !Granted(calls, ttl, i) <==> |LiveKeys(Log(calls[..i], ttl), calls[i].now)| >= MAX_OAUTH_SESSIONS
  {
    var before := After(calls[..i], ttl);
    StoreAgreesWithLog(calls[..i], ttl, calls[i].now);
    PurgeAgrees(before, Log(calls[..i], ttl), calls[i].now, calls[i].now);
    assert |Retain(before, calls[i].now)| == |Retain(before, calls[i].now).Keys|;
  }

  /** The same of a call about to be made. */
  lemma NextRefusedIffFull(calls: seq<MintCall>, c: MintCall, ttl: int)
    requires NondecreasingReadings(calls + [c])
    ensures !Mint(After(calls, ttl), c.key, c.account, c.now, ttl).granted
       <==> |LiveKeys(Log(calls, ttl), c.now)| >= MAX_OAUTH_SESSIONS
  {
    var all := calls + [c];
    assert all[..|calls|] == calls;
    RefusedIffFull(all, ttl, |calls|);
  }
}
