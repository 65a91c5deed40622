/**
 * Maps whose entries expire. The service keeps three of them (sessions, used device tokens, seen
 * jtis) and drops expired entries as it goes; two facts about that are proved here once.
 *
 * Readings of the clock are taken before the lock, so a reading may be older than the lock time.
 */
module Expiring {
  import opened Prelude

  datatype Entry<+V> = Entry(until: int, value: V)

  /** `map.retain(|_, entry| entry.until > now)`. */
  function Retain<K, V>(m: map<K, Entry<V>>, now: int): map<K, Entry<V>> {
    map k | k in m && m[k].until > now :: m[k]
  }

  // ---- Replay protection: an entry blocks its key until its time has come ----

  datatype Promise<+K> = Promise(key: K, until: int)

  /** Every promise made so far is either over by lock time or still backed by an entry. */
  ghost predicate Honoured<K(!new), V(!new)>(m: map<K, Entry<V>>, clock: int, promises: seq<Promise<K>>) {
    forall i :: 0 <= i < |promises| ==>
      clock >= promises[i].until || (promises[i].key in m && m[promises[i].key].until >= promises[i].until)
  }

  /** Purging with a reading no later than the lock time breaks no promise. */
  lemma PurgeHonours<K(!new), V(!new)>(m: map<K, Entry<V>>, clock: int, promises: seq<Promise<K>>, now: int, at: int)
    requires Honoured(m, clock, promises) && now <= at && clock <= at
    ensures Honoured(Retain(m, now), at, promises)
  {
  }

  /** Inserting under an absent key adds its promise and breaks none. */
  lemma InsertHonours<K(!new), V(!new)>(m: map<K, Entry<V>>, clock: int, promises: seq<Promise<K>>, key: K,
                                        entry: Entry<V>)
    requires Honoured(m, clock, promises) && key !in m
    ensures Honoured(m[key := entry], clock, promises + [Promise(key, entry.until)])
  {
  }

  // ---- Refinement: the purged map against the unbounded log of insertions ----

  datatype Grant<+K, +V> = Grant(key: K, entry: Entry<V>)

  /** The entry last inserted under `key`, however long ago. */
  ghost function Latest<K(!new), V(!new)>(log: seq<Grant<K, V>>, key: K): Option<Entry<V>> {
    if log == [] then None
    else if log[|log| - 1].key == key then Some(log[|log| - 1].entry)
    else Latest(log[..|log| - 1], key)
  }

  ghost predicate LiveAt<K(!new), V(!new)>(log: seq<Grant<K, V>>, key: K, now: int) {
    Latest(log, key).Some? && Latest(log, key).value.until > now
  }

  /** The keys whose latest insertion has not expired. */
  ghost function LiveKeys<K(!new), V(!new)>(log: seq<Grant<K, V>>, now: int): set<K> {
    set g <- log | LiveAt(log, g.key, now) :: g.key
  }

  /** The map holds latest insertions only, and every one still unexpired at reading `last`. */
  ghost predicate Agrees<K(!new), V(!new)>(m: map<K, Entry<V>>, log: seq<Grant<K, V>>, last: int) {
    && (forall k :: k in m ==> Latest(log, k) == Some(m[k]))
    && (forall k :: LiveAt(log, k, last) ==> k in m)
  }

  lemma {:induction false} LatestIsLogged<K(!new), V(!new)>(log: seq<Grant<K, V>>, key: K) returns (i: nat)
    requires Latest(log, key).Some?
    ensures i < |log| && log[i] == Grant(key, Latest(log, key).value)
  {
    if log[|log| - 1].key == key {
      i := |log| - 1;
    } else {
      i := LatestIsLogged(log[..|log| - 1], key);
    }
  }

  /** From a reading on that no earlier reading exceeds, lookups in the map and in the log agree. */
  lemma LookupsAgree<K(!new), V(!new)>(m: map<K, Entry<V>>, log: seq<Grant<K, V>>, last: int, now: int, key: K)
    requires Agrees(m, log, last) && last <= now
    ensures key in m && m[key].until > now <==> LiveAt(log, key, now)
    ensures key in m && m[key].until > now ==> Latest(log, key) == Some(m[key])
  {
  }

  /** What is left after purging is exactly the live part of the log: nothing live is ever evicted. */
  lemma PurgeAgrees<K(!new), V(!new)>(m: map<K, Entry<V>>, log: seq<Grant<K, V>>, last: int, now: int)
    requires Agrees(m, log, last) && last <= now
    ensures Agrees(Retain(m, now), log, now)
    ensures Retain(m, now).Keys == LiveKeys(log, now)
  {
    var kept := Retain(m, now);
    forall k ensures k in kept <==> LiveAt(log, k, now) {
      LookupsAgree(m, log, last, now, k);
    }
    forall k ensures k in kept.Keys <==> k in LiveKeys(log, now) {
      if LiveAt(log, k, now) {
        var i := LatestIsLogged(log, k);
        assert log[i] in log && log[i].key == k;
      }
    }
  }

  lemma LatestAppend<K(!new), V(!new)>(log: seq<Grant<K, V>>, grant: Grant<K, V>, key: K)
    ensures Latest(log + [grant], key) == if grant.key == key then Some(grant.entry) else Latest(log, key)
  {
    assert (log + [grant])[..|log|] == log;
  }

  lemma InsertAgrees<K(!new), V(!new)>(m: map<K, Entry<V>>, log: seq<Grant<K, V>>, last: int, key: K, entry: Entry<V>)
    requires Agrees(m, log, last)
    ensures Agrees(m[key := entry], log + [Grant(key, entry)], last)
  {
  }
}
