/** The TTL + LRU store (`LRUCache` and `CacheEntry` in
    app/services/cache_manager.py).

    The store's `OrderedDict` is modelled as a sequence of slots whose keys are
    pairwise distinct: the position in the sequence is the recency order (front =
    least recently used, back = most recently used) and the distinctness is the
    "one entry per key" guarantee of a dictionary. Time is an integer `now`
    handed to every operation; the lock is gone because every public method is
    taken to be one atomic step. */
module LruStore {
  import opened Common

  /** A cached value, the time it was stored, its time-to-live and its hit count. */
  datatype CacheEntry<V> = CacheEntry(data: V, createdAt: int, ttl: int, hitCount: nat) {

    /** Strictly more than `ttl` time units have passed since the entry was stored. */
    predicate IsExpired(now: int) {
      now - createdAt > ttl
    }

    /** The entry after `CacheEntry.get` has counted one more hit. */
    function Hit(): CacheEntry<V> {
      this.(hitCount := hitCount + 1)
    }
  }

  /** One key of the ordered dictionary together with its entry. */
  datatype Slot<V> = Slot(key: string, entry: CacheEntry<V>)

  /** No key occurs twice: the ordered dictionary holds one entry per key. */
  predicate DistinctKeys<V>(s: seq<Slot<V>>) {
    forall i, j :: 0 <= i < j < |s| ==> s[i].key != s[j].key
  }

  /** The entry stored under `k`, if any. */
  function Lookup<V>(s: seq<Slot<V>>, k: string): (r: Option<CacheEntry<V>>)
    ensures r.None? <==> forall i :: 0 <= i < |s| ==> s[i].key != k
    ensures r.Some? ==> Slot(k, r.value) in s
  {
    if s == [] then None
    else if s[0].key == k then Some(s[0].entry)
    else Lookup(s[1..], k)
  }

  /** `del d[k]`: the slots without key `k`, the others in their order. */
  function Remove<V>(s: seq<Slot<V>>, k: string): (r: seq<Slot<V>>)
    ensures forall x :: x in r ==> x in s && x.key != k
    ensures forall i :: 0 <= i < |r| ==> r[i].key != k
    ensures forall x :: x in s && x.key != k ==> x in r
    ensures |r| <= |s|
    ensures (forall i :: 0 <= i < |s| ==> s[i].key != k) ==> r == s
  {
    if s == [] then []
    else if s[0].key == k then Remove(s[1..], k)
    else [s[0]] + Remove(s[1..], k)
  }

  /** The last `n` slots: what is left once the front is popped while the
      dictionary holds more than `n` entries. */
  function Trim<V>(s: seq<Slot<V>>, n: nat): seq<Slot<V>> {
    if |s| > n then s[|s| - n..] else s
  }

  /** The time-to-live `set` gives a new entry: `ttl or default_ttl`, so both an
      absent ttl and a ttl of 0 fall back to the store's default. */
  function EffectiveTtl(ttl: Option<int>, defaultTtl: int): (r: int)
    ensures ttl == None || ttl == Some(0) ==> r == defaultTtl
    ensures ttl.Some? && ttl.value != 0 ==> r == ttl.value
  {
    match ttl
    case None => defaultTtl
    case Some(t) => if t == 0 then defaultTtl else t
  }

  /** The slots after `set(k, e)` on a store bounded by `n`. */
  function SetSlots<V>(s: seq<Slot<V>>, k: string, e: CacheEntry<V>, n: nat): seq<Slot<V>> {
    Trim(Remove(s, k) + [Slot(k, e)], n)
  }

  /** What `get(k)` returns at time `now`. */
  function GetValue<V>(s: seq<Slot<V>>, k: string, now: int): Option<V> {
    match Lookup(s, k)
    case None => None
    case Some(e) => if e.IsExpired(now) then None else Some(e.data)
  }

  /** The slots after `get(k)` at time `now`: unchanged when `k` is absent, the
      entry deleted when it has expired, otherwise the entry moved to the back
      with one more hit. */
  function GetSlots<V>(s: seq<Slot<V>>, k: string, now: int): seq<Slot<V>> {
    match Lookup(s, k)
    case None => s
    case Some(e) => if e.IsExpired(now) then Remove(s, k) else Remove(s, k) + [Slot(k, e.Hit())]
  }

  /** The slots whose entries have not expired at `now`, in their order. */
  function Live<V>(s: seq<Slot<V>>, now: int): seq<Slot<V>> {
    if s == [] then []
    else if s[0].entry.IsExpired(now) then Live(s[1..], now)
    else [s[0]] + Live(s[1..], now)
  }

  /** The keys of the expired entries, in order (the list `cleanup_expired`
      collects before deleting). */
  function ExpiredKeys<V>(s: seq<Slot<V>>, now: int): seq<string> {
    if s == [] then []
    else if s[0].entry.IsExpired(now) then [s[0].key] + ExpiredKeys(s[1..], now)
    else ExpiredKeys(s[1..], now)
  }

  /** The slots whose keys are not among `ks`, in their order. */
  function Without<V>(s: seq<Slot<V>>, ks: seq<string>): seq<Slot<V>> {
    if s == [] then []
    else if s[0].key in ks then Without(s[1..], ks)
    else [s[0]] + Without(s[1..], ks)
  }

  // ---------------------------------------------------------------------------
  // Facts about the operations on slots

  /** Once an entry has expired it stays expired: lazy purging never revives one. */
  lemma ExpiryIsPermanent<V>(e: CacheEntry<V>, t: int, t': int)
    requires e.IsExpired(t) && t <= t'
    ensures e.IsExpired(t')
  {
  }

  lemma {:induction false} RemoveDistinct<V>(s: seq<Slot<V>>, k: string)
    requires DistinctKeys(s)
    ensures DistinctKeys(Remove(s, k))
  {
    if s != [] {
      RemoveDistinct(s[1..], k);
      if s[0].key != k {
        var t := Remove(s[1..], k);
        forall i | 0 <= i < |t| ensures t[i].key != s[0].key {
          assert t[i] in s[1..];
        }
      }
    }
  }

  lemma {:induction false} RemoveCount<V>(s: seq<Slot<V>>, k: string, e: CacheEntry<V>)
    requires DistinctKeys(s) && Lookup(s, k) == Some(e)
    ensures |Remove(s, k)| == |s| - 1
  {
    if s[0].key != k {
      RemoveCount(s[1..], k, e);
    } else {
      assert forall i :: 0 <= i < |s[1..]| ==> s[1..][i].key != k by {
        forall i | 0 <= i < |s[1..]| ensures s[1..][i].key != k {
          assert s[1..][i] == s[i + 1];
        }
      }
    }
  }

  lemma {:induction false} RemoveAppend<V>(t: seq<Slot<V>>, k: string, e: CacheEntry<V>)
    requires forall i :: 0 <= i < |t| ==> t[i].key != k
    ensures Remove(t + [Slot(k, e)], k) == t
  {
    var u := t + [Slot(k, e)];
    if t == [] {
      assert u[1..] == [];
    } else {
      assert u[0] == t[0] && u[0].key != k;
      assert u[1..] == t[1..] + [Slot(k, e)];
      RemoveAppend(t[1..], k, e);
      assert Remove(u, k) == [t[0]] + t[1..];
    }
  }

  /** `del d[k]` keeps the order of the remaining entries: in a store with one
      entry per key, removing the key found at position `p` leaves exactly the
      slots before `p` followed by the slots after it. */
  lemma {:induction false} RemoveAt<V>(s: seq<Slot<V>>, k: string, p: nat)
    requires DistinctKeys(s) && p < |s| && s[p].key == k
    ensures Remove(s, k) == s[..p] + s[p + 1..]
  {
    if p == 0 {
      assert forall i :: 0 <= i < |s[1..]| ==> s[1..][i].key != k by {
        forall i | 0 <= i < |s[1..]| ensures s[1..][i].key != k {
          assert s[1..][i] == s[i + 1];
        }
      }
    } else {
      var t := s[1..];
      assert DistinctKeys(t) by {
        forall i, j | 0 <= i < j < |t| ensures t[i].key != t[j].key {
          assert t[i] == s[i + 1] && t[j] == s[j + 1];
        }
      }
      assert t[p - 1] == s[p];
      RemoveAt(t, k, p - 1);
      assert s[0].key != k;
      assert [s[0]] + (t[..p - 1] + t[p..]) == s[..p] + s[p + 1..];
    }
  }

  lemma AppendAbsentDistinct<V>(t: seq<Slot<V>>, x: Slot<V>)
    requires DistinctKeys(t) && forall i :: 0 <= i < |t| ==> t[i].key != x.key
    ensures DistinctKeys(t + [x])
  {
  }

  lemma SuffixDistinct<V>(s: seq<Slot<V>>, m: nat)
    requires DistinctKeys(s) && m <= |s|
    ensures DistinctKeys(s[m..])
  {
    forall i, j | 0 <= i < j < |s[m..]| ensures s[m..][i].key != s[m..][j].key {
      assert s[m..][i] == s[m + i] && s[m..][j] == s[m + j];
    }
  }

  /** After `set(k, e)` on a valid store bounded by `n`: keys stay distinct, the
      bound holds, and when `n > 0` the new entry is the last slot and the only
      one for `k`; every other slot was already in the store. */
  lemma SetSlotsValid<V>(s: seq<Slot<V>>, k: string, e: CacheEntry<V>, n: nat)
    requires DistinctKeys(s) && |s| <= n
    ensures var r := SetSlots(s, k, e, n);
      && DistinctKeys(r) && |r| <= n
      && (n > 0 ==> |r| > 0 && r[|r| - 1] == Slot(k, e) && Lookup(r, k) == Some(e))
      && (forall i :: 0 <= i < |r| - 1 ==> r[i].key != k)
      && (forall i :: 0 <= i < |r| ==> r[i] in s || r[i] == Slot(k, e))
  {
    var t := Remove(s, k);
    RemoveDistinct(s, k);
    AppendAbsentDistinct(t, Slot(k, e));
    var u := t + [Slot(k, e)];
    var r := SetSlots(s, k, e, n);
    var m := if |u| > n then |u| - n else 0;
    assert r == u[m..];
    SuffixDistinct(u, m);
    forall i | 0 <= i < |r| ensures r[i] == u[m + i] {
    }
    forall i | 0 <= i < |r| ensures r[i] in s || r[i] == Slot(k, e) {
      if m + i < |t| {
        assert u[m + i] == t[m + i] && t[m + i] in t;
      }
    }
    if n > 0 {
      assert r[|r| - 1] == Slot(k, e);
      assert Lookup(r, k) == Some(e) by {
        LookupLast(r, Slot(k, e));
      }
    }
  }

  /** The lookup of the key of the last slot of a distinct-keyed sequence finds
      that slot's entry. */
  lemma {:induction false} LookupLast<V>(r: seq<Slot<V>>, x: Slot<V>)
    requires |r| > 0 && r[|r| - 1] == x
    requires forall i :: 0 <= i < |r| - 1 ==> r[i].key != x.key
    ensures Lookup(r, x.key) == Some(x.entry)
  {
    if |r| > 1 {
      LookupLast(r[1..], x);
    }
  }

  /** LRU eviction: write `t` for the store without `k`, oldest first. After
      `set(k, e)` with bound `n`, the slot `t[i]` survives exactly when fewer than
      `n` slots (the new one included) are more recent than it: eviction takes the
      least recently used entries, whatever time they have left. */
  lemma SetEvictsLeastRecent<V>(s: seq<Slot<V>>, k: string, e: CacheEntry<V>, n: nat, i: nat)
    requires DistinctKeys(s) && |s| <= n
    requires i < |Remove(s, k)|
    ensures Remove(s, k)[i] in SetSlots(s, k, e, n) <==> |Remove(s, k)| - i < n
  {
    var t := Remove(s, k);
    var u := t + [Slot(k, e)];
    RemoveDistinct(s, k);
    AppendAbsentDistinct(t, Slot(k, e));
    assert u[i] == t[i];
    TrimKeepsNewest(u, n, i);
  }

  /** Trimming to `n` keeps a slot of a distinct-keyed sequence exactly when at
      most `n` slots, itself included, sit at or behind its position. */
  lemma TrimKeepsNewest<V>(u: seq<Slot<V>>, n: nat, i: nat)
    requires DistinctKeys(u) && i < |u|
    ensures u[i] in Trim(u, n) <==> |u| - i <= n
  {
    if |u| > n {
      var m := |u| - n;
      if i >= m {
        assert Trim(u, n)[i - m] == u[i];
      } else {
        NotInSuffix(u, i, m);
      }
    }
  }

  /** In a distinct-keyed sequence, a slot in front of position `m` does not
      occur from `m` on. */
  lemma NotInSuffix<V>(u: seq<Slot<V>>, i: nat, m: nat)
    requires DistinctKeys(u) && i < m <= |u|
    ensures u[i] !in u[m..]
  {
    forall j | 0 <= j < |u[m..]| ensures u[m..][j] != u[i] {
      assert u[m..][j] == u[m + j];
    }
  }

  /** `get` on a key that is present: a live entry is returned unchanged, moved
      to the back with exactly one more hit and the others kept in their
      relative order; an expired entry is deleted and nothing is returned. */
  lemma GetSlotsValid<V>(s: seq<Slot<V>>, k: string, now: int, e: CacheEntry<V>)
    requires DistinctKeys(s) && Lookup(s, k) == Some(e)
    ensures var r := GetSlots(s, k, now);
      && DistinctKeys(r)
      && Remove(r, k) == Remove(s, k)
      && (e.IsExpired(now) ==>
            GetValue(s, k, now) == None && |r| == |s| - 1 && Lookup(r, k) == None)
      && (!e.IsExpired(now) ==>
            && GetValue(s, k, now) == Some(e.data) && |r| == |s|
            && r[|r| - 1] == Slot(k, e.Hit())
            && Lookup(r, k) == Some(e.Hit())
            && e.Hit().hitCount == e.hitCount + 1)
  {
    var t := Remove(s, k);
    RemoveDistinct(s, k);
    RemoveCount(s, k, e);
    assert Remove(t, k) == t;
    if !e.IsExpired(now) {
      var x := Slot(k, e.Hit());
      AppendAbsentDistinct(t, x);
      RemoveAppend(t, k, e.Hit());
      LookupLast(t + [x], x);
    }
  }

  /** A value just stored is found by the next `get` of its key while it lives. */
  lemma SetThenGet<V>(s: seq<Slot<V>>, k: string, e: CacheEntry<V>, n: nat, now: int)
    requires DistinctKeys(s) && |s| <= n && n > 0 && !e.IsExpired(now)
    ensures GetValue(SetSlots(s, k, e, n), k, now) == Some(e.data)
  {
    SetSlotsValid(s, k, e, n);
  }

  /** `set(k, e)` does not change what another key yields, except that the key
      may have been evicted. */
  lemma SetLeavesOtherKeys<V>(s: seq<Slot<V>>, k: string, e: CacheEntry<V>, n: nat, k2: string, now: int)
    requires DistinctKeys(s) && |s| <= n && k2 != k
    ensures var v := GetValue(SetSlots(s, k, e, n), k2, now);
      v == GetValue(s, k2, now) || v == None
  {
    var r := SetSlots(s, k, e, n);
    SetSlotsValid(s, k, e, n);
    match Lookup(r, k2)
    case None =>
    case Some(e2) =>
      assert Slot(k2, e2) in s;
      LookupUnique(s, Slot(k2, e2));
  }

  /** In a distinct-keyed sequence the lookup of a slot's key finds that slot. */
  lemma {:induction false} LookupUnique<V>(s: seq<Slot<V>>, x: Slot<V>)
    requires DistinctKeys(s) && x in s
    ensures Lookup(s, x.key) == Some(x.entry)
  {
    if s[0] != x {
      assert x in s[1..];
      assert DistinctKeys(s[1..]);
      LookupUnique(s[1..], x);
      assert s[0].key != x.key;
    }
  }

  /** `cleanup_expired` keeps exactly the live entries and counts exactly the
      expired ones. */
  lemma {:induction false} LiveIsFilter<V>(s: seq<Slot<V>>, now: int)
    ensures forall i :: 0 <= i < |Live(s, now)| ==> Live(s, now)[i] in s && !Live(s, now)[i].entry.IsExpired(now)
    ensures forall i :: 0 <= i < |s| && !s[i].entry.IsExpired(now) ==> s[i] in Live(s, now)
    ensures |Live(s, now)| + |ExpiredKeys(s, now)| == |s|
    ensures DistinctKeys(s) ==> DistinctKeys(Live(s, now))
  {
    if s != [] {
      LiveIsFilter(s[1..], now);
      var l := Live(s[1..], now);
      if DistinctKeys(s) && !s[0].entry.IsExpired(now) {
        assert DistinctKeys(s[1..]);
        forall i | 0 <= i < |l| ensures l[i].key != s[0].key {
          assert l[i] in s[1..];
        }
      }
    }
  }

  lemma {:induction false} RemoveWithout<V>(s: seq<Slot<V>>, ks: seq<string>, k: string)
    ensures Remove(Without(s, ks), k) == Without(s, ks + [k])
  {
    if s != [] {
      RemoveWithout(s[1..], ks, k);
    }
  }

  lemma {:induction false} ExpiredKeysExact<V>(s: seq<Slot<V>>, now: int)
    requires DistinctKeys(s)
    ensures forall i :: 0 <= i < |s| ==> (s[i].key in ExpiredKeys(s, now) <==> s[i].entry.IsExpired(now))
  {
    if s != [] {
      ExpiredKeysExact(s[1..], now);
      assert DistinctKeys(s[1..]);
      forall i | 0 <= i < |s|
        ensures s[i].key in ExpiredKeys(s, now) <==> s[i].entry.IsExpired(now)
      {
        if i > 0 {
          assert s[i] == s[1..][i - 1];
          assert s[i].key != s[0].key;
        } else if !s[0].entry.IsExpired(now) {
          ExpiredKeysOnlyFrom(s[1..], now, s[0].key);
        }
      }
    }
  }

  lemma {:induction false} ExpiredKeysOnlyFrom<V>(s: seq<Slot<V>>, now: int, k: string)
    requires forall i :: 0 <= i < |s| ==> s[i].key != k
    ensures k !in ExpiredKeys(s, now)
  {
    if s != [] {
      assert forall i :: 0 <= i < |s[1..]| ==> s[1..][i] == s[i + 1];
      ExpiredKeysOnlyFrom(s[1..], now, k);
    }
  }

  lemma {:induction false} WithoutNothing<V>(s: seq<Slot<V>>)
    ensures Without(s, []) == s
  {
    if s != [] {
      WithoutNothing(s[1..]);
    }
  }

  lemma {:induction false} WithoutMatchesLive<V>(s: seq<Slot<V>>, ks: seq<string>, now: int)
    requires forall i :: 0 <= i < |s| ==> (s[i].key in ks <==> s[i].entry.IsExpired(now))
    ensures Without(s, ks) == Live(s, now)
  {
    if s != [] {
      assert forall i :: 0 <= i < |s[1..]| ==> s[1..][i] == s[i + 1];
      WithoutMatchesLive(s[1..], ks, now);
    }
  }

  // ---------------------------------------------------------------------------
  // The store itself

  /** `LRUCache`: an ordered dictionary bounded by `maxSize` whose entries carry
      their own time-to-live (`defaultTtl` unless `set` is given another). */
  class LruCache<V> {
    const maxSize: nat
    const defaultTtl: int
    var slots: seq<Slot<V>>

    /** One entry per key and never more than `maxSize` of them. */
    ghost predicate Valid()
      reads this
    {
      DistinctKeys(slots) && |slots| <= maxSize
    }

    constructor (maxSize: nat, defaultTtl: int)
      ensures Valid() && slots == []
      ensures this.maxSize == maxSize && this.defaultTtl == defaultTtl
    {
      this.maxSize := maxSize;
      this.defaultTtl := defaultTtl;
      slots := [];
    }

    /** `get(key)`: see `GetSlotsValid` for what the new state means. */
    method Get(key: string, now: int) returns (r: Option<V>)
      requires Valid()
      modifies this
      ensures Valid()
      ensures r == GetValue(old(slots), key, now)
      ensures slots == GetSlots(old(slots), key, now)
    {
      var found := Lookup(slots, key);
      match found
      case None =>
        r := None;
      case Some(e) =>
        GetSlotsValid(slots, key, now, e);
        if e.IsExpired(now) {
          slots := Remove(slots, key);
          r := None;
        } else {
          slots := Remove(slots, key) + [Slot(key, e.Hit())];
          r := Some(e.data);
        }
    }

    /** `set(key, value, ttl)`: delete any entry for `key`, append a fresh entry
        with no hits, then pop from the front while over the bound. */
    method Set(key: string, value: V, ttl: Option<int>, now: int)
      requires Valid()
      modifies this
      ensures Valid()
      ensures slots == SetSlots(old(slots), key, CacheEntry(value, now, EffectiveTtl(ttl, defaultTtl), 0), maxSize)
    {
      ghost var before := slots;
      var entry := CacheEntry(value, now, EffectiveTtl(ttl, defaultTtl), 0);
      if Lookup(slots, key).Some? {
        slots := Remove(slots, key);
      }
      slots := slots + [Slot(key, entry)];
      ghost var full := slots;
      ghost var popped := 0;
      while |slots| > maxSize
        invariant 0 <= popped <= |full| && slots == full[popped..]
        invariant popped > 0 ==> |slots| >= maxSize
        decreases |slots|
      {
        slots := slots[1..];
        popped := popped + 1;
      }
      assert slots == SetSlots(before, key, entry, maxSize);
      SetSlotsValid(before, key, entry, maxSize);
    }

    /** `clear()`. */
    method Clear()
      requires Valid()
      modifies this
      ensures Valid() && slots == []
    {
      slots := [];
    }

    /** `size()`: the number of entries, which never exceeds the bound. */
    method Size() returns (n: nat)
      requires Valid()
      ensures n == |slots| && n <= maxSize
    {
      n := |slots|;
    }

    /** `cleanup_expired()`: collect the expired keys, delete them one by one and
        return how many were deleted. */
    method CleanupExpired(now: int) returns (removed: nat)
      requires Valid()
      modifies this
      ensures Valid()
      ensures slots == Live(old(slots), now)
      ensures removed == |old(slots)| - |slots|
    {
      ghost var before := slots;
      var expiredKeys := ExpiredKeys(slots, now);
      removed := 0;
      WithoutNothing(before);
      for i := 0 to |expiredKeys|
        invariant slots == Without(before, expiredKeys[..i])
        invariant removed == i
      {
        RemoveWithout(before, expiredKeys[..i], expiredKeys[i]);
        assert expiredKeys[..i + 1] == expiredKeys[..i] + [expiredKeys[i]];
        slots := Remove(slots, expiredKeys[i]);
        removed := removed + 1;
      }
      assert expiredKeys[..|expiredKeys|] == expiredKeys;
      ExpiredKeysExact(before, now);
      WithoutMatchesLive(before, expiredKeys, now);
      LiveIsFilter(before, now);
      assert |Live(before, now)| <= |before|;
    }
  }
}
