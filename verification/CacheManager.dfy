/** The two-level deduplication cache (`CacheManager` in
    app/services/cache_manager.py): an exact store keyed by the image's SHA-256
    digest, optionally qualified by the question, and a perceptual store keyed by
    the image's perceptual hash, with hit and miss counters. Both digests are
    opaque strings here. */
module Caching {
  import opened Common
  import opened Records
  import opened LruStore

  /** `_make_exact_key`: the digest alone, or `digest:question` when a question
      is given. */
  function MakeExactKey(hash: string, question: string): string {
    if question != "" then hash + ":" + question else hash
  }

  /** The same image asked two different questions (or one with and one without
      a question) gets two different exact keys. */
  lemma ExactKeySeparatesQuestions(hash: string, q1: string, q2: string)
    requires q1 != q2
    ensures MakeExactKey(hash, q1) != MakeExactKey(hash, q2)
  {
    var k1, k2 := MakeExactKey(hash, q1), MakeExactKey(hash, q2);
    assert q1 != "" ==> k1[|hash| + 1..] == q1;
    assert q2 != "" ==> k2[|hash| + 1..] == q2;
  }

  /** For digests without ':' (SHA-256 digests are hexadecimal) the exact key
      determines both the digest and the question. */
  lemma ExactKeyInjective(h1: string, q1: string, h2: string, q2: string)
    requires ':' !in h1 && ':' !in h2
    requires MakeExactKey(h1, q1) == MakeExactKey(h2, q2)
    ensures h1 == h2 && q1 == q2
  {
    var k := MakeExactKey(h1, q1);
    assert k[..|h1|] == h1 && k[..|h2|] == h2;
    assert |h1| < |k| ==> k[|h1|] == ':';
    assert |h2| < |k| ==> k[|h2|] == ':';
    assert |h1| == |h2|;
    if q1 != q2 {
      ExactKeySeparatesQuestions(h1, q1, q2);
    }
  }

  /** The share of requests served from a cache, in percent; 0 before any request. */
  function HitRate(hits: nat, total: nat): real
    requires hits <= total
  {
    if total == 0 then 0.0 else (hits as real / total as real) * 100.0
  }

  /** The hit rate is a percentage, and 0 exactly when no hit was recorded. */
  lemma HitRateBounds(hits: nat, total: nat)
    requires hits <= total
    ensures 0.0 <= HitRate(hits, total) <= 100.0
    ensures HitRate(hits, total) == 0.0 <==> hits == 0
    ensures hits == total && total > 0 ==> HitRate(hits, total) == 100.0
  {
    if total > 0 {
      var q := hits as real / total as real;
      var rest := (total - hits) as real / total as real;
      assert q + rest == 1.0;
      assert rest >= 0.0;
    }
  }

  /** What `get_stats` reports, without the rounding of the rate. */
  datatype Stats = Stats(
    exactHits: nat,
    perceptualHits: nat,
    misses: nat,
    totalRequests: nat,
    hitRate: real,
    exactCacheSize: nat,
    perceptualCacheSize: nat)

  /** `CacheManager`: the exact store, the perceptual store and the counters. */
  class CacheManager {
    const exact: LruCache<DiagnosisRecord>
    const perceptual: LruCache<DiagnosisRecord>
    var exactHits: nat
    var perceptualHits: nat
    var misses: nat

    ghost predicate Valid()
      reads this, exact, perceptual
    {
      exact != perceptual && exact.Valid() && perceptual.Valid()
    }

    /** Both stores share the entry bound; each has its own default lifetime. */
    constructor (maxEntries: nat, exactTtl: int, perceptualTtl: int)
      ensures Valid() && fresh(exact) && fresh(perceptual)
      ensures exact.slots == [] && exact.maxSize == maxEntries && exact.defaultTtl == exactTtl
      ensures perceptual.slots == [] && perceptual.maxSize == maxEntries && perceptual.defaultTtl == perceptualTtl
      ensures exactHits == 0 && perceptualHits == 0 && misses == 0
    {
      exact := new LruCache(maxEntries, exactTtl);
      perceptual := new LruCache(maxEntries, perceptualTtl);
      exactHits, perceptualHits, misses := 0, 0, 0;
    }

    /** `get_exact`: look the composed key up in the exact store; a found record
        counts one exact hit. */
    method GetExact(hash: string, question: string, now: int) returns (r: Option<DiagnosisRecord>)
      requires Valid()
      modifies this, exact
      ensures Valid()
      ensures r == GetValue(old(exact.slots), MakeExactKey(hash, question), now)
      ensures exact.slots == GetSlots(old(exact.slots), MakeExactKey(hash, question), now)
      ensures perceptual.slots == old(perceptual.slots)
      ensures exactHits == old(exactHits) + (if r.Some? then 1 else 0)
      ensures perceptualHits == old(perceptualHits) && misses == old(misses)
    {
      var key := MakeExactKey(hash, question);
      r := exact.Get(key, now);
      if r.Some? {
        exactHits := exactHits + 1;
      }
    }

    /** `get_perceptual`: look the perceptual hash up as a key (no similarity
        search); a found record counts one perceptual hit. */
    method GetPerceptual(phash: string, now: int) returns (r: Option<DiagnosisRecord>)
      requires Valid()
      modifies this, perceptual
      ensures Valid()
      ensures r == GetValue(old(perceptual.slots), phash, now)
      ensures perceptual.slots == GetSlots(old(perceptual.slots), phash, now)
      ensures exact.slots == old(exact.slots)
      ensures perceptualHits == old(perceptualHits) + (if r.Some? then 1 else 0)
      ensures exactHits == old(exactHits) && misses == old(misses)
    {
      r := perceptual.Get(phash, now);
      if r.Some? {
        perceptualHits := perceptualHits + 1;
      }
    }

    /** `set`: always write the exact store under the composed key; write the
        perceptual store only for a question-less diagnosis. */
    method Set(hash: string, phash: string, diagnosis: DiagnosisRecord, question: string, now: int)
      requires Valid()
      modifies exact, perceptual
      ensures Valid()
      ensures exact.slots == SetSlots(old(exact.slots), MakeExactKey(hash, question),
                                      CacheEntry(diagnosis, now, exact.defaultTtl, 0), exact.maxSize)
      ensures perceptual.slots == if question == "" then
                                    SetSlots(old(perceptual.slots), phash,
                                             CacheEntry(diagnosis, now, perceptual.defaultTtl, 0), perceptual.maxSize)
                                  else old(perceptual.slots)
    {
      var key := MakeExactKey(hash, question);
      exact.Set(key, diagnosis, None, now);
      if question == "" {
        perceptual.Set(phash, diagnosis, None, now);
      }
    }

    /** `record_miss`. */
    method RecordMiss()
      requires Valid()
      modifies this
      ensures Valid()
      ensures misses == old(misses) + 1
      ensures exactHits == old(exactHits) && perceptualHits == old(perceptualHits)
    {
      misses := misses + 1;
    }

    /** `get_stats`: the counters, their sum, the hit rate and the store sizes. */
    method GetStats() returns (s: Stats)
      requires Valid()
      ensures s.exactHits == exactHits && s.perceptualHits == perceptualHits && s.misses == misses
      ensures s.totalRequests == exactHits + perceptualHits + misses
      ensures s.totalRequests == 0 ==> s.hitRate == 0.0
      ensures 0.0 <= s.hitRate <= 100.0
      ensures s.hitRate == HitRate(exactHits + perceptualHits, s.totalRequests)
      ensures s.exactCacheSize == |exact.slots| <= exact.maxSize
      ensures s.perceptualCacheSize == |perceptual.slots| <= perceptual.maxSize
    {
      var total := exactHits + perceptualHits + misses;
      var rate := HitRate(exactHits + perceptualHits, total);
      HitRateBounds(exactHits + perceptualHits, total);
      var exactSize := exact.Size();
      var perceptualSize := perceptual.Size();
      s := Stats(exactHits, perceptualHits, misses, total, rate, exactSize, perceptualSize);
    }

    /** `cleanup_expired`: sweep both stores, report what each lost. */
    method CleanupExpired(now: int) returns (exactRemoved: nat, perceptualRemoved: nat)
      requires Valid()
      modifies exact, perceptual
      ensures Valid()
      ensures exact.slots == Live(old(exact.slots), now)
      ensures perceptual.slots == Live(old(perceptual.slots), now)
      ensures exactRemoved == |old(exact.slots)| - |exact.slots|
      ensures perceptualRemoved == |old(perceptual.slots)| - |perceptual.slots|
    {
      exactRemoved := exact.CleanupExpired(now);
      perceptualRemoved := perceptual.CleanupExpired(now);
    }

    /** `clear_all`: empty both stores and zero every counter. */
    method ClearAll()
      requires Valid()
      modifies this, exact, perceptual
      ensures Valid()
      ensures exact.slots == [] && perceptual.slots == []
      ensures exactHits == 0 && perceptualHits == 0 && misses == 0
    {
      exact.Clear();
      perceptual.Clear();
      exactHits, perceptualHits, misses := 0, 0, 0;
    }
  }

  /** The end-to-end scenario on empty stores: a question-less diagnosis stored
      under digest `h` and perceptual hash `p` is found by an exact lookup without
      a question and by a perceptual lookup, but not by an exact lookup that
      carries a question. */
  lemma StoreThenLookup(h: string, p: string, r: DiagnosisRecord, now: int, n: nat, exactTtl: int, perceptualTtl: int, q: string)
    requires n > 0 && exactTtl >= 0 && perceptualTtl >= 0 && q != ""
    ensures var ex := SetSlots([], MakeExactKey(h, ""), CacheEntry(r, now, exactTtl, 0), n);
            var pe := SetSlots([], p, CacheEntry(r, now, perceptualTtl, 0), n);
      && GetValue(ex, MakeExactKey(h, ""), now) == Some(r)
      && GetValue(pe, p, now) == Some(r)
      && GetValue(ex, MakeExactKey(h, q), now) == None
  {
    var empty: seq<Slot<DiagnosisRecord>> := [];
    SetThenGet(empty, MakeExactKey(h, ""), CacheEntry(r, now, exactTtl, 0), n, now);
    SetThenGet(empty, p, CacheEntry(r, now, perceptualTtl, 0), n, now);
    ExactKeySeparatesQuestions(h, "", q);
    var ex := SetSlots(empty, MakeExactKey(h, ""), CacheEntry(r, now, exactTtl, 0), n);
    assert ex == [Slot(MakeExactKey(h, ""), CacheEntry(r, now, exactTtl, 0))];
  }
}
