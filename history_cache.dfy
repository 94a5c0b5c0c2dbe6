// `HistoryCache`: a value cache whose entries are reference-counted by a
// ring of the last 2^k keys written. The release step on overwrite as
// written decrements the count of the key being written, not of the key
// whose slot is overwritten (`CountsAfterSet`), so no key ever leaves the
// cache; the class follows that code. The release of the overwritten key
// (`CountsAfterSetReleasing`), under which the counted keys are exactly the
// keys still in the ring, is stated beside it.
module HistoryCacheModule {
  import opened Common
  import S = Service

  /** A stored reference count: a JavaScript number, which `undefined - 1` turns into NaN. */
  datatype RefCount = Count(n: int) | NaN

  function Pow2(n: nat): (r: nat)
    ensures r >= 1
  {
    if n == 0 then 1 else 2 * Pow2(n - 1)
  }

  /**
   * `1 << logHistorySize` on 32-bit integers: the shift count is taken
   * modulo 32 (a negative count too: -1 shifts by 31), and a shift by 31
   * gives the negative number -2^31.
   */
  function HistorySizeOf(logHistorySize: int): (size: int)
    ensures logHistorySize % 32 != 31 <==> size >= 1
    ensures logHistorySize % 32 != 31 ==> size == Pow2(logHistorySize % 32)
  {
    var shift := logHistorySize % 32;
    if shift == 31 then 0 - (Pow2(31) as int) else Pow2(shift)
  }

  /**
   * `time & historyMask` for `historyMask == size - 1` with `size` a power
   * of two no larger than 2^30: the low bits of `time`, that is, `time`
   * modulo the ring size.
   */
  function SlotIndex(time: nat, size: nat): (i: nat)
    requires size >= 1
    ensures i < size
  {
    time % size
  }

  function Lookup<K>(counts: map<K, RefCount>, key: K): Option<RefCount>
  {
    if key in counts then Some(counts[key]) else None
  }

  /** `refCounts.get(key)! - 1`: a missing count reads as `undefined`, and `undefined - 1` is NaN. */
  function Decremented(c: Option<RefCount>): RefCount
  {
    match c
    case Some(Count(n)) => Count(n - 1)
    case _ => NaN
  }

  /** `(refCounts.get(key) ?? 0) + 1`. */
  function Incremented(c: Option<RefCount>): RefCount
  {
    match c
    case None => Count(1)
    case Some(Count(n)) => Count(n + 1)
    case Some(NaN) => NaN
  }

  /**
   * The count table after `set(key, …)` as written, where `slotOccupied`
   * says whether the ring slot being written already held a key.
   */
  function CountsAfterSet<K>(counts: map<K, RefCount>, key: K, slotOccupied: bool): (r: map<K, RefCount>)
    ensures r.Keys == counts.Keys + {key}
    ensures r - {key} == counts - {key}
  {
    var released :=
      if !slotOccupied then counts
      else if Decremented(Lookup(counts, key)) == Count(0) then counts - {key}
      else counts[key := Decremented(Lookup(counts, key))];
    assert released - {key} == counts - {key};
    released[key := Incremented(Lookup(released, key))]
  }

  /** On a free slot the count of `key` goes up by one (a first write gives 1). */
  lemma FreeSlotIncrements<K>(counts: map<K, RefCount>, key: K)
    ensures CountsAfterSet(counts, key, false)[key] == Incremented(Lookup(counts, key))
  {
  }

  /**
   * On an occupied slot, rewriting a key that has a count n >= 1 leaves its
   * count at n: the decrement hits the incoming key itself.
   */
  lemma OccupiedSlotKeepsCount<K>(counts: map<K, RefCount>, key: K, n: int)
    requires key in counts && counts[key] == Count(n) && n >= 1
    ensures CountsAfterSet(counts, key, true)[key] == Count(n)
  {
    if n == 1 {
      assert CountsAfterSet(counts, key, true) == (counts - {key})[key := Count(1)];
    }
  }

  /** On an occupied slot, a key with no count yet gets NaN, since `undefined - 1` is NaN. */
  lemma OccupiedSlotNewKeyIsNaN<K>(counts: map<K, RefCount>, key: K)
    requires key !in counts
    ensures CountsAfterSet(counts, key, true)[key] == NaN
  {
  }

  /**
   * As written, a key whose slot is overwritten is never released: in a
   * one-slot ring holding 0, writing 1 keeps 0 counted (and cached) and
   * gives 1 the count NaN.
   */
  lemma OverwrittenKeyNotReleased()
    ensures CountsAfterSet(map[0 := Count(1)], 1, true) == map[0 := Count(1), 1 := NaN]
  {
  }

  /**
   * The count table after `set(key, …)` when the release applies to `prev`,
   * the key held by the overwritten ring slot: its count goes down by one
   * and at zero it is dropped; then `key`'s count goes up by one.
   */
  function CountsAfterSetReleasing<K>(counts: map<K, RefCount>, key: K, prev: Option<K>): (r: map<K, RefCount>)
    ensures key in r
  {
    var released :=
      if prev.None? then counts
      else if Decremented(Lookup(counts, prev.value)) == Count(0) then counts - {prev.value}
      else counts[prev.value := Decremented(Lookup(counts, prev.value))];
    released[key := Incremented(Lookup(released, key))]
  }

  /** Released this way, the one-slot ring holding 0 forgets 0 when 1 is written. */
  lemma OverwrittenKeyReleased()
    ensures CountsAfterSetReleasing(map[0 := Count(1)], 1, Some(0)) == map[1 := Count(1)]
  {
  }

  /** How often `k` fills a ring slot. */
  ghost function Occurrences<K>(ring: seq<Option<K>>, k: K): nat
  {
    multiset(ring)[Some(k)]
  }

  /** The intended count invariant: the counted keys are those in the ring, each counted by its occurrences. */
  ghost predicate CountsMatch<K(!new)>(counts: map<K, RefCount>, ring: seq<Option<K>>)
  {
    (forall k {:trigger Occurrences(ring, k)} :: k in counts <==> Occurrences(ring, k) > 0) &&
    (forall k {:trigger Occurrences(ring, k)} :: k in counts ==> counts[k] == Count(Occurrences(ring, k)))
  }

  /** Key `k` after writing `key` over slot `i`, when the counts matched the ring before. */
  lemma ReleasingCountOf<K(!new)>(counts: map<K, RefCount>, ring: seq<Option<K>>, i: nat, key: K, k: K)
    requires i < |ring| && CountsMatch(counts, ring)
    ensures k in CountsAfterSetReleasing(counts, key, ring[i]) <==> Occurrences(ring[i := Some(key)], k) > 0
    ensures k in CountsAfterSetReleasing(counts, key, ring[i]) ==>
      CountsAfterSetReleasing(counts, key, ring[i])[k] == Count(Occurrences(ring[i := Some(key)], k))
  {
    var ring' := ring[i := Some(key)];
    assert multiset(ring') == multiset(ring) - multiset{ring[i]} + multiset{Some(key)};
    var before, after, keyCount := Occurrences(ring, k), Occurrences(ring', k), Occurrences(ring, key);
    if ring[i].Some? {
      assert ring[i] in multiset(ring);
      assert Occurrences(ring, ring[i].value) > 0;
    }
  }

  /**
   * The corrected release keeps the intended count invariant: if the counts
   * matched the ring, they match it again after writing `key` over slot `i`.
   */
  lemma ReleasingKeepsOccurrenceCounts<K(!new)>(counts: map<K, RefCount>, ring: seq<Option<K>>, i: nat, key: K)
    requires i < |ring| && CountsMatch(counts, ring)
    ensures CountsMatch(CountsAfterSetReleasing(counts, key, ring[i]), ring[i := Some(key)])
  {
    forall k
      ensures k in CountsAfterSetReleasing(counts, key, ring[i]) <==> Occurrences(ring[i := Some(key)], k) > 0
      ensures k in CountsAfterSetReleasing(counts, key, ring[i]) ==>
        CountsAfterSetReleasing(counts, key, ring[i])[k] == Count(Occurrences(ring[i := Some(key)], k))
    {
      ReleasingCountOf(counts, ring, i, key, k);
    }
  }

  /** The `RangeError` that setting an array's `length` to a negative number throws. */
  const InvalidArrayLength: S.Exception := S.Error("Invalid array length")

  class HistoryCache<K(==,!new), V> {
    var cache: map<K, V>
    var refCounts: map<K, RefCount>
    var time: nat
    const history: array<Option<K>>
    const historyMask: int

    /**
     * What the code as written keeps: the mask is one less than the ring
     * size, the cached keys are the counted keys, and every key in the ring
     * is cached.
     */
    ghost predicate Valid()
      reads this, history
    {
      history.Length == historyMask + 1 && history.Length >= 1 &&
      cache.Keys == refCounts.Keys &&
      forall i {:trigger history[i]} :: 0 <= i < history.Length && history[i].Some? ==> history[i].value in cache
    }

    /** A key that fills a slot of the ring is cached. */
    lemma InRingIsCached(k: K)
      requires Valid()
      ensures Some(k) in history[..] ==> k in cache && k in refCounts
    {
      if Some(k) in history[..] {
        var i :| 0 <= i < history.Length && history[..][i] == Some(k);
        assert history[i] == Some(k);
      }
    }

    /**
     * The ring holds `1 << logHistorySize` empty slots; the mask is one
     * less. This is the path on which the size is positive; `NewHistoryCache`
     * is the constructor call, throw included.
     */
    constructor (logHistorySize: int)
      requires HistorySizeOf(logHistorySize) >= 1
      ensures Valid() && fresh(history)
      ensures history.Length == HistorySizeOf(logHistorySize) && historyMask == history.Length - 1
      ensures cache == map[] && refCounts == map[] && time == 0
      ensures forall i :: 0 <= i < history.Length ==> history[i] == None
    {
      var historySize := HistorySizeOf(logHistorySize);
      history := new Option<K>[historySize](_ => None);
      historyMask := historySize - 1;
      cache := map[];
      refCounts := map[];
      time := 0;
    }

    /** `cache.get(key)`. */
    function Get(key: K): (r: Option<V>)
      reads this
      ensures r.Some? <==> key in cache
      ensures r.Some? ==> r.value == cache[key]
    {
      if key in cache then Some(cache[key]) else None
    }

    /**
     * Writes `key` into ring slot `time & historyMask`. When the slot was
     * occupied, the count of `key` itself goes down by one, and at zero
     * `key` is deleted from the cache and the counts. Then the value is
     * stored, `key` is counted once more and `time` advances by one. The
     * key the slot held keeps its count and its cached value.
     */
    method Set(key: K, value: V)
      requires Valid()
      modifies this, history
      ensures Valid()
      ensures cache == old(cache)[key := value]
      ensures refCounts ==
        CountsAfterSet(old(refCounts), key, old(history[SlotIndex(time, history.Length)]).Some?)
      ensures history[..] == old(history[..])[SlotIndex(old(time), history.Length) := Some(key)]
      ensures time == old(time) + 1
    {
      var index := SlotIndex(time, history.Length);
      var prev := history[index];
      if prev.Some? {
        var newRefCount := Decremented(Lookup(refCounts, key));
        if newRefCount == Count(0) {
          cache := cache - {key};
          refCounts := refCounts - {key};
        } else {
          refCounts := refCounts[key := newRefCount];
        }
      }
      history[index] := Some(key);
      cache := cache[key := value];
      refCounts := refCounts[key := Incremented(Lookup(refCounts, key))];
      time := time + 1;
    }

    /**
     * A cached value is returned without calling `callback`; otherwise the
     * callback's value is stored with `Set` and returned.
     */
    method GetOrSetComputed(key: K, callback: K -> V) returns (r: V, called: bool)
      requires Valid()
      modifies this, history
      ensures Valid()
      ensures called <==> key !in old(cache)
      ensures !called ==> r == old(cache)[key] && unchanged(this) && unchanged(history)
      ensures called ==> r == callback(key) && cache == old(cache)[key := r]
      ensures called ==>
        refCounts == CountsAfterSet(old(refCounts), key, old(history[SlotIndex(time, history.Length)]).Some?)
      ensures called ==> history[..] == old(history[..])[SlotIndex(old(time), history.Length) := Some(key)]
      ensures called ==> time == old(time) + 1
    {
      var existing := Get(key);
      if existing.Some? {
        return existing.value, false;
      }
      r := callback(key);
      Set(key, r);
      called := true;
    }
  }

  /**
   * `new HistoryCache(logHistorySize)`: when `1 << logHistorySize` is
   * negative (a shift count of 31 modulo 32), setting the history's length
   * throws a `RangeError`; otherwise the cache starts empty over a ring of
   * that many empty slots.
   */
  method NewHistoryCache<K(==,!new), V>(logHistorySize: int) returns (r: Completion<HistoryCache<K, V>, S.Exception>)
    ensures r.Threw? <==> logHistorySize % 32 == 31
    ensures r.Threw? ==> r.error == InvalidArrayLength
    ensures r.Returned? ==>
      fresh(r.value) && fresh(r.value.history) && r.value.Valid() &&
      r.value.history.Length == HistorySizeOf(logHistorySize) && r.value.historyMask == r.value.history.Length - 1 &&
      r.value.cache == map[] && r.value.refCounts == map[] && r.value.time == 0 &&
      forall i :: 0 <= i < r.value.history.Length ==> r.value.history[i] == None
  {
    if HistorySizeOf(logHistorySize) < 1 {
      return Threw(InvalidArrayLength);
    }
    var c := new HistoryCache<K, V>(logHistorySize);
    return Returned(c);
  }
}
