/**
 * The two bounded stores of the volume engine (engine/src/volume/boundedStructures.ts): a first-in-first-out identity
 * set and the per-mint, per-second volume buckets.
 */
module BoundedStructures {
  import opened Prelude
  import opened OrderedMaps

  type Key = string
  type Mint = string

  // ---- identities ------------------------------------------------------------------------------------------------

  /** The entries from the first one, in arrival order, that is not older than `minSec`. */
  function PruneHead(entries: OrderedMap<Key, int>, minSec: int): OrderedMap<Key, int>
    decreases |entries|
  {
    if entries == [] || entries[0].1 >= minSec then entries else PruneHead(entries[1..], minSec)
  }

  /** Pruning removes entries at the head only, and only entries older than `minSec`. */
  lemma {:induction false} PruneHeadDropsOld(entries: OrderedMap<Key, int>, minSec: int) returns (n: nat)
    ensures n <= |entries| && PruneHead(entries, minSec) == entries[n..]
    ensures forall i | 0 <= i < n :: entries[i].1 < minSec
    decreases |entries|
  {
    if entries == [] || entries[0].1 >= minSec {
      n := 0;
    } else {
      var m := PruneHeadDropsOld(entries[1..], minSec);
      n := m + 1;
      assert forall i | 1 <= i < n :: entries[i] == entries[1..][i - 1];
    }
  }

  class BoundedIdentitySet {
    const maxEntries: nat
    var present: OrderedMap<Key, int>
    var evictedByCap: nat

    ghost predicate Valid()
      reads this
    {
      maxEntries >= 1 && Unique(present) && |present| <= maxEntries
    }

    constructor (maxEntries: nat)
      requires maxEntries >= 1
      ensures Valid() && present == [] && evictedByCap == 0 && this.maxEntries == maxEntries
    {
      this.maxEntries := maxEntries;
      present := [];
      evictedByCap := 0;
    }

    /** A new key goes to the end, pushing the oldest arrivals out past the cap; a present key changes nothing. */
    method Add(key: Key, eventSec: int) returns (added: bool)
      requires Valid()
      modifies this
      ensures Valid()
      ensures added == !Has(old(present), key)
      ensures !added ==> present == old(present) && evictedByCap == old(evictedByCap)
      ensures added ==> evictedByCap == old(evictedByCap) + (if |old(present)| < maxEntries then 0 else 1)
      ensures added ==> present == (old(present) + [(key, eventSec)])[evictedByCap - old(evictedByCap)..]
    {
      if Has(present, key) {
        return false;
      }
      NotBefore(present, key);
      ghost var all := present + [(key, eventSec)];
      present := present + [(key, eventSec)];
      while |present| > maxEntries
        invariant |present| <= |all| && evictedByCap - old(evictedByCap) == |all| - |present|
        invariant |present| >= maxEntries || |all| == |present|
        invariant present == all[|all| - |present|..]
      {
        present := present[1..];
        evictedByCap := evictedByCap + 1;
      }
      return true;
    }

    method PruneOlderThan(minSec: int)
      requires Valid()
      modifies this`present
      ensures Valid() && present == PruneHead(old(present), minSec)
    {
      while present != [] && present[0].1 < minSec
        invariant Unique(present) && |present| <= maxEntries
        invariant PruneHead(present, minSec) == PruneHead(old(present), minSec)
        decreases |present|
      {
        present := present[1..];
      }
    }

    method Clear()
      requires Valid()
      modifies this`present
      ensures Valid() && present == []
    {
      present := [];
    }
  }

  // ---- per-second buckets ----------------------------------------------------------------------------------------

  datatype Bucket = Bucket(buyLamports: int, sellLamports: int, count: int, buyCount: int) {
    function Plus(b: Bucket): Bucket {
      Bucket(buyLamports + b.buyLamports, sellLamports + b.sellLamports, count + b.count, buyCount + b.buyCount)
    }
  }

  const EMPTY_BUCKET := Bucket(0, 0, 0, 0)

  /** The bucket of a single trade. */
  function OneTrade(lamports: int, isBuy: bool): Bucket {
    if isBuy then Bucket(lamports, 0, 1, 1) else Bucket(0, lamports, 1, 0)
  }

  /** A bucket's place. */
  datatype Slot = Slot(mint: Mint, sec: int)

  /** All buckets. */
  type Buckets = map<Slot, Bucket>

  function At(f: Buckets, mint: Mint, sec: int): Bucket {
    if Slot(mint, sec) in f then f[Slot(mint, sec)] else EMPTY_BUCKET
  }

  function AddTrade(f: Buckets, mint: Mint, sec: int, lamports: int, isBuy: bool): Buckets {
    f[Slot(mint, sec) := At(f, mint, sec).Plus(OneTrade(lamports, isBuy))]
  }

  function WindowSum(f: Buckets, mint: Mint, fromSec: int, toSec: int): Bucket
    decreases toSec - fromSec
  {
    if toSec < fromSec then EMPTY_BUCKET else WindowSum(f, mint, fromSec, toSec - 1).Plus(At(f, mint, toSec))
  }

  /** How many buckets there are. */
  ghost function Size(f: Buckets): nat {
    |set k | k in f|
  }

  lemma SizeIsCardinality(f: Buckets)
    ensures Size(f) == |f|
  {
    assert (set k | k in f) == f.Keys;
  }

  function WithoutOlder(f: Buckets, minSec: int): Buckets {
    map k | k in f && k.sec >= minSec :: f[k]
  }

  function WithoutSecond(f: Buckets, sec: int): Buckets {
    map k | k in f && k.sec != sec :: f[k]
  }

  ghost predicate UsesSecond(f: Buckets, sec: int) {
    exists k :: k in f && k.sec == sec
  }

  ghost predicate IsOldestSecond(f: Buckets, sec: int) {
    UsesSecond(f, sec) && forall k | k in f :: sec <= k.sec
  }

  lemma {:induction false} OldestSecondExists(f: Buckets)
    requires f != map[]
    ensures exists sec :: IsOldestSecond(f, sec)
    decreases |f|
  {
    var k :| k in f;
    var rest := f - {k};
    if rest == map[] {
      assert forall j | j in f :: j == k || j in rest;
      assert IsOldestSecond(f, k.sec);
    } else {
      assert |rest| < |f| by { assert rest.Keys == f.Keys - {k}; }
      OldestSecondExists(rest);
      var sec :| IsOldestSecond(rest, sec);
      var least := if k.sec < sec then k.sec else sec;
      assert forall j | j in f :: j == k || j in rest;
      assert IsOldestSecond(f, least);
    }
  }

  ghost function OldestSecond(f: Buckets): (sec: int)
    requires f != map[]
    ensures IsOldestSecond(f, sec)
  {
    OldestSecondExists(f);
    var sec :| IsOldestSecond(f, sec);
    sec
  }

  lemma WithoutSecondIsSmaller(f: Buckets, sec: int)
    requires UsesSecond(f, sec)
    ensures Size(WithoutSecond(f, sec)) < Size(f)
  {
    var k :| k in f && k.sec == sec;
    var g := WithoutSecond(f, sec);
    assert g.Keys <= f.Keys - {k};
    SubsetSize(g.Keys, f.Keys - {k});
    SizeIsCardinality(f);
    SizeIsCardinality(g);
  }

  /** Whole seconds go, oldest first, until at most `maxBuckets` buckets remain. */
  ghost function Capped(f: Buckets, maxBuckets: nat): Buckets
    decreases Size(f)
  {
    if Size(f) <= maxBuckets then f
    else
      SizeIsCardinality(f);
      WithoutSecondIsSmaller(f, OldestSecond(f));
      Capped(WithoutSecond(f, OldestSecond(f)), maxBuckets)
  }

  /**
   * The cap is met by dropping only the oldest seconds, each with all its mints: a bucket survives exactly when its
   * second is later than every dropped one, unchanged.
   */
  lemma {:induction false} CappedDropsOldest(f: Buckets, maxBuckets: nat)
    ensures Size(Capped(f, maxBuckets)) <= maxBuckets
    ensures forall k | k in Capped(f, maxBuckets) :: k in f && Capped(f, maxBuckets)[k] == f[k]
    ensures forall k, d | k in Capped(f, maxBuckets) && d in f && d !in Capped(f, maxBuckets) :: d.sec < k.sec
    decreases Size(f)
  {
    if Size(f) > maxBuckets {
      SizeIsCardinality(f);
      var sec := OldestSecond(f);
      WithoutSecondIsSmaller(f, sec);
      CappedDropsOldest(WithoutSecond(f, sec), maxBuckets);
    }
  }

  lemma WithoutOlderIsNoLarger(f: Buckets, minSec: int)
    ensures Size(WithoutOlder(f, minSec)) <= Size(f)
  {
    SubsetSize((set k | k in WithoutOlder(f, minSec)), (set k | k in f));
  }

  class SecondBucketStore {
    var byMint: map<Mint, map<int, Bucket>>
    var bucketCount: int

    /** The nested maps as one map. */
    ghost var contents: Buckets

    ghost predicate Valid()
      reads this
    {
      Stores(byMint, bucketCount, contents)
    }

    constructor ()
      ensures Valid() && contents == map[]
    {
      byMint, bucketCount, contents := map[], 0, map[];
      new;
      NothingStored(byMint, contents);
    }

    method Add(mint: Mint, sec: int, lamports: int, isBuy: bool)
      requires Valid()
      modifies this
      ensures Valid() && contents == AddTrade(old(contents), mint, sec, lamports, isBuy)
    {
      var buckets := if mint in byMint then byMint[mint] else map[];
      var isNew := sec !in buckets;
      var b := if isNew then EMPTY_BUCKET else buckets[sec];
      ghost var found := b;
      if isBuy {
        b := b.(buyLamports := b.buyLamports + lamports, buyCount := b.buyCount + 1);
      } else {
        b := b.(sellLamports := b.sellLamports + lamports);
      }
      b := b.(count := b.count + 1);
      assert b == found.Plus(OneTrade(lamports, isBuy));
      StoredAfterAdd(byMint, bucketCount, contents, buckets, mint, sec, found, lamports, isBuy);
      byMint := byMint[mint := buckets[sec := b]];
      bucketCount := if isNew then bucketCount + 1 else bucketCount;
      contents := AddTrade(contents, mint, sec, lamports, isBuy);
    }

    /** Totals over whole seconds of [fromSec, toSec]. */
    method Sum(mint: Mint, fromSec: int, toSec: int) returns (total: Bucket)
      requires Valid()
      ensures total == WindowSum(contents, mint, fromSec, toSec)
    {
      total := EMPTY_BUCKET;
      if mint !in byMint {
        NoBucketsNoSum(byMint, bucketCount, contents, mint, fromSec, toSec);
        return;
      }
      ghost var f := contents;
      var s := fromSec;
      while s <= toSec
        invariant fromSec <= s && (s <= toSec + 1 || s == fromSec)
        invariant total == WindowSum(f, mint, fromSec, s - 1)
      {
        StoredAt(byMint, bucketCount, f, mint, s);
        if s in byMint[mint] {
          total := total.Plus(byMint[mint][s]);
        }
        s := s + 1;
      }
    }

    method PruneOlderThan(minSec: int) returns (removed: nat)
      requires Valid()
      modifies this
      ensures Valid() && contents == WithoutOlder(old(contents), minSec)
      ensures removed == Size(old(contents)) - Size(contents)
    {
      var nested;
      nested, removed := PruneAll(byMint, bucketCount, contents, minSec);
      byMint := nested;
      bucketCount := bucketCount - removed;
      contents := WithoutOlder(contents, minSec);
    }

    /** Drops the oldest seconds until at most `maxBuckets` buckets remain. */
    method EnforceCap(maxBuckets: nat) returns (dropped: nat)
      requires Valid()
      modifies this
      ensures Valid() && contents == Capped(old(contents), maxBuckets)
      ensures dropped == Size(old(contents)) - Size(contents)
    {
      var nested;
      nested, dropped := DropOldest(byMint, bucketCount, contents, maxBuckets);
      byMint := nested;
      bucketCount := bucketCount - dropped;
      contents := Capped(contents, maxBuckets);
    }

    method Clear()
      modifies this
      ensures Valid() && contents == map[]
    {
      byMint, bucketCount, contents := map[], 0, map[];
      NothingStored(byMint, contents);
    }
  }

  /** The nested maps hold exactly these buckets, counted, and no mint without one. */
  ghost predicate Stores(byMint: map<Mint, map<int, Bucket>>, bucketCount: int, contents: Buckets) {
    contents == Flat(byMint) && bucketCount == Size(contents) && NoEmptyMint(byMint)
  }

  ghost predicate NoEmptyMint(byMint: map<Mint, map<int, Bucket>>) {
    forall m | m in byMint :: byMint[m] != map[]
  }

  ghost function Flat(byMint: map<Mint, map<int, Bucket>>): Buckets {
    map m, s | m in byMint && s in byMint[m] :: Slot(m, s) := byMint[m][s]
  }

  lemma InFlat(byMint: map<Mint, map<int, Bucket>>, k: Slot)
    ensures k in Flat(byMint) <==> k.mint in byMint && k.sec in byMint[k.mint]
    ensures k in Flat(byMint) ==> Flat(byMint)[k] == byMint[k.mint][k.sec]
  {
    if k.mint in byMint && k.sec in byMint[k.mint] {
      assert Slot(k.mint, k.sec) in Flat(byMint);
    }
  }

  lemma FlatIsNested(byMint: map<Mint, map<int, Bucket>>)
    requires NoEmptyMint(byMint)
    ensures Nested(byMint, Flat(byMint))
  {
    forall k: Slot {
      InFlat(byMint, k);
    }
  }

  lemma NestedIsFlat(byMint: map<Mint, map<int, Bucket>>, f: Buckets)
    requires Nested(byMint, f)
    ensures f == Flat(byMint) && NoEmptyMint(byMint)
  {
    forall k: Slot
      ensures k in f <==> k in Flat(byMint)
      ensures k in f ==> f[k] == Flat(byMint)[k]
    {
      InFlat(byMint, k);
    }
  }

  /** A nested map and a flat map hold the same buckets, and no mint is kept without one. */
  ghost predicate Nested(byMint: map<Mint, map<int, Bucket>>, f: Buckets) {
    && NoEmptyMint(byMint)
    && (forall k {:trigger k in f} :: k in f <==> k.mint in byMint && k.sec in byMint[k.mint])
    && (forall k {:trigger f[k]} | k in f :: f[k] == byMint[k.mint][k.sec])
  }

  lemma StoredAfterAdd(
    byMint: map<Mint, map<int, Bucket>>, count: int, f: Buckets, buckets: map<int, Bucket>, mint: Mint, sec: int,
    found: Bucket, lamports: int, isBuy: bool)
    requires Stores(byMint, count, f)
    requires buckets == if mint in byMint then byMint[mint] else map[]
    requires found == if sec in buckets then buckets[sec] else EMPTY_BUCKET
    ensures Stores(byMint[mint := buckets[sec := found.Plus(OneTrade(lamports, isBuy))]],
                   count + (if sec in buckets then 0 else 1), AddTrade(f, mint, sec, lamports, isBuy))
  {
    var after, g := byMint[mint := buckets[sec := found.Plus(OneTrade(lamports, isBuy))]], AddTrade(f, mint, sec, lamports, isBuy);
    FlatIsNested(byMint);
    InFlat(byMint, Slot(mint, sec));
    NestedAfterSet(byMint, f, mint, sec, At(f, mint, sec).Plus(OneTrade(lamports, isBuy)));
    NestedIsFlat(after, g);
    AddedSlot(f, mint, sec, lamports, isBuy);
  }

  lemma AddedSlot(f: Buckets, mint: Mint, sec: int, lamports: int, isBuy: bool)
    ensures Size(AddTrade(f, mint, sec, lamports, isBuy)) == Size(f) + if Slot(mint, sec) in f then 0 else 1
  {
    var g := AddTrade(f, mint, sec, lamports, isBuy);
    assert g.Keys == f.Keys + {Slot(mint, sec)};
    SizeIsCardinality(f);
    SizeIsCardinality(g);
  }

  lemma NestedAfterSet(byMint: map<Mint, map<int, Bucket>>, f: Buckets, mint: Mint, sec: int, b: Bucket)
    requires Nested(byMint, f)
    ensures var buckets := if mint in byMint then byMint[mint] else map[];
            Nested(byMint[mint := buckets[sec := b]], f[Slot(mint, sec) := b])
  {
    var buckets := if mint in byMint then byMint[mint] else map[];
    assert sec in buckets[sec := b];
  }

  /** Removes one bucket, and its mint with the last one; `gone` is what was removed before. */
  method DeleteBucket(byMint: map<Mint, map<int, Bucket>>, ghost f: Buckets, ghost gone: set<Slot>, mint: Mint, sec: int)
    returns (nested: map<Mint, map<int, Bucket>>)
    requires Nested(byMint, f - gone) && mint in byMint && sec in byMint[mint]
    ensures Nested(nested, f - (gone + {Slot(mint, sec)}))
    ensures Slot(mint, sec) in f && Slot(mint, sec) !in gone
  {
    var rest := byMint[mint] - {sec};
    nested := if rest == map[] then byMint - {mint} else byMint[mint := rest];
    ghost var g := f - (gone + {Slot(mint, sec)});
    assert Slot(mint, sec) in f - gone;
    forall k {:trigger k in g}
      ensures k in g <==> k.mint in nested && k.sec in nested[k.mint]
    {
      assert k in g <==> k in f - gone && k != Slot(mint, sec);
      if k.mint == mint && k in f - gone && k.sec != sec {
        assert k.sec in rest;
      }
    }
    forall k {:trigger g[k]} | k in g
      ensures g[k] == nested[k.mint][k.sec]
    {
      assert k in f - gone && (f - gone)[k] == byMint[k.mint][k.sec];
    }
  }

  lemma SizeWithout(f: Buckets, gone: set<Slot>)
    requires gone <= f.Keys
    ensures Size(f - gone) == Size(f) - |gone|
  {
    assert (f - gone).Keys == f.Keys - gone;
    SizeIsCardinality(f);
    SizeIsCardinality(f - gone);
  }

  /** Removes one mint's buckets older than `minSec`. */
  method PruneMint(byMint: map<Mint, map<int, Bucket>>, ghost f: Buckets, ghost before: set<Slot>, mint: Mint, minSec: int)
    returns (nested: map<Mint, map<int, Bucket>>, ghost gone: set<Slot>, removed: nat)
    requires Nested(byMint, f - before) && mint in byMint
    ensures Nested(nested, f - gone)
    ensures before <= gone && removed == |gone| - |before|
    ensures forall k | k in gone && k !in before :: k in f && k.mint == mint && k.sec < minSec
    ensures forall k | k in f && k.mint == mint && k.sec < minSec :: k in gone
  {
    nested, gone, removed := byMint, before, 0;
    var secs := byMint[mint].Keys;
    assert forall k | k in f - before && k.mint == mint :: k.sec in secs;
    assert forall s | s in secs :: Slot(mint, s) in f - before;
    while secs != {}
      invariant Nested(nested, f - gone)
      invariant before <= gone && removed == |gone| - |before|
      invariant forall s | s in secs :: Slot(mint, s) in f && Slot(mint, s) !in gone
      invariant forall k | k in gone && k !in before :: k in f && k.mint == mint && k.sec < minSec
      invariant forall k | k in f && k.mint == mint && k.sec < minSec && k !in gone :: k.sec in secs
      decreases secs
    {
      ghost var some := SomeElement(secs);
      var sec :| sec in secs;
      if sec < minSec {
        assert Slot(mint, sec) in f - gone;
        nested := DeleteBucket(nested, f, gone, mint, sec);
        gone := gone + {Slot(mint, sec)};
        removed := removed + 1;
      }
      secs := secs - {sec};
    }
  }

  /** Removes every bucket older than `minSec`. */
  method PruneAll(byMint: map<Mint, map<int, Bucket>>, count: int, ghost f: Buckets, minSec: int)
    returns (nested: map<Mint, map<int, Bucket>>, removed: nat)
    requires Stores(byMint, count, f)
    ensures Stores(nested, count - removed, WithoutOlder(f, minSec))
    ensures removed == Size(f) - Size(WithoutOlder(f, minSec))
  {
    nested, removed := byMint, 0;
    FlatIsNested(byMint);
    var mints := byMint.Keys;
    ghost var gone: set<Slot> := {};
    assert f - gone == f;
    while mints != {}
      invariant Nested(nested, f - gone) && removed == |gone| && gone <= f.Keys
      invariant forall k | k in gone :: k.sec < minSec
      invariant forall k | k in f && k.sec < minSec && k !in gone :: k.mint in mints
      decreases mints
    {
      var mint :| mint in mints;
      if mint in nested {
        var n;
        nested, gone, n := PruneMint(nested, f, gone, mint, minSec);
        removed := removed + n;
      } else {
        assert forall k | k in f - gone :: k.mint != mint;
      }
      mints := mints - {mint};
    }
    assert f - gone == WithoutOlder(f, minSec);
    NestedIsFlat(nested, f - gone);
    SizeWithout(f, gone);
  }

  /** Removes one second from every mint. */
  method DropSecond(byMint: map<Mint, map<int, Bucket>>, ghost f: Buckets, sec: int)
    returns (nested: map<Mint, map<int, Bucket>>, n: nat)
    requires Nested(byMint, f)
    ensures Nested(nested, WithoutSecond(f, sec)) && n == Size(f) - Size(WithoutSecond(f, sec))
  {
    nested, n := byMint, 0;
    var mints := byMint.Keys;
    ghost var gone: set<Slot> := {};
    assert f - gone == f;
    while mints != {}
      invariant Nested(nested, f - gone) && n == |gone| && gone <= f.Keys
      invariant forall k | k in gone :: k.sec == sec
      invariant forall k | k in f && k.sec == sec && k !in gone :: k.mint in mints
      decreases mints
    {
      var mint :| mint in mints;
      if mint in nested && sec in nested[mint] {
        nested := DeleteBucket(nested, f, gone, mint, sec);
        gone := gone + {Slot(mint, sec)};
        n := n + 1;
      } else {
        assert Slot(mint, sec) !in f - gone;
      }
      mints := mints - {mint};
    }
    assert f - gone == WithoutSecond(f, sec);
    SizeWithout(f, gone);
  }

  /** Drops whole seconds, oldest first, while more than `maxBuckets` of the `count` buckets remain. */
  method DropOldest(byMint: map<Mint, map<int, Bucket>>, count: int, ghost f: Buckets, maxBuckets: nat)
    returns (nested: map<Mint, map<int, Bucket>>, dropped: nat)
    requires Stores(byMint, count, f)
    ensures Stores(nested, count - dropped, Capped(f, maxBuckets))
    ensures dropped == Size(f) - Size(Capped(f, maxBuckets))
  {
    nested, dropped := byMint, 0;
    if count <= maxBuckets {
      return;
    }
    ghost var flat := f;
    FlatIsNested(byMint);
    var ordered := SecondsInUse(nested, flat);
    var i := 0;
    while i < |ordered| && count - dropped > maxBuckets
      invariant i <= |ordered| && Nested(nested, flat) && dropped == Size(f) - Size(flat)
      invariant SecondsFrom(flat, ordered, i)
      invariant Capped(flat, maxBuckets) == Capped(f, maxBuckets)
    {
      HeadIsOldest(flat, ordered, i);
      var n;
      nested, n := DropSecond(nested, flat, ordered[i]);
      dropped := dropped + n;
      flat := WithoutSecond(flat, ordered[i]);
      i := i + 1;
    }
    assert i == |ordered| ==> flat == map[];
    SizeIsCardinality(flat);
    NestedIsFlat(nested, flat);
  }

  /** The seconds from place `i` on are exactly those still in use. */
  ghost predicate SecondsFrom(f: Buckets, ordered: seq<int>, i: nat) {
    && i <= |ordered|
    && (forall a, b | 0 <= a < b < |ordered| :: ordered[a] < ordered[b])
    && (forall k | k in f :: k.sec in ordered[i..])
    && (forall j | i <= j < |ordered| :: UsesSecond(f, ordered[j]))
  }

  lemma HeadIsOldest(f: Buckets, ordered: seq<int>, i: nat)
    requires SecondsFrom(f, ordered, i) && i < |ordered|
    ensures f != map[] && OldestSecond(f) == ordered[i]
    ensures SecondsFrom(WithoutSecond(f, ordered[i]), ordered, i + 1)
  {
    var sec := ordered[i];
    forall k | k in f ensures sec <= k.sec {
      var j :| 0 <= j < |ordered| - i && ordered[i..][j] == k.sec;
      assert ordered[i + j] == k.sec;
    }
    assert IsOldestSecond(f, sec);
    RestAfterHead(f, ordered, i);
  }

  lemma RestAfterHead(f: Buckets, ordered: seq<int>, i: nat)
    requires SecondsFrom(f, ordered, i) && i < |ordered|
    ensures SecondsFrom(WithoutSecond(f, ordered[i]), ordered, i + 1)
  {
    var sec := ordered[i];
    var g := WithoutSecond(f, sec);
    forall k | k in g ensures k.sec in ordered[i + 1..] {
      assert k.sec in ordered[i..] && k.sec != sec;
      assert ordered[i..] == [sec] + ordered[i + 1..];
    }
    forall j | i + 1 <= j < |ordered| ensures UsesSecond(g, ordered[j]) {
      var k :| k in f && k.sec == ordered[j];
      assert k in g;
    }
  }

  function Seconds(byMint: map<Mint, map<int, Bucket>>): set<int> {
    set m, s | m in byMint && s in byMint[m] :: s
  }

  lemma SecondHasMint(byMint: map<Mint, map<int, Bucket>>, s: int) returns (m: Mint)
    requires s in Seconds(byMint)
    ensures m in byMint && s in byMint[m]
  {
    var n, t :| n in byMint && t in byMint[n] && t == s;
    m := n;
  }

  method SecondsInUse(byMint: map<Mint, map<int, Bucket>>, ghost f: Buckets) returns (ordered: seq<int>)
    requires Nested(byMint, f)
    ensures SecondsFrom(f, ordered, 0)
  {
    ordered := SortedSeconds(Seconds(byMint));
    assert ordered[0..] == ordered;
    forall k | k in f ensures k.sec in ordered[0..] {
      assert k.mint in byMint && k.sec in byMint[k.mint];
    }
    forall j | 0 <= j < |ordered| ensures UsesSecond(f, ordered[j]) {
      var m := SecondHasMint(byMint, ordered[j]);
      assert Slot(m, ordered[j]) in f;
    }
  }

  lemma NothingStored(byMint: map<Mint, map<int, Bucket>>, f: Buckets)
    requires byMint == map[] && f == map[]
    ensures Stores(byMint, 0, f)
  {
    NestedIsFlat(byMint, f);
  }

  lemma StoredAt(byMint: map<Mint, map<int, Bucket>>, bucketCount: int, f: Buckets, mint: Mint, sec: int)
    requires Stores(byMint, bucketCount, f)
    ensures At(f, mint, sec) == if mint in byMint && sec in byMint[mint] then byMint[mint][sec] else EMPTY_BUCKET
  {
    InFlat(byMint, Slot(mint, sec));
  }

  lemma {:induction false} NoBucketsNoSum(
    byMint: map<Mint, map<int, Bucket>>, bucketCount: int, f: Buckets, mint: Mint, fromSec: int, toSec: int)
    requires Stores(byMint, bucketCount, f) && mint !in byMint
    ensures WindowSum(f, mint, fromSec, toSec) == EMPTY_BUCKET
    decreases toSec - fromSec
  {
    if fromSec <= toSec {
      NoBucketsNoSum(byMint, bucketCount, f, mint, fromSec, toSec - 1);
      StoredAt(byMint, bucketCount, f, mint, toSec);
    }
  }

  method Least(s: set<int>) returns (least: int)
    requires s != {}
    ensures least in s && forall x | x in s :: least <= x
  {
    ghost var some := SomeElement(s);
    least :| least in s;
    var others := s - {least};
    while others != {}
      invariant least in s && others <= s
      invariant forall x | x in s && x !in others :: least <= x
      decreases others
    {
      ghost var other := SomeElement(others);
      var x :| x in others;
      if x < least {
        least := x;
      }
      others := others - {x};
    }
  }

  /** The seconds in increasing order. */
  method SortedSeconds(secs: set<int>) returns (ordered: seq<int>)
    ensures forall i, j | 0 <= i < j < |ordered| :: ordered[i] < ordered[j]
    ensures forall i | 0 <= i < |ordered| :: ordered[i] in secs
    ensures forall s | s in secs :: s in ordered
  {
    ordered := [];
    var rest := secs;
    while rest != {}
      invariant rest <= secs
      invariant forall i, j | 0 <= i < j < |ordered| :: ordered[i] < ordered[j]
      invariant forall i | 0 <= i < |ordered| :: ordered[i] in secs
      invariant forall s | s in secs :: s in ordered || s in rest
      invariant forall i, s | 0 <= i < |ordered| && s in rest :: ordered[i] < s
      decreases rest
    {
      var least := Least(rest);
      ordered := ordered + [least];
      rest := rest - {least};
    }
  }
}
