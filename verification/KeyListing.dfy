/**
 Paging through a key-value store's keys (`src/services/kv-key-listing.ts`).

 A store is listed as its keys in any order, without repeats; sizes travel with their keys and are left out. Every
 page is cut from the store as it is at that moment.
 */
module KeyListing {
  import opened Wrappers

  type Key = string

  const DEFAULT_LIMIT := 1000

  /** Character by character, a proper prefix first. */
  predicate Less(a: Key, b: Key) {
    if b == "" then false
    else if a == "" then true
    else if a[0] != b[0] then a[0] < b[0]
    else Less(a[1..], b[1..])
  }

  lemma SameStart(a: Key, b: Key, k: nat)
    requires 0 < k <= |a| && k < |b| && a[..k] == b[..k]
    ensures a[0] == b[0]
  {
    assert a[..k][0] == a[0] && b[..k][0] == b[0];
  }

  /** The first character in which two keys differ decides, or that one of them ends. */
  lemma {:induction false} LessIsLexicographic(a: Key, b: Key)
    ensures Less(a, b) <==>
      exists k :: 0 <= k <= |a| && k < |b| && a[..k] == b[..k] && (k == |a| || a[k] < b[k])
  {
    if a != "" && b != "" && a[0] == b[0] {
      var x, y := a[1..], b[1..];
      LessIsLexicographic(x, y);
      if Less(a, b) {
        var k :| 0 <= k <= |x| && k < |y| && x[..k] == y[..k] && (k == |x| || x[k] < y[k]);
        assert a[..k + 1] == [a[0]] + x[..k] && b[..k + 1] == [b[0]] + y[..k];
        assert 0 <= k + 1 <= |a| && (k + 1 == |a| || a[k + 1] < b[k + 1]);
      } else if k :| 0 <= k <= |a| && k < |b| && a[..k] == b[..k] && (k == |a| || a[k] < b[k]) {
        assert k > 0;
        assert x[..k - 1] == a[..k][1..] && y[..k - 1] == b[..k][1..];
      }
    } else if b != "" {
      assert a[..0] == b[..0];
      if k :| 0 < k <= |a| && k < |b| && a[..k] == b[..k] {
        SameStart(a, b, k);
      }
    }
  }

  lemma {:induction false} LessIsTransitive(a: Key, b: Key, c: Key)
    requires Less(a, b) && Less(b, c)
    ensures Less(a, c)
  {
    if a != "" && a[0] == b[0] == c[0] {
      LessIsTransitive(a[1..], b[1..], c[1..]);
    }
  }

  lemma {:induction false} LessIsTotal(a: Key, b: Key)
    ensures a == b || Less(a, b) || Less(b, a)
    ensures !(Less(a, b) && Less(b, a)) && !Less(a, a)
  {
    if a != "" && b != "" && a[0] == b[0] {
      LessIsTotal(a[1..], b[1..]);
      assert a == [a[0]] + a[1..] && b == [b[0]] + b[1..];
    }
    LessIsIrreflexive(a);
  }

  lemma {:induction false} LessIsIrreflexive(a: Key)
    ensures !Less(a, a)
  {
    if a != "" {
      LessIsIrreflexive(a[1..]);
    }
  }

  ghost predicate Increasing(keys: seq<Key>) {
    forall i, j :: 0 <= i < j < |keys| ==> Less(keys[i], keys[j])
  }

  ghost predicate Distinct(keys: seq<Key>) {
    forall i, j :: 0 <= i < j < |keys| ==> keys[i] != keys[j]
  }

  // ---------- Sorting ----------

  function Insert(key: Key, sorted: seq<Key>): seq<Key> {
    if sorted == [] then [key]
    else if Less(sorted[0], key) then [sorted[0]] + Insert(key, sorted[1..])
    else [key] + sorted
  }

  function Sorted(keys: seq<Key>): seq<Key> {
    if keys == [] then [] else Insert(keys[0], Sorted(keys[1..]))
  }

  lemma {:induction false} InsertKeepsKeys(key: Key, sorted: seq<Key>)
    ensures multiset(Insert(key, sorted)) == multiset(sorted) + multiset{key}
  {
    if sorted != [] {
      assert sorted == [sorted[0]] + sorted[1..];
      if Less(sorted[0], key) {
        InsertKeepsKeys(key, sorted[1..]);
      }
    }
  }

  lemma {:induction false} InsertIsIncreasing(key: Key, sorted: seq<Key>)
    requires Increasing(sorted) && key !in sorted
    ensures Increasing(Insert(key, sorted))
  {
    if sorted != [] {
      var first, rest := sorted[0], sorted[1..];
      assert sorted == [first] + rest;
      if Less(first, key) {
        InsertIsIncreasing(key, rest);
        InsertKeepsKeys(key, rest);
        forall other | other in Insert(key, rest) ensures Less(first, other) {
          assert other in multiset(Insert(key, rest));
          if other != key {
            assert other in rest;
          }
        }
        ConsIsIncreasing(first, Insert(key, rest));
      } else {
        LessIsTotal(first, key);
        forall other | other in sorted ensures Less(key, other) {
          if other != first {
            LessIsTransitive(key, first, other);
          }
        }
        ConsIsIncreasing(key, sorted);
      }
    }
  }

  lemma ConsIsIncreasing(first: Key, rest: seq<Key>)
    requires Increasing(rest) && forall other :: other in rest ==> Less(first, other)
    ensures Increasing([first] + rest)
  {
    hide Less;
  }

  lemma {:induction false} SortedKeepsKeys(keys: seq<Key>)
    ensures multiset(Sorted(keys)) == multiset(keys)
  {
    if keys != [] {
      assert keys == [keys[0]] + keys[1..];
      SortedKeepsKeys(keys[1..]);
      InsertKeepsKeys(keys[0], Sorted(keys[1..]));
    }
  }

  lemma SortedHas(keys: seq<Key>, key: Key)
    ensures key in Sorted(keys) <==> key in keys
  {
    SortedKeepsKeys(keys);
    hide Sorted;
    assert key in multiset(Sorted(keys)) <==> key in multiset(keys);
  }

  /** Sorting puts keys without repeats in increasing order, and keeps them all. */
  lemma {:induction false} SortedIsIncreasing(keys: seq<Key>)
    requires Distinct(keys)
    ensures Increasing(Sorted(keys))
  {
    if keys != [] {
      SortedIsIncreasing(keys[1..]);
      SortedHas(keys[1..], keys[0]);
      InsertIsIncreasing(keys[0], Sorted(keys[1..]));
    }
  }

  // ---------- One page ----------

  datatype Page = Page(keys: seq<Key>, isTruncated: bool, next: Option<Key>)

  predicate Above(key: Key, start: Option<Key>) {
    start.Some? ==> Less(start.value, key)
  }

  /** The index of the first key behind the start, or the length. */
  function StartIndex(sorted: seq<Key>, start: Option<Key>): (n: nat)
    ensures n <= |sorted|
  {
    if sorted == [] || Above(sorted[0], start) then 0 else 1 + StartIndex(sorted[1..], start)
  }

  function PageKeys(allKeys: seq<Key>, start: Option<Key>, limit: Option<nat>): Page {
    var sorted := Sorted(allKeys);
    var from := StartIndex(sorted, start);
    var size := if limit.Some? then limit.value else DEFAULT_LIMIT;
    var to := if from + size < |sorted| then from + size else |sorted|;
    var page := sorted[from..to];
    var isTruncated := from + |page| < |sorted|;
    Page(page, isTruncated, if isTruncated && page != [] then Some(page[|page| - 1]) else None)
  }

  predicate AtLeastOne(limit: Option<nat>) {
    limit.Some? ==> limit.value >= 1
  }

  lemma {:induction false} StartIndexSplits(sorted: seq<Key>, start: Option<Key>)
    requires Increasing(sorted)
    ensures forall i :: 0 <= i < |sorted| ==> (Above(sorted[i], start) <==> i >= StartIndex(sorted, start))
  {
    hide Less;
    if sorted != [] {
      if Above(sorted[0], start) {
        forall i | 0 <= i < |sorted| ensures Above(sorted[i], start) {
          if start.Some? && i > 0 {
            LessIsTransitive(start.value, sorted[0], sorted[i]);
          }
        }
      } else {
        StartIndexSplits(sorted[1..], start);
        forall i | 1 <= i < |sorted| ensures Above(sorted[i], start) <==> i >= StartIndex(sorted, start) {
          assert sorted[i] == sorted[1..][i - 1];
        }
      }
    }
  }

  /** A page is a slice of the sorted keys; a truncated one names its last key, and ends before the last. */
  lemma PageShape(allKeys: seq<Key>, start: Option<Key>, limit: Option<nat>)
    requires AtLeastOne(limit)
    ensures var page := PageKeys(allKeys, start, limit);
      var sorted, from := Sorted(allKeys), StartIndex(Sorted(allKeys), start);
      && from + |page.keys| <= |sorted| && page.keys == sorted[from..from + |page.keys|]
      && (page.isTruncated <==> from + |page.keys| < |sorted|)
      && (page.isTruncated <==> page.next.Some?)
      && (page.isTruncated ==> page.keys != [] && page.next.value == page.keys[|page.keys| - 1])
  {
    hide Sorted, StartIndex;
  }

  lemma SliceIsIncreasing(sorted: seq<Key>, from: nat, to: nat)
    requires Increasing(sorted) && from <= to <= |sorted|
    ensures Increasing(sorted[from..to])
  {
    hide Less;
  }

  lemma PageIsSound(allKeys: seq<Key>, start: Option<Key>, limit: Option<nat>)
    requires Distinct(allKeys) && AtLeastOne(limit)
    ensures Increasing(PageKeys(allKeys, start, limit).keys)
    ensures forall key :: key in PageKeys(allKeys, start, limit).keys ==> key in allKeys && Above(key, start)
  {
    hide *;
    var sorted, page := Sorted(allKeys), PageKeys(allKeys, start, limit);
    var from := StartIndex(sorted, start);
    PageShape(allKeys, start, limit);
    SortedIsIncreasing(allKeys);
    SliceIsIncreasing(sorted, from, from + |page.keys|);
    StartIndexSplits(sorted, start);
    forall key | key in page.keys ensures key in allKeys && Above(key, start) {
      var i :| 0 <= i < |page.keys| && page.keys[i] == key;
      assert sorted[from + i] == key;
      SortedHas(allKeys, key);
    }
  }

  function Behind(keys: seq<Key>, start: Option<Key>): set<Key> {
    set key | key in keys && Above(key, start)
  }

  /** A page holds as many keys as the limit lets it, a thousand without one, and all if there are no more. */
  lemma PageIsFull(allKeys: seq<Key>, start: Option<Key>, limit: Option<nat>)
    requires Distinct(allKeys) && AtLeastOne(limit)
    ensures var page, size := PageKeys(allKeys, start, limit), if limit.Some? then limit.value else 1000;
      && |page.keys| == (if |Behind(allKeys, start)| <= size then |Behind(allKeys, start)| else size)
      && (page.isTruncated <==> |Behind(allKeys, start)| > size)
  {
    var sorted := Sorted(allKeys);
    var from := StartIndex(sorted, start);
    SortedIsIncreasing(allKeys);
    StartIndexSplits(sorted, start);
    var rest := sorted[from..];
    SliceIsIncreasing(sorted, from, |sorted|);
    SizeOfIncreasing(rest);
    forall key ensures key in Behind(allKeys, start) <==> key in rest {
      SortedHas(allKeys, key);
      if key in sorted && Above(key, start) {
        var i :| 0 <= i < |sorted| && sorted[i] == key;
        assert rest[i - from] == key;
      }
    }
    assert Behind(allKeys, start) == set key | key in rest;
    hide Sorted, StartIndex, Less, Increasing;
  }

  lemma {:induction false} SizeOfIncreasing(keys: seq<Key>)
    requires Increasing(keys)
    ensures |set key | key in keys| == |keys|
  {
    if keys != [] {
      SizeOfIncreasing(keys[1..]);
      if keys[0] in keys[1..] {
        LessIsIrreflexive(keys[0]);
      }
      assert (set key | key in keys) == {keys[0]} + set key | key in keys[1..];
    }
  }

  /** A key of the store behind the start is on the page, or behind the page's last key. */
  lemma PageIsComplete(allKeys: seq<Key>, start: Option<Key>, limit: Option<nat>, key: Key)
    requires Distinct(allKeys) && AtLeastOne(limit) && key in allKeys && Above(key, start)
    ensures var page := PageKeys(allKeys, start, limit);
      key in page.keys || (page.next.Some? && Less(page.next.value, key))
  {
    hide *;
    var sorted, page := Sorted(allKeys), PageKeys(allKeys, start, limit);
    var from := StartIndex(sorted, start);
    PageShape(allKeys, start, limit);
    SortedHas(allKeys, key);
    var i :| 0 <= i < |sorted| && sorted[i] == key;
    SortedIsIncreasing(allKeys);
    StartIndexSplits(sorted, start);
    if i < from + |page.keys| {
      assert page.keys[i - from] == key;
    } else {
      assert page.next.value == sorted[from + |page.keys| - 1];
      InOrder(sorted, from + |page.keys| - 1, i);
    }
  }

  lemma InOrder(sorted: seq<Key>, i: nat, j: nat)
    requires Increasing(sorted) && i < j < |sorted|
    ensures Less(sorted[i], sorted[j])
  {
  }

  // ---------- Following the pages ----------

  /** The keys a client collects, page after page, each cut from the store as it then is, and whether it is done. */
  datatype Listing = Listing(keys: seq<Key>, complete: bool)

  function Follow(stores: seq<seq<Key>>, start: Option<Key>, limit: Option<nat>): Listing
    decreases |stores|
  {
    if stores == [] then Listing([], false)
    else
      var page := PageKeys(stores[0], start, limit);
      if page.next.None? then Listing(page.keys, true)
      else
        var rest := Follow(stores[1..], page.next, limit);
        Listing(page.keys + rest.keys, rest.complete)
  }

  ghost predicate AllDistinct(stores: seq<seq<Key>>) {
    forall i :: 0 <= i < |stores| ==> Distinct(stores[i])
  }

  lemma JoinIsIncreasing(a: seq<Key>, b: seq<Key>)
    requires Increasing(a) && Increasing(b) && a != []
    requires forall key :: key in b ==> Less(a[|a| - 1], key)
    ensures Increasing(a + b)
  {
    hide Less;
    forall i, j | 0 <= i < j < |a + b| ensures Less((a + b)[i], (a + b)[j]) {
      if j >= |a| && i < |a| {
        assert b[j - |a|] in b;
        if i < |a| - 1 {
          LessIsTransitive(a[i], a[|a| - 1], b[j - |a|]);
        }
      }
    }
  }

  /** Whatever happens to the store between the pages, the keys come in increasing order, so none comes twice. */
  lemma {:induction false} ListedInOrder(stores: seq<seq<Key>>, start: Option<Key>, limit: Option<nat>)
    requires AllDistinct(stores) && AtLeastOne(limit)
    ensures Increasing(Follow(stores, start, limit).keys)
    ensures forall key :: key in Follow(stores, start, limit).keys ==> Above(key, start)
    decreases |stores|
  {
    if stores != [] {
      var page := PageKeys(stores[0], start, limit);
      PageIsSound(stores[0], start, limit);
      PageShape(stores[0], start, limit);
      hide PageKeys, Less;
      if page.next.Some? {
        ListedInOrder(stores[1..], page.next, limit);
        var rest := Follow(stores[1..], page.next, limit);
        JoinIsIncreasing(page.keys, rest.keys);
        var last := page.keys[|page.keys| - 1];
        assert last in page.keys && Above(last, start);
        forall key | key in rest.keys ensures Above(key, start) {
          assert Above(key, page.next);
          if start.Some? {
            LessIsTransitive(start.value, last, key);
          }
        }
      }
    }
  }

  /**
   Keys may come and go between the pages: a key that is in the store the whole time, behind the start, is
   listed once the listing is complete; with `ListedInOrder`, exactly once.
   */
  lemma {:induction false} PersistentKeysAreListed(
      stores: seq<seq<Key>>, start: Option<Key>, limit: Option<nat>, key: Key)
    requires AllDistinct(stores) && AtLeastOne(limit) && Above(key, start)
    requires forall i :: 0 <= i < |stores| ==> key in stores[i]
    requires Follow(stores, start, limit).complete
    ensures multiset(Follow(stores, start, limit).keys)[key] == 1
    decreases |stores|
  {
    PersistentKeyIsListed(stores, start, limit, key);
    ListedInOrder(stores, start, limit);
    OnceInIncreasing(Follow(stores, start, limit).keys, key);
  }

  lemma {:induction false} PersistentKeyIsListed(
      stores: seq<seq<Key>>, start: Option<Key>, limit: Option<nat>, key: Key)
    requires AllDistinct(stores) && AtLeastOne(limit) && Above(key, start)
    requires forall i :: 0 <= i < |stores| ==> key in stores[i]
    requires Follow(stores, start, limit).complete
    ensures key in Follow(stores, start, limit).keys
    decreases |stores|
  {
    hide PageKeys, Less, Distinct;
    var page := PageKeys(stores[0], start, limit);
    PageIsComplete(stores[0], start, limit, key);
    if page.next.Some? && key !in page.keys {
      PersistentKeyIsListed(stores[1..], page.next, limit, key);
    }
  }

  lemma {:induction false} OnceInIncreasing(keys: seq<Key>, key: Key)
    requires Increasing(keys) && key in keys
    ensures multiset(keys)[key] == 1
  {
    var rest := keys[1..];
    assert keys == [keys[0]] + rest;
    if keys[0] == key {
      forall i | 0 <= i < |rest| ensures rest[i] != key {
        assert Less(keys[0], keys[i + 1]);
        LessIsIrreflexive(key);
      }
      assert key !in rest;
    } else {
      OnceInIncreasing(rest, key);
    }
  }

  /** Only keys some store had are listed. */
  lemma {:induction false} NothingElseIsListed(stores: seq<seq<Key>>, start: Option<Key>, limit: Option<nat>, key: Key)
    requires AllDistinct(stores) && AtLeastOne(limit) && key in Follow(stores, start, limit).keys
    ensures exists i :: 0 <= i < |stores| && key in stores[i]
    decreases |stores|
  {
    var page := PageKeys(stores[0], start, limit);
    PageIsSound(stores[0], start, limit);
    hide PageKeys, Less, Distinct;
    if key !in page.keys {
      NothingElseIsListed(stores[1..], page.next, limit, key);
      var i :| 0 <= i < |stores[1..]| && key in stores[1..][i];
      assert key in stores[i + 1];
    }
  }

  // ---------- A store that stays as it is ----------

  function Unchanged(allKeys: seq<Key>, pages: nat): seq<seq<Key>> {
    seq(pages, _ => allKeys)
  }

  lemma StartsBehind(sorted: seq<Key>, n: nat)
    requires Increasing(sorted) && 0 < n <= |sorted|
    ensures StartIndex(sorted, Some(sorted[n - 1])) == n
  {
    StartIndexSplits(sorted, Some(sorted[n - 1]));
    var from := StartIndex(sorted, Some(sorted[n - 1]));
    LessIsIrreflexive(sorted[n - 1]);
    assert !Above(sorted[n - 1], Some(sorted[n - 1]));
    if n < |sorted| {
      assert Above(sorted[n], Some(sorted[n - 1]));
    }
  }

  /** As many pages as there are keys are enough, and they join to the sorted keys behind the start. */
  lemma {:induction false} UnchangedStoreIsListed(allKeys: seq<Key>, start: Option<Key>, limit: Option<nat>, pages: nat)
    requires Distinct(allKeys) && AtLeastOne(limit)
    requires pages + StartIndex(Sorted(allKeys), start) > |allKeys|
    ensures Follow(Unchanged(allKeys, pages), start, limit)
         == Listing(Sorted(allKeys)[StartIndex(Sorted(allKeys), start)..], true)
    decreases pages
  {
    hide *;
    var sorted, page := Sorted(allKeys), PageKeys(allKeys, start, limit);
    var from := StartIndex(sorted, start);
    SortedLength(allKeys);
    PageShape(allKeys, start, limit);
    FollowOnce(allKeys, pages, start, limit);
    var to := from + |page.keys|;
    if page.next.Some? {
      NextStartsBehind(allKeys, start, limit);
      UnchangedStoreIsListed(allKeys, page.next, limit, pages - 1);
      JoinSlices(sorted, from, to);
    } else {
      assert sorted[from..to] == sorted[from..];
    }
  }

  lemma JoinSlices(sorted: seq<Key>, from: nat, to: nat)
    requires from <= to <= |sorted|
    ensures sorted[from..to] + sorted[to..] == sorted[from..]
  {
  }

  lemma NextStartsBehind(allKeys: seq<Key>, start: Option<Key>, limit: Option<nat>)
    requires Distinct(allKeys) && AtLeastOne(limit) && PageKeys(allKeys, start, limit).next.Some?
    ensures var page := PageKeys(allKeys, start, limit);
      StartIndex(Sorted(allKeys), page.next) == StartIndex(Sorted(allKeys), start) + |page.keys|
  {
    hide *;
    var sorted, page := Sorted(allKeys), PageKeys(allKeys, start, limit);
    var to := StartIndex(sorted, start) + |page.keys|;
    PageShape(allKeys, start, limit);
    SortedIsIncreasing(allKeys);
    assert page.next.value == sorted[to - 1];
    StartsBehind(sorted, to);
  }

  lemma SortedLength(keys: seq<Key>)
    ensures |Sorted(keys)| == |keys|
  {
    SortedKeepsKeys(keys);
    assert |Sorted(keys)| == |multiset(Sorted(keys))| == |multiset(keys)|;
  }

  lemma FollowOnce(allKeys: seq<Key>, pages: nat, start: Option<Key>, limit: Option<nat>)
    requires pages > 0
    ensures var page := PageKeys(allKeys, start, limit);
      Follow(Unchanged(allKeys, pages), start, limit) ==
        if page.next.None? then Listing(page.keys, true)
        else
          var rest := Follow(Unchanged(allKeys, pages - 1), page.next, limit);
          Listing(page.keys + rest.keys, rest.complete)
  {
    hide PageKeys;
    assert Unchanged(allKeys, pages)[1..] == Unchanged(allKeys, pages - 1);
  }
}
