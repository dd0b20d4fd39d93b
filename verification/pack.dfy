/** One retention cycle of `PackScript.scan`: reset, catalogue, sort, expire,
    publish the index. Store operations are returned instead of performed. */
module Pack {
  import opened Wrappers
  import opened Seqs
  import opened Catalog
  import opened Order
  import opened Expire
  import opened Index

  /** The fields of `PackScript` that a scan touches. */
  datatype PackState = PackState(knownKeys: seq<KnownKey>, usedBytes: nat)

  /** The write of the index document: its key, the entries it lists, its
      content type and its ACL. */
  datatype Publication = Publication(key: string, listed: seq<KnownKey>, contentType: string, acl: string)
  {
    /** The document written: the `make_index` page for the listed entries. */
    function Document(): string
    {
      MakeIndex(listed)
    }
  }

  /** What one scan leaves: the new state, the keys deleted (in the order the
      deletes are issued), and the index written after them. */
  datatype Cycle = Cycle(state: PackState, deletes: seq<string>, index: Publication)

  /** The part of `scan` after the catalog loop: sort newest first, walk
      the sorted catalog from a zero total, publish the index. */
  function Retain(maxsize: nat, prefix: string, catalog: seq<KnownKey>): (r: Cycle)
    ensures NewestFirst(r.state.knownKeys)
    ensures multiset(r.state.knownKeys) == multiset(catalog)
    ensures r.index.key == prefix + IndexName && r.index.listed == r.state.knownKeys
    ensures r.index.contentType == "text/html" && r.index.acl == "public-read"
  {
    var sorted := SortByDate(catalog);
    var walk := ExpireAll(maxsize, prefix, 0, sorted);
    Cycle(PackState(sorted, walk.used), walk.deletes,
          Publication(prefix + IndexName, sorted, IndexContentType, "public-read"))
  }

  /** The published index lists the whole sorted catalog, evicted entries
      included, in sorted order: reading it back yields exactly the names of
      the catalog. */
  lemma {:induction false} RetainIndexListsCatalog(maxsize: nat, prefix: string, catalog: seq<KnownKey>)
    requires QuoteFree(Names(catalog))
    ensures var r := Retain(maxsize, prefix, catalog);
      ParseIndex(r.index.Document()) == Some(Names(r.state.knownKeys))
  {
    var r := Retain(maxsize, prefix, catalog);
    var ks := r.state.knownKeys;
    MapPreservesPermutation((k: KnownKey) => k.name, ks, catalog);
    forall i | 0 <= i < |Names(ks)| ensures '"' !in Names(ks)[i] {
      assert Names(ks)[i] in multiset(Names(catalog));
      var j :| 0 <= j < |Names(catalog)| && Names(catalog)[j] == Names(ks)[i];
    }
    IndexRoundTrip(ks);
  }

  /** One call of `scan` over an already fetched listing under `prefix`. */
  function Scan(st: PackState, maxsize: nat, prefix: string, listing: seq<StoreObject>): (r: Cycle)
    requires Listed(prefix, listing)
    ensures NewestFirst(r.state.knownKeys)
    ensures multiset(r.state.knownKeys) == multiset(BuildCatalog(prefix, listing))
    ensures r.index.key == prefix + IndexName && r.index.listed == r.state.knownKeys
    ensures r.index.contentType == "text/html" && r.index.acl == "public-read"
  {
    // `known_keys` and `used_bytes` are reset first, so the catalog loop
    // appends to an empty list and the walk starts from 0: `st` is unused.
    Retain(maxsize, prefix, BuildCatalog(prefix, listing))
  }

  /** Nothing carries over between scans: the state before a scan has no
      influence on anything the scan produces. */
  lemma ScanStartsFresh(st1: PackState, st2: PackState, maxsize: nat, prefix: string, listing: seq<StoreObject>)
    requires Listed(prefix, listing)
    ensures Scan(st1, maxsize, prefix, listing) == Scan(st2, maxsize, prefix, listing)
  {
  }

  /** The outcome of a scan in terms of the sorted catalog: the longest
      newest-first prefix that fits is kept, its bytes stay within the
      budget, and exactly the rest is deleted, one delete per entry in order.
      The catalog and the index still hold the evicted entries. */
  lemma ScanKeepsNewestPrefix(st: PackState, maxsize: nat, prefix: string, listing: seq<StoreObject>, n: nat)
    requires Listed(prefix, listing)
    requires IsKeptPrefix(maxsize, 0, Scan(st, maxsize, prefix, listing).state.knownKeys, n)
    ensures var r := Scan(st, maxsize, prefix, listing);
      && TotalSize(r.state.knownKeys[..n]) <= maxsize
      && r.deletes == DeleteKeys(prefix, r.state.knownKeys[n..])
      && r.state.usedBytes == (if n == |r.state.knownKeys| then TotalSize(r.state.knownKeys) else maxsize + 1)
  {
    var r := Scan(st, maxsize, prefix, listing);
    ExpireAllKeepsPrefix(maxsize, prefix, 0, r.state.knownKeys, n);
  }

  /** Every catalogued entry is an image: it came from the listing and its
      relative name starts with `i`. */
  lemma {:induction false} CatalogHoldsImagesOnly(st: PackState, maxsize: nat, prefix: string, listing: seq<StoreObject>)
    requires Listed(prefix, listing)
    ensures var ks := Scan(st, maxsize, prefix, listing).state.knownKeys;
      forall i :: 0 <= i < |ks| ==> IsImageName(ks[i].name) && ks[i] in BuildCatalog(prefix, listing)
  {
    var ks := Scan(st, maxsize, prefix, listing).state.knownKeys;
    forall i | 0 <= i < |ks| ensures IsImageName(ks[i].name) && ks[i] in BuildCatalog(prefix, listing) {
      assert ks[i] in multiset(ks);
    }
  }

  /** No image entry's store key is the index document's key. */
  lemma ImageKeysAvoidIndex(prefix: string, ks: seq<KnownKey>)
    requires forall i :: 0 <= i < |ks| ==> IsImageName(ks[i].name)
    ensures prefix + IndexName !in DeleteKeys(prefix, ks)
  {
    forall j | 0 <= j < |ks| ensures DeleteKeys(prefix, ks)[j] != prefix + IndexName {
      var name := ks[j].name;
      assert (prefix + name)[|prefix|] == name[0];
      assert (prefix + IndexName)[|prefix|] == '_';
    }
  }

  /** The index document is never catalogued and never deleted, however old
      it is. */
  lemma IndexNeverExpired(st: PackState, maxsize: nat, prefix: string, listing: seq<StoreObject>)
    requires Listed(prefix, listing)
    ensures var r := Scan(st, maxsize, prefix, listing);
      && IndexName !in Names(r.state.knownKeys)
      && prefix + IndexName !in r.deletes
  {
    var r := Scan(st, maxsize, prefix, listing);
    var ks := r.state.knownKeys;
    CatalogHoldsImagesOnly(st, maxsize, prefix, listing);
    assert IndexName !in Names(ks) by {
      forall i | 0 <= i < |ks| ensures Names(ks)[i] != IndexName {
        assert IsImageName(ks[i].name);
      }
    }
    KeptPrefixExists(maxsize, 0, ks);
    var n: nat :| IsKeptPrefix(maxsize, 0, ks, n);
    ScanKeepsNewestPrefix(st, maxsize, prefix, listing, n);
    ImageKeysAvoidIndex(prefix, ks[n..]);
  }

  /** The store as it is after a cycle's deletes. */
  function Remaining(listing: seq<StoreObject>, deletes: seq<string>): seq<StoreObject>
  {
    Filter(StillStored(deletes), listing)
  }

  /** With distinct names, deleting the keys of the entries from `n` on
      removes exactly those entries and none before them. */
  lemma DeletesHitEvictedOnly(prefix: string, ks: seq<KnownKey>, n: nat)
    requires n <= |ks|
    requires NoDuplicates(Names(ks))
    ensures forall i :: 0 <= i < n ==> EntryStillStored(prefix, DeleteKeys(prefix, ks[n..]))(ks[i])
    ensures forall i :: n <= i < |ks| ==> !EntryStillStored(prefix, DeleteKeys(prefix, ks[n..]))(ks[i])
  {
    var d := DeleteKeys(prefix, ks[n..]);
    forall i | 0 <= i < n ensures prefix + ks[i].name !in d {
      forall j | 0 <= j < |d| ensures d[j] != prefix + ks[i].name {
        assert d[j] == prefix + ks[n + j].name;
        assert Names(ks)[i] != Names(ks)[n + j];
        PrefixCancel(prefix, ks[n + j].name, ks[i].name);
      }
    }
    forall i | n <= i < |ks| ensures prefix + ks[i].name in d {
      assert d[i - n] == prefix + ks[i].name;
    }
  }

  /** Keeping only the entries whose objects survived the deletes of the
      tail from `n` on leaves, up to order, exactly the first `n` entries. */
  lemma SurvivorsAreKeptPrefix(prefix: string, c: seq<KnownKey>, ks: seq<KnownKey>, n: nat)
    requires multiset(c) == multiset(ks)
    requires n <= |ks|
    requires NoDuplicates(Names(c))
    ensures multiset(Filter(EntryStillStored(prefix, DeleteKeys(prefix, ks[n..])), c)) == multiset(ks[..n])
  {
    var keep := EntryStillStored(prefix, DeleteKeys(prefix, ks[n..]));
    MapPreservesPermutation((k: KnownKey) => k.name, c, ks);
    NoDuplicatesPermutation(Names(c), Names(ks));
    DeletesHitEvictedOnly(prefix, ks, n);
    FilterKeepsPrefix(keep, ks, n);
    FilterPreservesPermutation(keep, c, ks);
  }

  /** The store a cycle leaves behind: the listing without the deleted
      objects, with the index document the cycle wrote. `size` and `time` are
      what the store records for the written page. */
  function StoreAfter(prefix: string, listing: seq<StoreObject>, r: Cycle, size: nat, time: int): seq<StoreObject>
  {
    WithIndex(prefix, Remaining(listing, r.deletes), size, time)
  }

  /** The second cycle's catalog holds exactly the first cycle's kept entries. */
  lemma RescanCatalog(st: PackState, maxsize: nat, prefix: string, listing: seq<StoreObject>, n: nat, size: nat, time: int)
    requires Listed(prefix, listing)
    requires NoDuplicates(Keys(listing))
    requires IsKeptPrefix(maxsize, 0, Scan(st, maxsize, prefix, listing).state.knownKeys, n)
    ensures var r1 := Scan(st, maxsize, prefix, listing);
      var store := StoreAfter(prefix, listing, r1, size, time);
      && Listed(prefix, store)
      && multiset(BuildCatalog(prefix, store)) == multiset(r1.state.knownKeys[..n])
  {
    var r1 := Scan(st, maxsize, prefix, listing);
    var ks := r1.state.knownKeys;
    var c := BuildCatalog(prefix, listing);
    ScanKeepsNewestPrefix(st, maxsize, prefix, listing, n);
    BuildCatalogAfterDeletes(prefix, listing, r1.deletes);
    BuildCatalogIgnoresIndex(prefix, Remaining(listing, r1.deletes), size, time);
    CatalogNamesDistinct(prefix, listing);
    SurvivorsAreKeptPrefix(prefix, c, ks, n);
  }

  /** A catalog that fits the budget loses nothing: the cycle deletes
      nothing and ends with the catalog's bytes as its running total. */
  lemma RetainWithinBudget(maxsize: nat, prefix: string, catalog: seq<KnownKey>)
    requires TotalSize(catalog) <= maxsize
    ensures var r := Retain(maxsize, prefix, catalog);
      && r.deletes == []
      && r.state.usedBytes == TotalSize(catalog)
  {
    var ks := Retain(maxsize, prefix, catalog).state.knownKeys;
    TotalSizePermutation(ks, catalog);
    WithinBudgetEvictsNothing(maxsize, prefix, 0, ks);
  }

  /** Filtering twice by the same predicate is filtering once. */
  lemma FilterTwice(p: StoreObject -> bool, s: seq<StoreObject>)
    ensures Filter(p, Filter(p, s)) == Filter(p, s)
  {
    var f := Filter(p, s);
    FilterKeepsPrefix(p, f, |f|);
    assert f[..|f|] == f;
  }

  /** A store whose catalog fits the budget is a fixed point: the cycle
      deletes nothing, and the next cycle, on the store with the index
      written, repeats it exactly. */
  lemma NoDeletesFixedPoint(st: PackState, maxsize: nat, prefix: string, store: seq<StoreObject>, size: nat, time: int)
    requires Listed(prefix, store)
    requires TotalSize(BuildCatalog(prefix, store)) <= maxsize
    ensures var r := Scan(st, maxsize, prefix, store);
      && r.deletes == []
      && Remaining(store, r.deletes) == store
      && Listed(prefix, StoreAfter(prefix, store, r, size, time))
      && Scan(r.state, maxsize, prefix, StoreAfter(prefix, store, r, size, time)) == r
  {
    RetainWithinBudget(maxsize, prefix, BuildCatalog(prefix, store));
    FilterKeepsPrefix(StillStored([]), store, |store|);
    assert store[..|store|] == store;
    BuildCatalogIgnoresIndex(prefix, store, size, time);
  }

  /** Rerunning the scan on the store the first cycle left deletes nothing;
      its catalog is a permutation of the first cycle's kept prefix with the
      same modification time at every position, and its running total is the
      kept bytes. */
  lemma ScanIdempotent(st: PackState, maxsize: nat, prefix: string, listing: seq<StoreObject>, n: nat, size: nat, time: int)
    requires Listed(prefix, listing)
    requires NoDuplicates(Keys(listing))
    requires IsKeptPrefix(maxsize, 0, Scan(st, maxsize, prefix, listing).state.knownKeys, n)
    ensures var r1 := Scan(st, maxsize, prefix, listing);
      var kept := r1.state.knownKeys[..n];
      var store := StoreAfter(prefix, listing, r1, size, time);
      && Listed(prefix, store)
      && var r2 := Scan(r1.state, maxsize, prefix, store);
      && r2.deletes == []
      && multiset(r2.state.knownKeys) == multiset(kept)
      && MTimes(r2.state.knownKeys) == MTimes(kept)
      && r2.state.usedBytes == TotalSize(kept)
  {
    var r1 := Scan(st, maxsize, prefix, listing);
    var kept := r1.state.knownKeys[..n];
    var store := StoreAfter(prefix, listing, r1, size, time);
    RescanCatalog(st, maxsize, prefix, listing, n, size, time);
    TotalSizePermutation(BuildCatalog(prefix, store), kept);
    RetainWithinBudget(maxsize, prefix, BuildCatalog(prefix, store));
    assert NewestFirst(kept);
    NewestFirstAgreeOnTimes(Scan(r1.state, maxsize, prefix, store).state.knownKeys, kept);
  }

  /** From the second cycle on the store changes only in its index object:
      the second cycle deletes nothing, the store it leaves is the first
      cycle's with just the index rewritten, and a third cycle repeats the
      second exactly. */
  lemma ScanReachesFixedPoint(st: PackState, maxsize: nat, prefix: string, listing: seq<StoreObject>, n: nat,
                              size1: nat, time1: int, size2: nat, time2: int)
    requires Listed(prefix, listing)
    requires NoDuplicates(Keys(listing))
    requires IsKeptPrefix(maxsize, 0, Scan(st, maxsize, prefix, listing).state.knownKeys, n)
    ensures var r1 := Scan(st, maxsize, prefix, listing);
      var store := StoreAfter(prefix, listing, r1, size1, time1);
      && Listed(prefix, store)
      && var r2 := Scan(r1.state, maxsize, prefix, store);
      && r2.deletes == []
      && StoreAfter(prefix, store, r2, size2, time2) == StoreAfter(prefix, listing, r1, size2, time2)
      && Listed(prefix, StoreAfter(prefix, store, r2, size2, time2))
      && Scan(r2.state, maxsize, prefix, StoreAfter(prefix, store, r2, size2, time2)) == r2
  {
    var r1 := Scan(st, maxsize, prefix, listing);
    var kept := r1.state.knownKeys[..n];
    var store := StoreAfter(prefix, listing, r1, size1, time1);
    RescanCatalog(st, maxsize, prefix, listing, n, size1, time1);
    TotalSizePermutation(BuildCatalog(prefix, store), kept);
    NoDeletesFixedPoint(r1.state, maxsize, prefix, store, size2, time2);
    IndexRewrite(prefix, Remaining(listing, r1.deletes), size1, time1, size2, time2);
  }

  /** Writing the index again over a store that nothing was deleted from
      replaces only the index object. */
  lemma IndexRewrite(prefix: string, rest: seq<StoreObject>, size1: nat, time1: int, size2: nat, time2: int)
    ensures WithIndex(prefix, Remaining(WithIndex(prefix, rest, size1, time1), []), size2, time2)
      == WithIndex(prefix, rest, size2, time2)
  {
    var store := WithIndex(prefix, rest, size1, time1);
    FilterKeepsPrefix(StillStored([]), store, |store|);
    assert store[..|store|] == store;
    var notIndex := StillStored([prefix + IndexName]);
    var o1 := IndexObject(prefix, size1, time1);
    FilterAppend(notIndex, Filter(notIndex, rest), [o1]);
    assert Filter(notIndex, [o1]) == [];
    FilterTwice(notIndex, rest);
  }

  /** When no two kept entries share a modification time, the second cycle
      reproduces the first cycle's kept prefix exactly. */
  lemma ScanIdempotentDistinctTimes(st: PackState, maxsize: nat, prefix: string, listing: seq<StoreObject>, n: nat, size: nat, time: int)
    requires Listed(prefix, listing)
    requires NoDuplicates(Keys(listing))
    requires IsKeptPrefix(maxsize, 0, Scan(st, maxsize, prefix, listing).state.knownKeys, n)
    requires NoDuplicates(MTimes(Scan(st, maxsize, prefix, listing).state.knownKeys[..n]))
    ensures var r1 := Scan(st, maxsize, prefix, listing);
      var store := StoreAfter(prefix, listing, r1, size, time);
      && Listed(prefix, store)
      && Scan(r1.state, maxsize, prefix, store).state.knownKeys == r1.state.knownKeys[..n]
  {
    var r1 := Scan(st, maxsize, prefix, listing);
    var kept := r1.state.knownKeys[..n];
    var store := StoreAfter(prefix, listing, r1, size, time);
    RescanCatalog(st, maxsize, prefix, listing, n, size, time);
    var ks2 := Scan(r1.state, maxsize, prefix, store).state.knownKeys;
    assert NewestFirst(kept);
    NewestFirstUnique(kept, ks2);
  }
}
