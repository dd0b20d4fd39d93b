/** The catalog one retention scan builds from the store listing: the
    `KnownKey` record, the image-name filter of `save_to_known`, and sizes. */
module Catalog {
  import opened Wrappers
  import opened Seqs

  /** One catalogued object: its name relative to the prefix, its size in
      bytes and its modification time in seconds since the epoch. */
  datatype KnownKey = KnownKey(name: string, size: nat, mtime: int)

  /** One object of a store listing under the prefix, after its metadata was
      fetched individually: its full key, its size, and its last-modified time
      already converted to seconds since the epoch. */
  datatype StoreObject = StoreObject(key: string, size: nat, lastModified: int)

  /** The reserved name of the published index document. */
  const IndexName: string := "_index.html"

  /** The naming convention: image objects are those whose relative name
      starts with `i`. */
  predicate IsImageName(name: string)
  {
    |name| > 0 && name[0] == 'i'
  }

  /** `key[len(prefix):]`, with Python's slice semantics on short keys. */
  function RelativeName(prefix: string, key: string): (r: string)
    ensures |r| == if |prefix| <= |key| then |key| - |prefix| else 0
    ensures forall i :: 0 <= i < |r| ==> r[i] == key[|prefix| + i]
    ensures |prefix| <= |key| && key[..|prefix|] == prefix ==> prefix + r == key
  {
    if |prefix| <= |key| then key[|prefix|..] else ""
  }

  /** A listing by prefix returns only keys under the prefix; a key equal to
      the prefix itself would make `name[0]` fail, so every relative name is
      non-empty. */
  predicate Listed(prefix: string, listing: seq<StoreObject>)
  {
    forall i :: 0 <= i < |listing| ==>
      |prefix| < |listing[i].key| && listing[i].key[..|prefix|] == prefix
  }

  function Entry(prefix: string, o: StoreObject): KnownKey
  {
    KnownKey(RelativeName(prefix, o.key), o.size, o.lastModified)
  }

  /** The entry every listed object would give, image or not. */
  function Entries(prefix: string, listing: seq<StoreObject>): seq<KnownKey>
  {
    Map((o: StoreObject) => Entry(prefix, o), listing)
  }

  /** One call of `save_to_known`: the entry the object contributes, if any. */
  function SaveToKnown(prefix: string, o: StoreObject): (r: Option<KnownKey>)
    requires |prefix| < |o.key| && o.key[..|prefix|] == prefix
    ensures r.Some? <==> o.key[|prefix|] == 'i'
    ensures r.Some? ==> prefix + r.value.name == o.key
    ensures r.Some? ==> r.value.size == o.size && r.value.mtime == o.lastModified
  {
    var name := RelativeName(prefix, o.key);
    assert o.key == prefix + name;
    if name[0] != 'i' then None else Some(Entry(prefix, o))
  }

  /** The loop over the listing that appends each accepted entry, in listing
      order. */
  function BuildCatalog(prefix: string, listing: seq<StoreObject>): (r: seq<KnownKey>)
    requires Listed(prefix, listing)
    ensures |r| <= |listing|
    ensures forall i :: 0 <= i < |r| ==> IsImageName(r[i].name)
  {
    if listing == [] then []
    else
      var rest := BuildCatalog(prefix, listing[1..]);
      match SaveToKnown(prefix, listing[0])
      case None => rest
      case Some(k) => [k] + rest
  }

  /** Whether an entry passes the `i` filter of `save_to_known`. */
  function IsImageEntry(): KnownKey -> bool
  {
    (k: KnownKey) => IsImageName(k.name)
  }

  /** The catalog is exactly the image entries of the listing, in listing
      order. */
  lemma {:induction false} BuildCatalogIsImageFilter(prefix: string, listing: seq<StoreObject>)
    requires Listed(prefix, listing)
    ensures BuildCatalog(prefix, listing) == Filter(IsImageEntry(), Entries(prefix, listing))
  {
    if listing != [] {
      BuildCatalogCons(prefix, listing);
      BuildCatalogIsImageFilter(prefix, listing[1..]);
      var es := Entries(prefix, listing);
      assert es[1..] == Entries(prefix, listing[1..]);
      assert es[0] == Entry(prefix, listing[0]);
    }
  }

  /** Every catalog entry is the entry of some listed object. */
  lemma BuildCatalogSound(prefix: string, listing: seq<StoreObject>, i: nat)
    requires Listed(prefix, listing)
    requires i < |BuildCatalog(prefix, listing)|
    ensures BuildCatalog(prefix, listing)[i] in Entries(prefix, listing)
  {
    BuildCatalogIsImageFilter(prefix, listing);
    FilterSound(IsImageEntry(), Entries(prefix, listing), i);
  }

  /** Every listed image object is catalogued. */
  lemma BuildCatalogComplete(prefix: string, listing: seq<StoreObject>, j: nat)
    requires Listed(prefix, listing)
    requires j < |listing| && IsImageName(RelativeName(prefix, listing[j].key))
    ensures Entry(prefix, listing[j]) in BuildCatalog(prefix, listing)
  {
    BuildCatalogIsImageFilter(prefix, listing);
    var es := Entries(prefix, listing);
    assert es[j] == Entry(prefix, listing[j]);
    assert IsImageEntry()(es[j]);
    FilterComplete(IsImageEntry(), es, j);
  }

  /** The key an entry was catalogued from is recovered from its name. */
  lemma EntryKey(prefix: string, o: StoreObject)
    requires |prefix| <= |o.key| && o.key[..|prefix|] == prefix
    ensures prefix + Entry(prefix, o).name == o.key
  {
    assert o.key == o.key[..|prefix|] + o.key[|prefix|..];
  }

  /** Keys under one prefix are equal only when their relative names are. */
  lemma PrefixCancel(prefix: string, a: string, b: string)
    ensures prefix + a == prefix + b ==> a == b
  {
    assert (prefix + a)[|prefix|..] == a;
    assert (prefix + b)[|prefix|..] == b;
  }

  /** Whether an object survives a batch of deletes. */
  function StillStored(deletes: seq<string>): StoreObject -> bool
  {
    (o: StoreObject) => o.key !in deletes
  }

  /** Whether the object an entry was catalogued from survives the deletes. */
  function EntryStillStored(prefix: string, deletes: seq<string>): KnownKey -> bool
  {
    (k: KnownKey) => prefix + k.name !in deletes
  }

  /** The store left after a batch of deletes is still a listing under the prefix. */
  lemma ListedAfterDeletes(prefix: string, listing: seq<StoreObject>, deletes: seq<string>)
    requires Listed(prefix, listing)
    ensures Listed(prefix, Filter(StillStored(deletes), listing))
  {
    var rest := Filter(StillStored(deletes), listing);
    forall i | 0 <= i < |rest|
      ensures |prefix| < |rest[i].key| && rest[i].key[..|prefix|] == prefix
    {
      FilterSound(StillStored(deletes), listing, i);
      var j :| 0 <= j < |listing| && listing[j] == rest[i];
    }
  }

  /** The catalog of one object. */
  function EntryOf(prefix: string, o: StoreObject): seq<KnownKey>
  {
    if IsImageName(RelativeName(prefix, o.key)) then [Entry(prefix, o)] else []
  }

  /** The catalog of a non-empty listing, one object at a time. */
  lemma BuildCatalogCons(prefix: string, listing: seq<StoreObject>)
    requires Listed(prefix, listing) && listing != []
    ensures Listed(prefix, listing[1..])
    ensures BuildCatalog(prefix, listing) == EntryOf(prefix, listing[0]) + BuildCatalog(prefix, listing[1..])
  {
    assert Listed(prefix, listing[1..]) by {
      forall i | 0 <= i < |listing| - 1
        ensures |prefix| < |listing[1..][i].key| && listing[1..][i].key[..|prefix|] == prefix
      {
        assert listing[1..][i] == listing[i + 1];
      }
    }
  }

  /** Cataloguing the store after deletes gives the old catalog without the
      entries whose objects were deleted. */
  lemma {:induction false} BuildCatalogAfterDeletes(prefix: string, listing: seq<StoreObject>, deletes: seq<string>)
    requires Listed(prefix, listing)
    ensures Listed(prefix, Filter(StillStored(deletes), listing))
    ensures BuildCatalog(prefix, Filter(StillStored(deletes), listing))
      == Filter(EntryStillStored(prefix, deletes), BuildCatalog(prefix, listing))
  {
    ListedAfterDeletes(prefix, listing, deletes);
    if listing != [] {
      var o, tail := listing[0], listing[1..];
      var p, q := StillStored(deletes), EntryStillStored(prefix, deletes);
      BuildCatalogCons(prefix, listing);
      BuildCatalogAfterDeletes(prefix, tail, deletes);
      var head := EntryOf(prefix, o);
      assert BuildCatalog(prefix, listing) == head + BuildCatalog(prefix, tail);
      FilterAppend(q, head, BuildCatalog(prefix, tail));
      EntryKey(prefix, o);
      assert Filter(q, head) == if p(o) then head else [];
      var kept := Filter(p, tail);
      if p(o) {
        var l' := [o] + kept;
        assert Filter(p, listing) == l';
        assert l'[1..] == kept;
        BuildCatalogCons(prefix, l');
      } else {
        assert Filter(p, listing) == kept;
      }
    }
  }

  /** The index document's object as the store holds it once written: its
      key, and whatever size and modification time the store records. */
  function IndexObject(prefix: string, size: nat, time: int): StoreObject
  {
    StoreObject(prefix + IndexName, size, time)
  }

  /** The store after the index write: any earlier copy of the index is
      replaced by the new one, and every other object is untouched. */
  function WithIndex(prefix: string, store: seq<StoreObject>, size: nat, time: int): seq<StoreObject>
  {
    Filter(StillStored([prefix + IndexName]), store) + [IndexObject(prefix, size, time)]
  }

  /** Writing the index leaves the catalog of the store unchanged: the index
      document's relative name does not start with `i`, so it is never
      catalogued, whether a copy was listed before or not. */
  lemma BuildCatalogIgnoresIndex(prefix: string, store: seq<StoreObject>, size: nat, time: int)
    requires Listed(prefix, store)
    ensures Listed(prefix, WithIndex(prefix, store, size, time))
    ensures BuildCatalog(prefix, WithIndex(prefix, store, size, time)) == BuildCatalog(prefix, store)
  {
    var idx := prefix + IndexName;
    var rest := Filter(StillStored([idx]), store);
    var o := IndexObject(prefix, size, time);
    var w := WithIndex(prefix, store, size, time);
    BuildCatalogAfterDeletes(prefix, store, [idx]);
    var c := BuildCatalog(prefix, store);
    forall i | 0 <= i < |c| ensures EntryStillStored(prefix, [idx])(c[i]) {
      assert (prefix + c[i].name)[|prefix|] == c[i].name[0] == 'i';
      assert idx[|prefix|] == '_';
    }
    FilterKeepsPrefix(EntryStillStored(prefix, [idx]), c, |c|);
    assert c[..|c|] == c;
    assert Listed(prefix, w) by {
      forall i | 0 <= i < |w| ensures |prefix| < |w[i].key| && w[i].key[..|prefix|] == prefix {
        if i < |rest| {
          assert w[i] == rest[i];
        } else {
          assert w[i] == o;
          assert o.key[..|prefix|] == prefix;
        }
      }
    }
    BuildCatalogIsImageFilter(prefix, w);
    BuildCatalogIsImageFilter(prefix, rest);
    MapAppend((x: StoreObject) => Entry(prefix, x), rest, [o]);
    FilterAppend(IsImageEntry(), Entries(prefix, rest), Entries(prefix, [o]));
    assert (prefix + IndexName)[|prefix|..] == IndexName;
    assert Filter(IsImageEntry(), Entries(prefix, [o])) == [];
  }

  /** A catalog entry's name is not the relative name of a key that the
      listing does not hold. */
  lemma {:induction false} CatalogNameFromListing(prefix: string, listing: seq<StoreObject>, key: string)
    requires Listed(prefix, listing)
    requires key !in Keys(listing)
    requires |prefix| <= |key| && key[..|prefix|] == prefix
    ensures RelativeName(prefix, key) !in Names(BuildCatalog(prefix, listing))
  {
    var r := BuildCatalog(prefix, listing);
    assert key == prefix + RelativeName(prefix, key);
    forall i | 0 <= i < |r| ensures Names(r)[i] != RelativeName(prefix, key) {
      BuildCatalogSound(prefix, listing, i);
      var m :| 0 <= m < |listing| && r[i] == Entries(prefix, listing)[m];
      EntryKey(prefix, listing[m]);
      assert Keys(listing)[m] == listing[m].key;
    }
  }

  /** Distinct store keys give distinct catalog names. */
  lemma {:induction false} CatalogNamesDistinct(prefix: string, listing: seq<StoreObject>)
    requires Listed(prefix, listing)
    requires NoDuplicates(Keys(listing))
    ensures NoDuplicates(Names(BuildCatalog(prefix, listing)))
  {
    if listing != [] {
      var o, tail := listing[0], listing[1..];
      BuildCatalogCons(prefix, listing);
      var keys := Keys(listing);
      NoDuplicatesTail(keys);
      assert Keys(tail) == keys[1..];
      CatalogNamesDistinct(prefix, tail);
      var rest := BuildCatalog(prefix, tail);
      if IsImageName(RelativeName(prefix, o.key)) {
        CatalogNameFromListing(prefix, tail, o.key);
        NoDuplicatesCons(Entry(prefix, o).name, Names(rest));
        assert Names([Entry(prefix, o)] + rest) == [Entry(prefix, o).name] + Names(rest);
      }
    }
  }

  function Names(ks: seq<KnownKey>): seq<string>
  {
    Map((k: KnownKey) => k.name, ks)
  }

  function MTimes(ks: seq<KnownKey>): seq<int>
  {
    Map((k: KnownKey) => k.mtime, ks)
  }

  function Keys(listing: seq<StoreObject>): seq<string>
  {
    Map((o: StoreObject) => o.key, listing)
  }

  function TotalSize(ks: seq<KnownKey>): nat
  {
    if ks == [] then 0 else ks[0].size + TotalSize(ks[1..])
  }

  lemma {:induction false} TotalSizeAppend(a: seq<KnownKey>, b: seq<KnownKey>)
    ensures TotalSize(a + b) == TotalSize(a) + TotalSize(b)
  {
    if a == [] {
      assert a + b == b;
    } else {
      assert (a + b)[1..] == a[1..] + b;
      TotalSizeAppend(a[1..], b);
    }
  }

  /** The total size of the first `n + 1` entries adds the size of entry `n`. */
  lemma TotalSizeExtend(s: seq<KnownKey>, n: nat)
    requires n < |s|
    ensures TotalSize(s[..n + 1]) == TotalSize(s[..n]) + s[n].size
  {
    assert s[..n + 1] == s[..n] + [s[n]];
    TotalSizeAppend(s[..n], [s[n]]);
  }

  /** Totals of longer prefixes are never smaller. */
  lemma {:induction false} TotalSizePrefixMonotone(s: seq<KnownKey>, i: nat, j: nat)
    requires i <= j <= |s|
    ensures TotalSize(s[..i]) <= TotalSize(s[..j])
    decreases j - i
  {
    if i < j {
      TotalSizeExtend(s, i);
      TotalSizePrefixMonotone(s, i + 1, j);
    }
  }

  lemma {:induction false} TotalSizeWithout(s: seq<KnownKey>, i: nat)
    requires i < |s|
    ensures TotalSize(s) == TotalSize(Without(s, i)) + s[i].size
  {
    assert s == s[..i] + ([s[i]] + s[i+1..]);
    TotalSizeAppend(s[..i], [s[i]] + s[i+1..]);
    TotalSizeAppend(s[..i], s[i+1..]);
  }

  /** Reordering the catalog does not change its total size. */
  lemma {:induction false} TotalSizePermutation(a: seq<KnownKey>, b: seq<KnownKey>)
    requires multiset(a) == multiset(b)
    ensures TotalSize(a) == TotalSize(b)
    decreases |a|
  {
    if a == [] {
      assert |b| == |multiset(b)| == 0;
    } else {
      assert a[0] in multiset(b);
      var i :| 0 <= i < |b| && b[i] == a[0];
      WithoutPermutation(a, b, 0, i);
      TotalSizePermutation(Without(a, 0), Without(b, i));
      TotalSizeWithout(a, 0);
      TotalSizeWithout(b, i);
    }
  }
}
