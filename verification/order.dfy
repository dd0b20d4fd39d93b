/** The newest-first ordering of the catalog: `KnownKeyCmpDate` and the sort
    that uses it. */
module Order {
  import opened Seqs
  import opened Catalog

  /** The comparison handed to `list.sort`: negative when `a` belongs before
      `b`, zero on equal times, positive when `b` belongs first. */
  function KnownKeyCmpDate(a: KnownKey, b: KnownKey): (r: int)
    ensures r < 0 <==> a.mtime > b.mtime
    ensures r == 0 <==> a.mtime == b.mtime
  {
    b.mtime - a.mtime
  }

  /** Every entry is at least as new as every entry after it. */
  predicate NewestFirst(s: seq<KnownKey>)
  {
    forall i, j :: 0 <= i < j < |s| ==> s[i].mtime >= s[j].mtime
  }

  /** An entry at least as new as all of a newest-first sequence may head it. */
  lemma PrependNewest(x: KnownKey, t: seq<KnownKey>)
    requires NewestFirst(t)
    requires forall j :: 0 <= j < |t| ==> t[j].mtime <= x.mtime
    ensures NewestFirst([x] + t)
  {
    var r := [x] + t;
    forall i, j | 0 <= i < j < |r| ensures r[i].mtime >= r[j].mtime {
      assert r[j] == t[j - 1];
      if i > 0 { assert r[i] == t[i - 1]; }
    }
  }

  /** Every entry of a permutation of `s` plus `k` is `k` or an entry of `s`. */
  lemma BoundByMultiset(k: KnownKey, s: seq<KnownKey>, t: seq<KnownKey>, bound: int)
    requires multiset(t) == multiset(s) + multiset{k}
    requires k.mtime <= bound
    requires forall m :: 0 <= m < |s| ==> s[m].mtime <= bound
    ensures forall j :: 0 <= j < |t| ==> t[j].mtime <= bound
  {
    forall j | 0 <= j < |t| ensures t[j].mtime <= bound {
      assert t[j] in multiset(t);
      if t[j] != k {
        assert t[j] in multiset(s);
        var m :| 0 <= m < |s| && s[m] == t[j];
      }
    }
  }

  /** Places `k` in front of the first entry it compares at most equal to. */
  function Insert(k: KnownKey, s: seq<KnownKey>): (r: seq<KnownKey>)
    requires NewestFirst(s)
    ensures NewestFirst(r)
    ensures multiset(r) == multiset(s) + multiset{k}
  {
    if s == [] || KnownKeyCmpDate(k, s[0]) <= 0 then
      PrependNewest(k, s);
      [k] + s
    else
      var rest := s[1..];
      assert s == [s[0]] + rest;
      var tail := Insert(k, rest);
      BoundByMultiset(k, rest, tail, s[0].mtime);
      PrependNewest(s[0], tail);
      [s[0]] + tail
  }

  /** `known_keys.sort(KnownKeyCmpDate)`, as an insertion sort. */
  function SortByDate(s: seq<KnownKey>): (r: seq<KnownKey>)
    ensures NewestFirst(r)
    ensures multiset(r) == multiset(s)
  {
    if s == [] then []
    else
      assert s == [s[0]] + s[1..];
      Insert(s[0], SortByDate(s[1..]))
  }

  /** Two newest-first orders of the same entries agree on the time at every
      position: they can differ only in how entries with equal times are laid
      out. */
  lemma NewestFirstAgreeOnTimes(a: seq<KnownKey>, b: seq<KnownKey>)
    requires NewestFirst(a) && NewestFirst(b)
    requires multiset(a) == multiset(b)
    ensures MTimes(a) == MTimes(b)
  {
    MapPreservesPermutation((k: KnownKey) => k.mtime, a, b);
    NonIncreasingUnique(MTimes(a), MTimes(b));
  }

  /** When no two entries share a time, the newest-first order is unique. */
  lemma NewestFirstUnique(a: seq<KnownKey>, b: seq<KnownKey>)
    requires NewestFirst(a) && NewestFirst(b)
    requires multiset(a) == multiset(b)
    requires NoDuplicates(MTimes(a))
    ensures a == b
  {
    NewestFirstAgreeOnTimes(a, b);
    assert |a| == |multiset(a)| == |b|;
    forall i | 0 <= i < |a| ensures a[i] == b[i] {
      assert b[i] in multiset(a);
      var j :| 0 <= j < |a| && a[j] == b[i];
      assert MTimes(a)[j] == MTimes(a)[i];
    }
  }
}
