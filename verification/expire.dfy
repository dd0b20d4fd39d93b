/** The expiry walk of one scan: `expire_1` applied to every catalog entry in
    newest-first order with a running byte total `used_bytes`. */
module Expire {
  import opened Seqs
  import opened Catalog

  /** The running total after a step, and the store deletes the step issued. */
  datatype Walk = Walk(used: nat, deletes: seq<string>)

  /** One call of `expire_1`. */
  function Expire1(maxsize: nat, prefix: string, used: nat, k: KnownKey): (r: Walk)
    ensures r.deletes == [] <==> used + k.size <= maxsize
    ensures r.deletes == [] ==> r.used == used + k.size && r.used <= maxsize
    ensures r.deletes != [] ==> r.used == maxsize + 1 && r.deletes == [prefix + k.name]
  {
    if k.size + used > maxsize then Walk(maxsize + 1, [prefix + k.name])
    else Walk(used + k.size, [])
  }

  /** The loop `for kkey in self.known_keys: self.expire_1(...)`, starting
      from the running total `used`. */
  function ExpireAll(maxsize: nat, prefix: string, used: nat, s: seq<KnownKey>): (r: Walk)
    ensures |r.deletes| <= |s|
    decreases |s|
  {
    if s == [] then Walk(used, [])
    else
      var step := Expire1(maxsize, prefix, used, s[0]);
      var rest := ExpireAll(maxsize, prefix, step.used, s[1..]);
      Walk(rest.used, step.deletes + rest.deletes)
  }

  /** The store keys of the given entries, in order. */
  function DeleteKeys(prefix: string, s: seq<KnownKey>): seq<string>
  {
    Map((k: KnownKey) => prefix + k.name, s)
  }

  /** The first `n` entries fit in the budget on top of `used`, and the first
      `n + 1` do not (when there is an entry `n`). */
  predicate IsKeptPrefix(maxsize: nat, used: nat, s: seq<KnownKey>, n: nat)
  {
    && n <= |s|
    && used + TotalSize(s[..n]) <= maxsize
    && (n < |s| ==> used + TotalSize(s[..n + 1]) > maxsize)
  }

  lemma DeleteKeysCons(prefix: string, s: seq<KnownKey>)
    requires s != []
    ensures DeleteKeys(prefix, s) == [prefix + s[0].name] + DeleteKeys(prefix, s[1..])
  {
  }

  /** Once the total is pinned above the budget, every remaining entry is
      evicted, each with exactly one delete, in order. */
  lemma {:induction false} PinnedEvictsAll(maxsize: nat, prefix: string, used: nat, s: seq<KnownKey>)
    requires used > maxsize
    ensures ExpireAll(maxsize, prefix, used, s)
      == Walk(if s == [] then used else maxsize + 1, DeleteKeys(prefix, s))
  {
    if s != [] {
      PinnedEvictsAll(maxsize, prefix, maxsize + 1, s[1..]);
      DeleteKeysCons(prefix, s);
    }
  }

  /** The walk keeps exactly the longest prefix that fits in the budget and
      evicts the whole rest: one delete per evicted entry, in order, none for
      a kept entry. The final total is the kept bytes when nothing was
      evicted, and `maxsize + 1` otherwise. */
  lemma {:induction false} ExpireAllKeepsPrefix(maxsize: nat, prefix: string, used: nat, s: seq<KnownKey>, n: nat)
    requires used <= maxsize
    requires IsKeptPrefix(maxsize, used, s, n)
    ensures ExpireAll(maxsize, prefix, used, s)
      == Walk(if n == |s| then used + TotalSize(s) else maxsize + 1, DeleteKeys(prefix, s[n..]))
    decreases |s|
  {
    if s == [] {
    } else if n == 0 {
      assert s[..1] == [s[0]];
      assert TotalSize(s[..1]) == s[0].size;
      PinnedEvictsAll(maxsize, prefix, maxsize + 1, s[1..]);
      DeleteKeysCons(prefix, s);
    } else {
      var rest := s[1..];
      assert s[..n] == [s[0]] + rest[..n - 1];
      assert TotalSize(s[..n]) == s[0].size + TotalSize(rest[..n - 1]);
      if n < |s| {
        assert s[..n + 1] == [s[0]] + rest[..n];
        assert TotalSize(s[..n + 1]) == s[0].size + TotalSize(rest[..n]);
      } else {
        assert s[..n] == s;
        assert rest[..n - 1] == rest;
      }
      assert IsKeptPrefix(maxsize, used + s[0].size, rest, n - 1);
      ExpireAllKeepsPrefix(maxsize, prefix, used + s[0].size, rest, n - 1);
      assert rest[n - 1..] == s[n..];
    }
  }

  /** Some prefix length always satisfies `IsKeptPrefix`. */
  lemma {:induction false} KeptPrefixExists(maxsize: nat, used: nat, s: seq<KnownKey>)
    requires used <= maxsize
    ensures exists n: nat :: IsKeptPrefix(maxsize, used, s, n)
    decreases |s|
  {
    if s == [] {
      assert IsKeptPrefix(maxsize, used, s, 0);
    } else if used + s[0].size > maxsize {
      assert s[..1] == [s[0]];
      assert IsKeptPrefix(maxsize, used, s, 0);
    } else {
      var rest := s[1..];
      KeptPrefixExists(maxsize, used + s[0].size, rest);
      var m: nat :| IsKeptPrefix(maxsize, used + s[0].size, rest, m);
      assert s[..m + 1] == [s[0]] + rest[..m];
      if m < |rest| {
        assert s[..m + 2] == [s[0]] + rest[..m + 1];
      }
      assert IsKeptPrefix(maxsize, used, s, m + 1);
    }
  }

  /** At most one prefix length satisfies `IsKeptPrefix`: sizes are
      non-negative, so prefix totals only grow. */
  lemma KeptPrefixUnique(maxsize: nat, used: nat, s: seq<KnownKey>, n1: nat, n2: nat)
    requires IsKeptPrefix(maxsize, used, s, n1)
    requires IsKeptPrefix(maxsize, used, s, n2)
    ensures n1 == n2
  {
    if n1 < n2 {
      TotalSizePrefixMonotone(s, n1 + 1, n2);
    } else if n2 < n1 {
      TotalSizePrefixMonotone(s, n2 + 1, n1);
    }
  }

  /** When all remaining entries fit, nothing is evicted. */
  lemma WithinBudgetEvictsNothing(maxsize: nat, prefix: string, used: nat, s: seq<KnownKey>)
    requires used + TotalSize(s) <= maxsize
    ensures ExpireAll(maxsize, prefix, used, s) == Walk(used + TotalSize(s), [])
  {
    assert s[..|s|] == s;
    ExpireAllKeepsPrefix(maxsize, prefix, used, s, |s|);
  }

  /** An entry larger than the whole budget is evicted even from an empty
      running total, and so is everything after it. */
  lemma OversizeHeadEvictsAll(maxsize: nat, prefix: string, s: seq<KnownKey>)
    requires s != [] && s[0].size > maxsize
    ensures ExpireAll(maxsize, prefix, 0, s) == Walk(maxsize + 1, DeleteKeys(prefix, s))
  {
    assert s[..1] == [s[0]];
    ExpireAllKeepsPrefix(maxsize, prefix, 0, s, 0);
  }

  /** Sizes 5, 5, 5 under a budget of 9: the first entry is kept, the second
      crosses the budget, and the third is evicted although it alone would
      still fit in the 4 bytes left. */
  lemma NoBackfillExample(prefix: string)
    ensures
      var a, b, c := KnownKey("i3", 5, 3), KnownKey("i2", 5, 2), KnownKey("i1", 5, 1);
      ExpireAll(9, prefix, 0, [a, b, c]) == Walk(10, [prefix + "i2", prefix + "i1"])
  {
    var a, b, c := KnownKey("i3", 5, 3), KnownKey("i2", 5, 2), KnownKey("i1", 5, 1);
    var s := [a, b, c];
    assert s[..1] == [a] && s[..2] == [a, b];
    assert TotalSize([a, b]) == 5 + TotalSize([b]) by {
      assert [a, b][1..] == [b];
    }
    ExpireAllKeepsPrefix(9, prefix, 0, s, 1);
    assert s[1..] == [b, c];
  }
}
