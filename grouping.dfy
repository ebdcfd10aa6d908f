/** The group-by-and-sum that pandas performs in `df.groupby(key)[col].sum()`: one entry per
    distinct key, keys in ascending order, each holding the sum of the column over the rows
    with that key. Also the descending re-ordering by total used by `sort_values(ascending=False)`.
    A grouped series is a sequence of (key, total) pairs. */
module Grouping {

  import opened Order

  /** Keys strictly increase along the series. */
  ghost predicate Ascending<K>(g: seq<(K, int)>, less: (K, K) -> bool)
  {
    forall i, j :: 0 <= i < j < |g| ==> less(g[i].0, g[j].0)
  }

  /** No key occurs twice. */
  ghost predicate DistinctKeys<K>(g: seq<(K, int)>)
  {
    forall i, j :: 0 <= i < j < |g| ==> g[i].0 != g[j].0
  }

  /** Totals never increase along the series. */
  ghost predicate NonIncreasing<K>(g: seq<(K, int)>)
  {
    forall i, j :: 0 <= i < j < |g| ==> g[i].1 >= g[j].1
  }

  function Keys<K>(g: seq<(K, int)>): set<K>
  {
    if g == [] then {} else {g[0].0} + Keys(g[1..])
  }

  /** The keys occurring among the rows. */
  function KeySet<T, K>(xs: seq<T>, key: T -> K): set<K>
  {
    if xs == [] then {} else {key(xs[0])} + KeySet(xs[1..], key)
  }

  lemma {:induction false} KeysMember<K>(g: seq<(K, int)>, k: K)
    ensures k in Keys(g) <==> exists i :: 0 <= i < |g| && g[i].0 == k
    decreases |g|
  {
    if g != [] {
      KeysMember(g[1..], k);
      if exists i :: 0 <= i < |g| && g[i].0 == k {
        var i :| 0 <= i < |g| && g[i].0 == k;
        if i > 0 { assert g[1..][i - 1] == g[i]; }
      }
      if exists i :: 0 <= i < |g[1..]| && g[1..][i].0 == k {
        var i :| 0 <= i < |g[1..]| && g[1..][i].0 == k;
        assert g[1..][i] == g[i + 1];
      }
    }
  }

  lemma {:induction false} KeySetMember<T, K>(xs: seq<T>, key: T -> K, k: K)
    ensures k in KeySet(xs, key) <==> exists i :: 0 <= i < |xs| && key(xs[i]) == k
    decreases |xs|
  {
    if xs != [] {
      KeySetMember(xs[1..], key, k);
      if exists i :: 0 <= i < |xs| && key(xs[i]) == k {
        var i :| 0 <= i < |xs| && key(xs[i]) == k;
        if i > 0 { assert xs[1..][i - 1] == xs[i]; }
      }
      if exists i :: 0 <= i < |xs[1..]| && key(xs[1..][i]) == k {
        var i :| 0 <= i < |xs[1..]| && key(xs[1..][i]) == k;
        assert xs[1..][i] == xs[i + 1];
      }
    }
  }

  /** Sum of val over all rows. */
  function SumOf<T>(xs: seq<T>, val: T -> int): int
  {
    if xs == [] then 0 else val(xs[0]) + SumOf(xs[1..], val)
  }

  /** Sum of val over the rows whose key is k: the reference meaning of one group's total. */
  function SumWhere<T, K(==)>(xs: seq<T>, key: T -> K, val: T -> int, k: K): int
  {
    if xs == [] then 0
    else (if key(xs[0]) == k then val(xs[0]) else 0) + SumWhere(xs[1..], key, val, k)
  }

  /** Sum of all totals of a series. */
  function Total<K>(g: seq<(K, int)>): int
  {
    if g == [] then 0 else g[0].1 + Total(g[1..])
  }

  /** The total held for k, or 0 when k is not a key. */
  function Lookup<K(==)>(g: seq<(K, int)>, k: K): int
  {
    if g == [] then 0 else if g[0].0 == k then g[0].1 else Lookup(g[1..], k)
  }

  /** Adds v to the group of k, creating that group at its place in key order. */
  function AddTo<K(==)>(g: seq<(K, int)>, k: K, v: int, less: (K, K) -> bool): seq<(K, int)>
  {
    if g == [] then [(k, v)]
    else if g[0].0 == k then [(k, g[0].1 + v)] + g[1..]
    else if less(k, g[0].0) then [(k, v)] + g
    else [g[0]] + AddTo(g[1..], k, v, less)
  }

  /** The grouped sums of val by key, in ascending key order. */
  function GroupSum<T, K(==)>(xs: seq<T>, key: T -> K, val: T -> int, less: (K, K) -> bool): seq<(K, int)>
  {
    if xs == [] then [] else AddTo(GroupSum(xs[1..], key, val, less), key(xs[0]), val(xs[0]), less)
  }

  // ---------------------------------------------------------------- AddTo

  lemma {:induction false} AddToKeys<K>(g: seq<(K, int)>, k: K, v: int, less: (K, K) -> bool)
    ensures Keys(AddTo(g, k, v, less)) == Keys(g) + {k}
    decreases |g|
  {
    var r := AddTo(g, k, v, less);
    if g == [] {
    } else if g[0].0 == k {
      assert r[1..] == g[1..];
    } else if less(k, g[0].0) {
      assert r[1..] == g;
    } else {
      AddToKeys(g[1..], k, v, less);
      assert r[1..] == AddTo(g[1..], k, v, less);
    }
  }

  lemma {:induction false} AddToTotal<K>(g: seq<(K, int)>, k: K, v: int, less: (K, K) -> bool)
    ensures Total(AddTo(g, k, v, less)) == Total(g) + v
    decreases |g|
  {
    if g != [] && g[0].0 != k && !less(k, g[0].0) {
      AddToTotal(g[1..], k, v, less);
      assert AddTo(g, k, v, less)[1..] == AddTo(g[1..], k, v, less);
    } else if g != [] && g[0].0 == k {
      assert AddTo(g, k, v, less)[1..] == g[1..];
    } else if g != [] {
      assert AddTo(g, k, v, less)[1..] == g;
    }
  }

  lemma {:induction false} AddToAscending<K(!new)>(g: seq<(K, int)>, k: K, v: int, less: (K, K) -> bool)
    requires StrictTotalOrder(less) && Ascending(g, less)
    ensures Ascending(AddTo(g, k, v, less), less)
    decreases |g|
  {
    if g != [] && g[0].0 != k && !less(k, g[0].0) {
      var t := AddTo(g[1..], k, v, less);
      AddToAscending(g[1..], k, v, less);
      AddToKeys(g[1..], k, v, less);
      forall j | 0 <= j < |t| ensures less(g[0].0, t[j].0) {
        KeysMember(t, t[j].0);
        if t[j].0 != k {
          KeysMember(g[1..], t[j].0);
          var m :| 0 <= m < |g[1..]| && g[1..][m].0 == t[j].0;
          assert g[1..][m] == g[m + 1];
        }
      }
    }
  }

  lemma {:induction false} LookupAbsent<K>(g: seq<(K, int)>, k: K)
    requires k !in Keys(g)
    ensures Lookup(g, k) == 0
    decreases |g|
  {
    if g != [] {
      LookupAbsent(g[1..], k);
    }
  }

  /** In an ascending series nothing before a key equals it, so lookup finds its entry. */
  lemma {:induction false} LookupAt<K(!new)>(g: seq<(K, int)>, less: (K, K) -> bool, i: nat)
    requires StrictTotalOrder(less) && Ascending(g, less) && i < |g|
    ensures Lookup(g, g[i].0) == g[i].1
    decreases i
  {
    if i > 0 {
      assert less(g[0].0, g[i].0);
      assert g[1..][i - 1] == g[i];
      LookupAt(g[1..], less, i - 1);
    }
  }

  lemma {:induction false} AddToLookup<K(!new)>(g: seq<(K, int)>, k: K, v: int, less: (K, K) -> bool, k': K)
    requires StrictTotalOrder(less) && Ascending(g, less)
    ensures Lookup(AddTo(g, k, v, less), k') == Lookup(g, k') + (if k' == k then v else 0)
    decreases |g|
  {
    if g == [] {
    } else if g[0].0 == k {
      if k' != k {
        assert AddTo(g, k, v, less)[1..] == g[1..];
      }
    } else if less(k, g[0].0) {
      if k' == k {
        assert k !in Keys(g) by {
          forall j | 0 <= j < |g| ensures g[j].0 != k {
            if j > 0 { assert less(g[0].0, g[j].0); }
          }
          KeysMember(g, k);
        }
        LookupAbsent(g, k);
      } else {
        assert AddTo(g, k, v, less)[1..] == g;
      }
    } else {
      if k' != g[0].0 {
        assert AddTo(g, k, v, less)[1..] == AddTo(g[1..], k, v, less);
        AddToLookup(g[1..], k, v, less, k');
      }
    }
  }

  // ---------------------------------------------------------------- GroupSum

  lemma {:induction false} GroupKeys<T, K>(xs: seq<T>, key: T -> K, val: T -> int, less: (K, K) -> bool)
    ensures Keys(GroupSum(xs, key, val, less)) == KeySet(xs, key)
    decreases |xs|
  {
    if xs != [] {
      GroupKeys(xs[1..], key, val, less);
      AddToKeys(GroupSum(xs[1..], key, val, less), key(xs[0]), val(xs[0]), less);
    }
  }

  lemma {:induction false} GroupAscending<T, K(!new)>(xs: seq<T>, key: T -> K, val: T -> int, less: (K, K) -> bool)
    requires StrictTotalOrder(less)
    ensures Ascending(GroupSum(xs, key, val, less), less)
    decreases |xs|
  {
    if xs != [] {
      GroupAscending(xs[1..], key, val, less);
      AddToAscending(GroupSum(xs[1..], key, val, less), key(xs[0]), val(xs[0]), less);
    }
  }

  lemma {:induction false} GroupLookup<T, K(!new)>(xs: seq<T>, key: T -> K, val: T -> int, less: (K, K) -> bool, k: K)
    requires StrictTotalOrder(less)
    ensures Lookup(GroupSum(xs, key, val, less), k) == SumWhere(xs, key, val, k)
    decreases |xs|
  {
    if xs != [] {
      GroupLookup(xs[1..], key, val, less, k);
      GroupAscending(xs[1..], key, val, less);
      AddToLookup(GroupSum(xs[1..], key, val, less), key(xs[0]), val(xs[0]), less, k);
    }
  }

  lemma {:induction false} GroupTotal<T, K>(xs: seq<T>, key: T -> K, val: T -> int, less: (K, K) -> bool)
    ensures Total(GroupSum(xs, key, val, less)) == SumOf(xs, val)
    decreases |xs|
  {
    if xs != [] {
      GroupTotal(xs[1..], key, val, less);
      AddToTotal(GroupSum(xs[1..], key, val, less), key(xs[0]), val(xs[0]), less);
    }
  }

  lemma AscendingDistinct<K(!new)>(g: seq<(K, int)>, less: (K, K) -> bool)
    requires StrictTotalOrder(less) && Ascending(g, less)
    ensures DistinctKeys(g)
  {
    forall i, j | 0 <= i < j < |g| ensures g[i].0 != g[j].0 {
      assert less(g[i].0, g[j].0);
    }
  }

  /** Everything pandas promises of `groupby(key)[col].sum()`: keys strictly ascending (so
      distinct), exactly the keys that occur, each total the sum over that key's rows, and
      the totals together equal to the column's sum. */
  lemma GroupSumSpec<T, K(!new)>(xs: seq<T>, key: T -> K, val: T -> int, less: (K, K) -> bool)
    requires StrictTotalOrder(less)
    ensures var g := GroupSum(xs, key, val, less);
      && Ascending(g, less)
      && DistinctKeys(g)
      && Keys(g) == KeySet(xs, key)
      && (forall i :: 0 <= i < |g| ==> g[i].1 == SumWhere(xs, key, val, g[i].0))
      && Total(g) == SumOf(xs, val)
  {
    var g := GroupSum(xs, key, val, less);
    GroupAscending(xs, key, val, less);
    AscendingDistinct(g, less);
    GroupKeys(xs, key, val, less);
    GroupTotal(xs, key, val, less);
    forall i | 0 <= i < |g| ensures g[i].1 == SumWhere(xs, key, val, g[i].0) {
      LookupAt(g, less, i);
      GroupLookup(xs, key, val, less, g[i].0);
    }
  }

  // ---------------------------------------------------------------- descending sort

  /** Places x before the first entry whose total does not exceed x's. */
  function InsertDesc<K>(x: (K, int), s: seq<(K, int)>): seq<(K, int)>
  {
    if s == [] then [x]
    else if x.1 >= s[0].1 then [x] + s
    else [s[0]] + InsertDesc(x, s[1..])
  }

  /** The series re-ordered by total, largest first. */
  function SortDesc<K>(g: seq<(K, int)>): seq<(K, int)>
  {
    if g == [] then [] else InsertDesc(g[0], SortDesc(g[1..]))
  }

  lemma {:induction false} InsertDescMultiset<K>(x: (K, int), s: seq<(K, int)>)
    ensures multiset(InsertDesc(x, s)) == multiset{x} + multiset(s)
    decreases |s|
  {
    if s != [] && x.1 < s[0].1 {
      InsertDescMultiset(x, s[1..]);
      assert s == [s[0]] + s[1..];
    }
  }

  lemma {:induction false} InsertDescKeys<K>(x: (K, int), s: seq<(K, int)>)
    ensures Keys(InsertDesc(x, s)) == {x.0} + Keys(s)
    decreases |s|
  {
    var r := InsertDesc(x, s);
    if s != [] {
      if x.1 >= s[0].1 {
        assert r[1..] == s;
      } else {
        InsertDescKeys(x, s[1..]);
        assert r[1..] == InsertDesc(x, s[1..]);
      }
    }
  }

  lemma {:induction false} InsertDescTotal<K>(x: (K, int), s: seq<(K, int)>)
    ensures Total(InsertDesc(x, s)) == x.1 + Total(s)
    decreases |s|
  {
    var r := InsertDesc(x, s);
    if s != [] {
      if x.1 >= s[0].1 {
        assert r[1..] == s;
      } else {
        InsertDescTotal(x, s[1..]);
        assert r[1..] == InsertDesc(x, s[1..]);
      }
    }
  }

  lemma {:induction false} InsertDescOrdered<K>(x: (K, int), s: seq<(K, int)>)
    requires NonIncreasing(s)
    ensures NonIncreasing(InsertDesc(x, s))
    decreases |s|
  {
    if s != [] && x.1 < s[0].1 {
      var t := InsertDesc(x, s[1..]);
      InsertDescOrdered(x, s[1..]);
      InsertDescMultiset(x, s[1..]);
      forall j | 0 <= j < |t| ensures s[0].1 >= t[j].1 {
        assert t[j] in multiset(t);
        if t[j] != x {
          assert t[j] in s[1..];
        }
      }
    }
  }

  /** The tail of a series with distinct keys has distinct keys and lacks the head's key. */
  lemma DistinctTail<K>(s: seq<(K, int)>)
    requires DistinctKeys(s) && s != []
    ensures DistinctKeys(s[1..])
    ensures s[0].0 !in Keys(s[1..])
  {
    forall i, j | 0 <= i < j < |s[1..]| ensures s[1..][i].0 != s[1..][j].0 {
      assert s[1..][i] == s[i + 1] && s[1..][j] == s[j + 1];
    }
    KeysMember(s[1..], s[0].0);
    forall i | 0 <= i < |s[1..]| ensures s[1..][i].0 != s[0].0 {
      assert s[1..][i] == s[i + 1];
    }
  }

  lemma {:induction false} InsertDescDistinct<K>(x: (K, int), s: seq<(K, int)>)
    requires DistinctKeys(s) && x.0 !in Keys(s)
    ensures DistinctKeys(InsertDesc(x, s))
    decreases |s|
  {
    if s != [] {
      if x.1 >= s[0].1 {
        forall j | 0 <= j < |s| ensures x.0 != s[j].0 { KeysMember(s, x.0); }
      } else {
        var t := InsertDesc(x, s[1..]);
        DistinctTail(s);
        InsertDescDistinct(x, s[1..]);
        InsertDescKeys(x, s[1..]);
        forall j | 0 <= j < |t| ensures s[0].0 != t[j].0 {
          KeysMember(t, t[j].0);
        }
      }
    }
  }

  lemma {:induction false} SortDescPermutes<K>(g: seq<(K, int)>)
    ensures multiset(SortDesc(g)) == multiset(g)
    decreases |g|
  {
    if g != [] {
      SortDescPermutes(g[1..]);
      InsertDescMultiset(g[0], SortDesc(g[1..]));
      assert g == [g[0]] + g[1..];
    }
  }

  lemma {:induction false} SortDescKeysTotal<K>(g: seq<(K, int)>)
    ensures Keys(SortDesc(g)) == Keys(g)
    ensures Total(SortDesc(g)) == Total(g)
    decreases |g|
  {
    if g != [] {
      SortDescKeysTotal(g[1..]);
      InsertDescKeys(g[0], SortDesc(g[1..]));
      InsertDescTotal(g[0], SortDesc(g[1..]));
    }
  }

  lemma {:induction false} SortDescOrderedDistinct<K>(g: seq<(K, int)>)
    requires DistinctKeys(g)
    ensures NonIncreasing(SortDesc(g))
    ensures DistinctKeys(SortDesc(g))
    decreases |g|
  {
    if g != [] {
      var t := SortDesc(g[1..]);
      DistinctTail(g);
      SortDescOrderedDistinct(g[1..]);
      SortDescKeysTotal(g[1..]);
      InsertDescOrdered(g[0], t);
      InsertDescDistinct(g[0], t);
    }
  }

  /** `sort_values(ascending=False)` on a grouped series: totals non-increasing, the same
      entries (a permutation), the same keys, each still once, and the same grand total. */
  lemma SortDescSpec<K>(g: seq<(K, int)>)
    requires DistinctKeys(g)
    ensures var r := SortDesc(g);
      && NonIncreasing(r)
      && multiset(r) == multiset(g)
      && Keys(r) == Keys(g)
      && DistinctKeys(r)
      && Total(r) == Total(g)
  {
    SortDescPermutes(g);
    SortDescKeysTotal(g);
    SortDescOrderedDistinct(g);
  }
}
