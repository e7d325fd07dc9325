/** Grouped sums: the result of a `GROUP BY ... SUM(...)` or of a pandas
    `groupby(...).sum()`, as a sequence of (key, total) rows.  Everything
    here is independent of what the keys are. */
module Groups {

  datatype Group<K> = Group(key: K, total: int)

  function Keys<K>(gs: seq<Group<K>>): set<K>
  {
    set g | g in gs :: g.key
  }

  /** No two rows share a key: one row per group. */
  predicate DistinctKeys<K(==)>(gs: seq<Group<K>>)
  {
    forall i, j :: 0 <= i < j < |gs| ==> gs[i].key != gs[j].key
  }

  /** Sum of all row totals. */
  function SumTotals<K>(gs: seq<Group<K>>): int
  {
    if |gs| == 0 then 0 else gs[0].total + SumTotals(gs[1..])
  }

  /** Sum of the totals of the rows whose key is `k`. */
  function SumKey<K(==)>(gs: seq<Group<K>>, k: K): int
  {
    if |gs| == 0 then 0
    else (if gs[0].key == k then gs[0].total else 0) + SumKey(gs[1..], k)
  }

  /** Sum of the totals of the rows whose key `f` sends to `l`. */
  function SumMapped<K, L(==)>(gs: seq<Group<K>>, f: K -> L, l: L): int
  {
    if |gs| == 0 then 0
    else (if f(gs[0].key) == l then gs[0].total else 0) + SumMapped(gs[1..], f, l)
  }

  lemma KeysCons<K>(g: Group<K>, gs: seq<Group<K>>)
    ensures Keys([g] + gs) == {g.key} + Keys(gs)
  {
    assert forall x :: x in [g] + gs <==> x == g || x in gs;
  }

  lemma KeysSplit<K>(gs: seq<Group<K>>)
    requires |gs| > 0
    ensures Keys(gs) == {gs[0].key} + Keys(gs[1..])
  {
    assert gs == [gs[0]] + gs[1..];
    KeysCons(gs[0], gs[1..]);
  }

  lemma {:induction false} DistinctCons<K>(g: Group<K>, gs: seq<Group<K>>)
    ensures DistinctKeys([g] + gs) <==> g.key !in Keys(gs) && DistinctKeys(gs)
  {
    var s := [g] + gs;
    assert forall i :: 0 <= i < |gs| ==> s[i + 1] == gs[i];
    if g.key in Keys(gs) {
      var x :| x in gs && x.key == g.key;
      var j :| 0 <= j < |gs| && gs[j] == x;
      assert s[0].key == s[j + 1].key;
    }
    if DistinctKeys(s) {
      forall i, j | 0 <= i < j < |gs|
        ensures gs[i].key != gs[j].key
      {
        assert s[i + 1].key != s[j + 1].key;
      }
    }
  }

  lemma DistinctSplit<K>(gs: seq<Group<K>>)
    requires |gs| > 0
    ensures DistinctKeys(gs) <==> gs[0].key !in Keys(gs[1..]) && DistinctKeys(gs[1..])
  {
    assert gs == [gs[0]] + gs[1..];
    DistinctCons(gs[0], gs[1..]);
  }

  /** Adding `v` to the group `k`: the row with that key grows, or a new row
      is appended when there is none yet. */
  function AddTo<K(==,!new)>(gs: seq<Group<K>>, k: K, v: int): (r: seq<Group<K>>)
    ensures Keys(r) == Keys(gs) + {k}
    ensures DistinctKeys(gs) ==> DistinctKeys(r)
    ensures SumTotals(r) == SumTotals(gs) + v
    ensures forall k' :: SumKey(r, k') == SumKey(gs, k') + (if k' == k then v else 0)
  {
    if |gs| == 0 then
      KeysCons(Group(k, v), []);
      [Group(k, v)]
    else if gs[0].key == k then
      AddToHead(gs, v);
      [Group(k, gs[0].total + v)] + gs[1..]
    else
      var rest := AddTo(gs[1..], k, v);
      AddToTail(gs, k, v, rest);
      [gs[0]] + rest
  }

  /** The row for `k` is the first one: only its total changes. */
  lemma AddToHead<K>(gs: seq<Group<K>>, v: int)
    requires |gs| > 0
    ensures var r := [Group(gs[0].key, gs[0].total + v)] + gs[1..];
            && Keys(r) == Keys(gs)
            && (DistinctKeys(gs) ==> DistinctKeys(r))
            && SumTotals(r) == SumTotals(gs) + v
            && forall k' :: SumKey(r, k') == SumKey(gs, k') + (if k' == gs[0].key then v else 0)
  {
    var h := Group(gs[0].key, gs[0].total + v);
    var r := [h] + gs[1..];
    KeysSplit(gs);
    KeysCons(h, gs[1..]);
    DistinctSplit(gs);
    DistinctCons(h, gs[1..]);
    assert r[1..] == gs[1..];
  }

  /** The row for `k` is further on: the first row is kept in front of the
      updated rest. */
  lemma AddToTail<K>(gs: seq<Group<K>>, k: K, v: int, rest: seq<Group<K>>)
    requires |gs| > 0 && gs[0].key != k
    requires Keys(rest) == Keys(gs[1..]) + {k}
    requires DistinctKeys(gs[1..]) ==> DistinctKeys(rest)
    requires SumTotals(rest) == SumTotals(gs[1..]) + v
    requires forall k' :: SumKey(rest, k') == SumKey(gs[1..], k') + (if k' == k then v else 0)
    ensures var r := [gs[0]] + rest;
            && Keys(r) == Keys(gs) + {k}
            && (DistinctKeys(gs) ==> DistinctKeys(r))
            && SumTotals(r) == SumTotals(gs) + v
            && forall k' :: SumKey(r, k') == SumKey(gs, k') + (if k' == k then v else 0)
  {
    var r := [gs[0]] + rest;
    KeysSplit(gs);
    KeysCons(gs[0], rest);
    DistinctSplit(gs);
    DistinctCons(gs[0], rest);
    assert r[1..] == rest;
  }

  /** In a sequence with one row per key, the total stored under a key is
      the row's own total. */
  lemma {:induction false} SumKeyDistinct<K>(gs: seq<Group<K>>, i: int)
    requires DistinctKeys(gs)
    requires 0 <= i < |gs|
    ensures SumKey(gs, gs[i].key) == gs[i].total
  {
    DistinctSplit(gs);
    if i == 0 {
      SumKeyAbsent(gs[1..], gs[0].key);
    } else {
      SumKeyDistinct(gs[1..], i - 1);
      assert gs[1..][i - 1] == gs[i];
    }
  }

  lemma {:induction false} SumKeyAbsent<K>(gs: seq<Group<K>>, k: K)
    requires k !in Keys(gs)
    ensures SumKey(gs, k) == 0
  {
    if |gs| > 0 {
      KeysSplit(gs);
      SumKeyAbsent(gs[1..], k);
    }
  }

  /** Re-grouping rows under the coarser key `f(key)` and re-summing: the
      second `groupby(...).sum()` of a two-stage pandas aggregation. */
  function Regroup<K(!new), L(==,!new)>(gs: seq<Group<K>>, f: K -> L): (r: seq<Group<L>>)
    ensures DistinctKeys(r)
    ensures Keys(r) == set g | g in gs :: f(g.key)
    ensures SumTotals(r) == SumTotals(gs)
    ensures forall l :: SumKey(r, l) == SumMapped(gs, f, l)
  {
    if |gs| == 0 then []
    else
      var r := AddTo(Regroup(gs[1..], f), f(gs[0].key), gs[0].total);
      assert (set g | g in gs :: f(g.key)) == {f(gs[0].key)} + (set g | g in gs[1..] :: f(g.key)) by {
        assert gs == [gs[0]] + gs[1..];
        assert forall x :: x in gs <==> x == gs[0] || x in gs[1..];
      }
      r
  }

  /** Merging rows that share a key into one: `groupby(key).sum()` on rows
      that are already (key, total) pairs. */
  function Combine<K(==,!new)>(gs: seq<Group<K>>): (r: seq<Group<K>>)
    ensures DistinctKeys(r)
    ensures Keys(r) == Keys(gs)
    ensures SumTotals(r) == SumTotals(gs)
    ensures forall k :: SumKey(r, k) == SumKey(gs, k)
  {
    if |gs| == 0 then []
    else
      KeysSplit(gs);
      AddTo(Combine(gs[1..]), gs[0].key, gs[0].total)
  }

  lemma {:induction false} SumKeyConcat<K>(a: seq<Group<K>>, b: seq<Group<K>>, k: K)
    ensures SumKey(a + b, k) == SumKey(a, k) + SumKey(b, k)
  {
    if |a| > 0 {
      assert (a + b)[1..] == a[1..] + b;
      SumKeyConcat(a[1..], b, k);
    } else {
      assert a + b == b;
    }
  }

  lemma {:induction false} SumTotalsConcat<K>(a: seq<Group<K>>, b: seq<Group<K>>)
    ensures SumTotals(a + b) == SumTotals(a) + SumTotals(b)
  {
    if |a| > 0 {
      assert (a + b)[1..] == a[1..] + b;
      SumTotalsConcat(a[1..], b);
    } else {
      assert a + b == b;
    }
  }

  /** Sequences with the same multiset of rows hold the same rows. */
  lemma SameRows<K>(a: seq<Group<K>>, b: seq<Group<K>>)
    requires multiset(a) == multiset(b)
    ensures forall g :: g in a <==> g in b
    ensures Keys(a) == Keys(b)
  {
    assert forall g :: g in a <==> g in multiset(a);
    assert forall g :: g in b <==> g in multiset(b);
  }

  /** Reordering rows does not change their grand total. */
  lemma {:induction false} SumTotalsPermutation<K>(a: seq<Group<K>>, b: seq<Group<K>>)
    requires multiset(a) == multiset(b)
    ensures SumTotals(a) == SumTotals(b)
    decreases |a|
  {
    if |a| > 0 {
      assert a[0] in multiset(b);
      var i :| 0 <= i < |b| && b[i] == a[0];
      var rest := b[..i] + b[i + 1..];
      RemoveOne(b, i);
      assert a == [a[0]] + a[1..];
      assert multiset(a[1..]) == multiset(rest);
      SumTotalsPermutation(a[1..], rest);
    }
  }

  /** Taking row `i` out of `b` takes one copy out of its multiset and its
      total out of the grand total. */
  lemma RemoveOne<K>(b: seq<Group<K>>, i: int)
    requires 0 <= i < |b|
    ensures multiset(b[..i] + b[i + 1..]) == multiset(b) - multiset{b[i]}
    ensures SumTotals(b) == b[i].total + SumTotals(b[..i] + b[i + 1..])
  {
    SplitAt(b, i);
    MultisetWithout(b[..i], b[i], b[i + 1..]);
    RemoveOneSum(b[..i], b[i], b[i + 1..]);
  }

  lemma SplitAt<T>(b: seq<T>, i: int)
    requires 0 <= i < |b|
    ensures b == b[..i] + ([b[i]] + b[i + 1..])
  {
    assert b[i..] == [b[i]] + b[i + 1..];
    assert b == b[..i] + b[i..];
  }

  lemma MultisetWithout<T>(front: seq<T>, x: T, back: seq<T>)
    ensures multiset(front + back) == multiset(front + ([x] + back)) - multiset{x}
  {
    assert multiset(front + ([x] + back)) == multiset(front) + multiset{x} + multiset(back);
  }

  lemma RemoveOneSum<K>(front: seq<Group<K>>, x: Group<K>, back: seq<Group<K>>)
    ensures SumTotals(front + ([x] + back)) == x.total + SumTotals(front + back)
  {
    SumTotalsConcat(front, [x] + back);
    SumTotalsConcat(front, back);
    assert ([x] + back)[1..] == back;
  }

  lemma FirstTwo<T>(s: seq<T>)
    ensures |s| >= 2 ==> s[0] in s && s[1] in s
  {
  }

  /** When every key equals `k`, one-row-per-key leaves at most one row. */
  lemma AtMostOneRow<K>(gs: seq<Group<K>>, k: K)
    requires DistinctKeys(gs)
    requires forall g :: g in gs ==> g.key == k
    ensures |gs| <= 1
  {
    FirstTwo(gs);
  }
}
