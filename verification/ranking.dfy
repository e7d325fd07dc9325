/** Ordering grouped rows by descending total: SQL's
    `ORDER BY Total_Passengers DESC` and pandas'
    `sort_values(..., ascending=False)`.  Neither fixes the order of rows
    with equal totals; the insertion sort below is one admissible choice,
    and every property stated about it holds of any such order. */
module Ranking {
  import opened Groups

  /** Totals never increase from one row to a later one. */
  predicate NonIncreasing<K>(gs: seq<Group<K>>)
  {
    forall i, j :: 0 <= i < j < |gs| ==> gs[i].total >= gs[j].total
  }

  function Insert<K(==,!new)>(g: Group<K>, gs: seq<Group<K>>): (r: seq<Group<K>>)
    requires NonIncreasing(gs)
    ensures NonIncreasing(r)
    ensures multiset(r) == multiset(gs) + multiset{g}
  {
    if |gs| == 0 || g.total >= gs[0].total then
      [g] + gs
    else
      var rest := Insert(g, gs[1..]);
      assert gs == [gs[0]] + gs[1..];
      HeadDominates(gs[0], gs[1..], g, rest);
      [gs[0]] + rest
  }

  /** A row no smaller than anything in `tail` and than `g` may precede any
      rearrangement of `tail` with `g` added. */
  lemma HeadDominates<K>(h: Group<K>, tail: seq<Group<K>>, g: Group<K>, rest: seq<Group<K>>)
    requires NonIncreasing([h] + tail)
    requires NonIncreasing(rest)
    requires h.total >= g.total
    requires multiset(rest) == multiset(tail) + multiset{g}
    ensures NonIncreasing([h] + rest)
  {
    var r := [h] + rest;
    forall j | 0 < j < |r|
      ensures h.total >= r[j].total
    {
      assert r[j] == rest[j - 1];
      assert r[j] in multiset(rest);
      if r[j] != g {
        assert r[j] in multiset(tail);
        var m :| 0 <= m < |tail| && tail[m] == r[j];
        var ht := [h] + tail;
        assert ht[0] == h && ht[m + 1] == r[j];
        assert ht[0].total >= ht[m + 1].total;
      }
    }
    forall i, j | 0 <= i < j < |r|
      ensures r[i].total >= r[j].total
    {
      if i > 0 {
        assert r[i] == rest[i - 1] && r[j] == rest[j - 1];
        assert rest[i - 1].total >= rest[j - 1].total;
      }
    }
  }

  lemma {:induction false} InsertKeys<K(!new)>(g: Group<K>, gs: seq<Group<K>>)
    requires NonIncreasing(gs)
    ensures Keys(Insert(g, gs)) == Keys(gs) + {g.key}
  {
    if |gs| == 0 || g.total >= gs[0].total {
      KeysCons(g, gs);
    } else {
      var rest := Insert(g, gs[1..]);
      InsertKeys(g, gs[1..]);
      KeysSplit(gs);
      KeysCons(gs[0], rest);
    }
  }

  lemma {:induction false} InsertDistinct<K(!new)>(g: Group<K>, gs: seq<Group<K>>)
    requires NonIncreasing(gs)
    requires g.key !in Keys(gs) && DistinctKeys(gs)
    ensures DistinctKeys(Insert(g, gs))
  {
    if |gs| == 0 || g.total >= gs[0].total {
      DistinctCons(g, gs);
    } else {
      var rest := Insert(g, gs[1..]);
      KeysSplit(gs);
      DistinctSplit(gs);
      InsertDistinct(g, gs[1..]);
      InsertKeys(g, gs[1..]);
      DistinctCons(gs[0], rest);
    }
  }

  /** A descending-by-total permutation of `gs`. */
  function SortDesc<K(==,!new)>(gs: seq<Group<K>>): (r: seq<Group<K>>)
    ensures NonIncreasing(r)
    ensures multiset(r) == multiset(gs)
  {
    if |gs| == 0 then []
    else
      assert gs == [gs[0]] + gs[1..];
      Insert(gs[0], SortDesc(gs[1..]))
  }

  /** Sorting keeps the key set, one-row-per-key and the grand total. */
  lemma SortDescFacts<K(!new)>(gs: seq<Group<K>>)
    ensures Keys(SortDesc(gs)) == Keys(gs)
    ensures DistinctKeys(gs) ==> DistinctKeys(SortDesc(gs))
    ensures SumTotals(SortDesc(gs)) == SumTotals(gs)
  {
    SameRows(SortDesc(gs), gs);
    SumTotalsPermutation(SortDesc(gs), gs);
    if DistinctKeys(gs) {
      SortDescDistinct(gs);
    }
  }

  lemma {:induction false} SortDescDistinct<K(!new)>(gs: seq<Group<K>>)
    requires DistinctKeys(gs)
    ensures DistinctKeys(SortDesc(gs))
  {
    if |gs| > 0 {
      var rest := SortDesc(gs[1..]);
      DistinctSplit(gs);
      SortDescDistinct(gs[1..]);
      SameRows(rest, gs[1..]);
      InsertDistinct(gs[0], rest);
    }
  }
}
