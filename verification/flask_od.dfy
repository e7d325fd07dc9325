/** The `/data` endpoint of the Flask server (backend/app.py): a pandas
    boolean mask over the fact table, a group-by list that loses a column
    for every station fixed in the request, and a single echoed row when
    both stations are fixed.  The sentinel `'all'` leaves a station free. */
module FlaskOd {
  import opened Options
  import opened Strings
  import opened Groups
  import opened Records
  import opened OdService

  const All := "all"

  /** `fil` once the station conditions are added. */
  function Mask(start: int, end: int, from: string, to: string): (w: Where)
    ensures forall x :: Matches(w, x) <==>
              && start <= x.slot < end
              && (to != All ==> x.exit == to)
              && (from != All ==> x.entry == from)
  {
    Where(if from != All then Some(from) else None,
          if to != All then Some(to) else None,
          Some(Window(start, end)))
  }

  /** `group_by` after the removals: a column stays only while its station
      is `'all'`. */
  function GroupBy(from: string, to: string): Cols
  {
    Cols(from == All, to == All)
  }

  /** The order pandas' `groupby` gives its groups: by 出站 first, then by
      進站, each compared as text.  A column that is not grouped on is
      `None` in every key of one result. */
  predicate OptLess(a: Option<string>, b: Option<string>)
  {
    (a.None? && b.Some?) || (a.Some? && b.Some? && Less(a.value, b.value))
  }

  predicate KeyLess(a: Key, b: Key)
  {
    OptLess(a.exit, b.exit) || (a.exit == b.exit && OptLess(a.entry, b.entry))
  }

  lemma OptLessFacts(a: Option<string>, b: Option<string>, c: Option<string>)
    ensures !OptLess(a, a)
    ensures OptLess(a, b) && OptLess(b, c) ==> OptLess(a, c)
    ensures a == b || OptLess(a, b) || OptLess(b, a)
  {
    if a.Some? {
      LessIrreflexive(a.value);
    }
    if a.Some? && b.Some? {
      LessTotal(a.value, b.value);
      if c.Some? && Less(a.value, b.value) && Less(b.value, c.value) {
        LessTransitive(a.value, b.value, c.value);
      }
    }
  }

  lemma KeyLessFacts(a: Key, b: Key, c: Key)
    ensures !KeyLess(a, a)
    ensures KeyLess(a, b) && KeyLess(b, c) ==> KeyLess(a, c)
    ensures a == b || KeyLess(a, b) || KeyLess(b, a)
  {
    OptLessFacts(a.exit, b.exit, c.exit);
    OptLessFacts(a.entry, b.entry, c.entry);
    OptLessFacts(b.exit, a.exit, c.exit);
    OptLessFacts(a.exit, c.exit, b.exit);
  }

  /** Keys strictly increase along the rows. */
  predicate Ascending(gs: seq<Group<Key>>)
  {
    forall i, j :: 0 <= i < j < |gs| ==> KeyLess(gs[i].key, gs[j].key)
  }

  lemma AscendingDistinct(gs: seq<Group<Key>>)
    requires Ascending(gs)
    ensures DistinctKeys(gs)
  {
    forall i, j | 0 <= i < j < |gs|
      ensures gs[i].key != gs[j].key
    {
      KeyLessFacts(gs[i].key, gs[j].key, gs[j].key);
    }
  }

  /** A row placed before an ascending sequence whose keys all exceed its
      own keeps it ascending. */
  lemma AscendingCons(h: Group<Key>, gs: seq<Group<Key>>)
    requires Ascending(gs)
    requires forall x :: x in gs ==> KeyLess(h.key, x.key)
    ensures Ascending([h] + gs)
  {
    var r := [h] + gs;
    forall i, j | 0 <= i < j < |r|
      ensures KeyLess(r[i].key, r[j].key)
    {
      if i == 0 {
        assert r[j] == gs[j - 1];
      }
    }
  }

  lemma AscendingHead(gs: seq<Group<Key>>)
    requires Ascending(gs) && |gs| > 0
    ensures forall x :: x in gs[1..] ==> KeyLess(gs[0].key, x.key)
  {
    forall x | x in gs[1..]
      ensures KeyLess(gs[0].key, x.key)
    {
      var m :| 0 <= m < |gs[1..]| && gs[1..][m] == x;
      assert gs[m + 1] == x;
    }
  }

  function InsertByKey(g: Group<Key>, gs: seq<Group<Key>>): (r: seq<Group<Key>>)
    requires Ascending(gs)
    requires g.key !in Keys(gs)
    ensures Ascending(r)
    ensures multiset(r) == multiset(gs) + multiset{g}
  {
    if |gs| == 0 then [g]
    else if KeyLess(g.key, gs[0].key) then
      BelowHead(g, gs);
      [g] + gs
    else
      KeysSplit(gs);
      KeyLessFacts(g.key, gs[0].key, gs[0].key);
      var rest := InsertByKey(g, gs[1..]);
      AboveHead(g, gs, rest);
      [gs[0]] + rest
  }

  /** A row whose key is below the first key goes in front. */
  lemma BelowHead(g: Group<Key>, gs: seq<Group<Key>>)
    requires Ascending(gs) && |gs| > 0
    requires KeyLess(g.key, gs[0].key)
    ensures Ascending([g] + gs)
  {
    AscendingHead(gs);
    assert gs == [gs[0]] + gs[1..];
    assert forall x :: x in gs ==> x == gs[0] || x in gs[1..];
    forall x | x in gs[1..]
      ensures KeyLess(g.key, x.key)
    {
      KeyLessFacts(g.key, gs[0].key, x.key);
    }
    AscendingCons(g, gs);
  }

  /** A row whose key is above the first key is inserted behind it. */
  lemma AboveHead(g: Group<Key>, gs: seq<Group<Key>>, rest: seq<Group<Key>>)
    requires Ascending(gs) && |gs| > 0
    requires KeyLess(gs[0].key, g.key)
    requires Ascending(rest)
    requires multiset(rest) == multiset(gs[1..]) + multiset{g}
    ensures Ascending([gs[0]] + rest)
    ensures multiset([gs[0]] + rest) == multiset(gs) + multiset{g}
  {
    AscendingHead(gs);
    assert gs == [gs[0]] + gs[1..];
    forall x | x in rest
      ensures KeyLess(gs[0].key, x.key)
    {
      assert x in multiset(rest);
      assert x == g || x in multiset(gs[1..]);
    }
    AscendingCons(gs[0], rest);
  }

  /** pandas' `groupby(...)` ordering of one-row-per-key groups. */
  function SortByKey(gs: seq<Group<Key>>): (r: seq<Group<Key>>)
    requires DistinctKeys(gs)
    ensures Ascending(r)
    ensures multiset(r) == multiset(gs)
  {
    if |gs| == 0 then []
    else
      DistinctSplit(gs);
      var rest := SortByKey(gs[1..]);
      SameRows(rest, gs[1..]);
      assert gs == [gs[0]] + gs[1..];
      InsertByKey(gs[0], rest)
  }

  /** `get_data`: the rows of the returned column dictionary. */
  function GetData(data: seq<Record>, start: int, end: int, from: string, to: string): (r: seq<Group<Key>>)
    ensures from != All && to != All ==>
              r == [Group(Key(Some(from), Some(to)), Tally(data, Mask(start, end, from, to)))]
    ensures from == All || to == All ==>
              && Ascending(r)
              && DistinctKeys(r)
              && (forall k :: k in Keys(r) <==>
                    exists x :: x in data && Matches(Mask(start, end, from, to), x)
                                && KeyOf(GroupBy(from, to), x) == k)
              && (forall g :: g in r ==>
                    && Fits(GroupBy(from, to), Mask(start, end, from, to), g.key)
                    && g.total == Tally(data, Narrow(Mask(start, end, from, to), g.key)))
              && SumTotals(r) == Tally(data, Mask(start, end, from, to))
  {
    var w := Mask(start, end, from, to);
    if from != All && to != All then
      [Group(Key(Some(from), Some(to)), Tally(data, w))]
    else
      var q := Select(data, w, GroupBy(from, to));
      var r := SortByKey(q);
      SelectKeysFit(data, w, GroupBy(from, to));
      SelectRowTotals(data, w, GroupBy(from, to));
      SameRows(r, q);
      SumTotalsPermutation(r, q);
      AscendingDistinct(r);
      r
  }

  /** With both stations `'all'` every row is one (出站, 進站) pair seen in
      the window, carrying that pair's passengers. */
  lemma AllPairs(data: seq<Record>, start: int, end: int)
    ensures forall g :: g in GetData(data, start, end, All, All) ==>
              && g.key.entry.Some? && g.key.exit.Some?
              && g.total == Tally(data, Where(g.key.entry, g.key.exit, Some(Window(start, end))))
    ensures forall e, x :: Key(Some(e), Some(x)) in Keys(GetData(data, start, end, All, All)) <==>
              exists d :: d in data && d.entry == e && d.exit == x && start <= d.slot < end
  {
    AllPairsKeys(data, start, end, GetData(data, start, end, All, All));
  }

  lemma AllPairsKeys(data: seq<Record>, start: int, end: int, r: seq<Group<Key>>)
    requires forall k :: k in Keys(r) <==>
               exists x :: x in data && Matches(Mask(start, end, All, All), x)
                           && KeyOf(GroupBy(All, All), x) == k
    ensures forall e, x :: Key(Some(e), Some(x)) in Keys(r) <==>
              exists d :: d in data && d.entry == e && d.exit == x && start <= d.slot < end
  {
    forall e, x
      ensures Key(Some(e), Some(x)) in Keys(r) <==>
              exists d :: d in data && d.entry == e && d.exit == x && start <= d.slot < end
    {
      if d :| d in data && d.entry == e && d.exit == x && start <= d.slot < end {
        assert KeyOf(GroupBy(All, All), d) == Key(Some(e), Some(x));
      }
    }
  }

  /** With both stations fixed, Flask always answers one row, holding 0
      when nothing matched, where the Hono `from_to_query.get` answers no
      row; otherwise both report the same passenger sum. */
  lemma CollapseAgreesWithHono(data: seq<Record>, start: int, end: int, from: string, to: string)
    requires from != All && to != All
    ensures |GetData(data, start, end, from, to)| == 1
    ensures FromToQuery(data, from, to, start, end).Some? ==>
              GetData(data, start, end, from, to)[0].total == FromToQuery(data, from, to, start, end).value
    ensures FromToQuery(data, from, to, start, end).None? ==>
              GetData(data, start, end, from, to)[0].total == 0
  {
    if FromToQuery(data, from, to, start, end).None? {
      TallyNone(data, Mask(start, end, from, to));
    }
  }

  lemma {:induction false} TallyNone(rs: seq<Record>, w: Where)
    requires forall x :: x in rs ==> !Matches(w, x)
    ensures Tally(rs, w) == 0
  {
    if |rs| > 0 {
      assert rs[0] in rs;
      assert forall x :: x in rs[1..] ==> x in rs;
      TallyNone(rs[1..], w);
    }
  }
}
