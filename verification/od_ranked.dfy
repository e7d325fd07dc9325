/** The statements of backend-hono/src/sqlite.ts: the same one-sided
    queries as the Hono handler, each followed by
    `ORDER BY Total_Passengers DESC`.  Its `from_to_query` is textually the
    one `OdService.FromToGroups` models. */
module OdRanked {
  import opened Options
  import opened Groups
  import opened Ranking
  import opened Records
  import opened OdService

  /** `from_query ... ORDER BY Total_Passengers DESC`: the rows of the
      unordered query, only reordered, busiest destination first. */
  function RankedFromQuery(rs: seq<Record>, from: string, start: int, end: int): (r: seq<Group<Key>>)
    ensures NonIncreasing(r)
    ensures multiset(r) == multiset(FromQuery(rs, from, start, end))
    ensures DistinctKeys(r)
    ensures forall g :: g in r ==>
              && g.key.entry.None? && g.key.exit.Some?
              && g.total == Tally(rs, Filter(Some(from), g.key.exit, start, end))
    ensures forall e :: Key(None, Some(e)) in Keys(r) <==>
                        exists x :: x in rs && Departs(x, from, start, end) && x.exit == e
    ensures SumTotals(r) == Tally(rs, Filter(Some(from), None, start, end))
  {
    var q := FromQuery(rs, from, start, end);
    var r := SortDesc(q);
    SortDescFacts(q);
    SameRows(r, q);
    r
  }

  /** `to_query ... ORDER BY Total_Passengers DESC`: busiest origin first. */
  function RankedToQuery(rs: seq<Record>, to: string, start: int, end: int): (r: seq<Group<Key>>)
    ensures NonIncreasing(r)
    ensures multiset(r) == multiset(ToQuery(rs, to, start, end))
    ensures DistinctKeys(r)
    ensures forall g :: g in r ==>
              && g.key.entry.Some? && g.key.exit.None?
              && g.total == Tally(rs, Filter(g.key.entry, Some(to), start, end))
    ensures forall e :: Key(Some(e), None) in Keys(r) <==>
                        exists x :: x in rs && Arrives(x, to, start, end) && x.entry == e
    ensures SumTotals(r) == Tally(rs, Filter(None, Some(to), start, end))
  {
    var q := ToQuery(rs, to, start, end);
    var r := SortDesc(q);
    SortDescFacts(q);
    SameRows(r, q);
    r
  }

  /** Two trips out of 石牌 between 8:00 and 12:00 come back as two rows,
      the larger first. */
  lemma RankedExample()
    ensures RankedFromQuery([Record("石牌", "士林", 9, 500), Record("石牌", "芝山", 10, 300)], "石牌", 8, 12)
            == [Group(Key(None, Some("士林")), 500), Group(Key(None, Some("芝山")), 300)]
  {
    var a, b := Group(Key(None, Some("士林")), 500), Group(Key(None, Some("芝山")), 300);
    UnorderedExample();
    assert [b, a][1..] == [a];
    assert SortDesc([a]) == [a];
    assert SortDesc([b, a]) == Insert(b, [a]);
  }

  /** Unordered, the same two rows come back in the order the fold meets
      them. */
  lemma UnorderedExample()
    ensures FromQuery([Record("石牌", "士林", 9, 500), Record("石牌", "芝山", 10, 300)], "石牌", 8, 12)
            == [Group(Key(None, Some("芝山")), 300), Group(Key(None, Some("士林")), 500)]
  {
    var rs := [Record("石牌", "士林", 9, 500), Record("石牌", "芝山", 10, 300)];
    var a, b := Group(Key(None, Some("士林")), 500), Group(Key(None, Some("芝山")), 300);
    var w := Filter(Some("石牌"), None, 8, 12);
    assert rs[1..] == [Record("石牌", "芝山", 10, 300)];
    assert rs[1..][1..] == [];
    assert Select(rs[1..], w, Cols(false, true)) == [b];
    assert Select(rs, w, Cols(false, true)) == AddTo([b], a.key, 500);
    assert "士林" != "芝山" by {
      assert "士林"[0] != "芝山"[0];
    }
    assert AddTo([b], a.key, 500) == [b, a];
  }
}
