/** The offline pre-aggregation of insert.py: station-name clean-up,
    routes ranked by popularity (directions folded together), stations
    ranked by popularity, and the stations still missing from the id
    table. */
module PreAggregate {
  import opened Options
  import opened Strings
  import opened Groups
  import opened Ranking
  import opened Records

  /* ---------- station names (read_data) ---------- */

  /** `DataFrame.replace(source, target)`: a whole-cell match is replaced,
      anything else is kept. */
  function Replace(s: string, source: string, target: string): string
  {
    if s == source then target else s
  }

  /** The line-prefixed names and the station each one stands for. */
  const Renames: map<string, string> :=
    map["O景安" := "景安", "BL板橋" := "板橋", "Y板橋" := "板橋",
        "G大坪林" := "大坪林", "O頭前庄" := "頭前庄"]

  /** The five replacements, applied in the order the code applies them.
      Because no target is itself a source, the chain is the same as one
      lookup in `Renames`, and no prefixed name survives it. */
  function Normalize(s: string): (r: string)
    ensures r == (if s in Renames then Renames[s] else s)
    ensures r !in Renames
  {
    var s1 := Replace(s, "O景安", "景安");
    var s2 := Replace(s1, "BL板橋", "板橋");
    var s3 := Replace(s2, "Y板橋", "板橋");
    var s4 := Replace(s3, "G大坪林", "大坪林");
    Replace(s4, "O頭前庄", "頭前庄")
  }

  /** Normalising twice is the same as normalising once. */
  lemma NormalizeIdempotent(s: string)
    ensures Normalize(Normalize(s)) == Normalize(s)
  {
  }

  function NormalizeRecord(x: Record): Record
  {
    x.(entry := Normalize(x.entry), exit := Normalize(x.exit))
  }

  /** The name clean-up of `read_data` applied to every row. */
  function NormalizeTable(rs: seq<Record>): (r: seq<Record>)
    ensures |r| == |rs|
    ensures forall i :: 0 <= i < |r| ==>
              && r[i].slot == rs[i].slot && r[i].count == rs[i].count
              && r[i].entry !in Renames && r[i].exit !in Renames
              && r[i].entry == (if rs[i].entry in Renames then Renames[rs[i].entry] else rs[i].entry)
              && r[i].exit == (if rs[i].exit in Renames then Renames[rs[i].exit] else rs[i].exit)
  {
    if |rs| == 0 then []
    else
      [NormalizeRecord(rs[0])] + NormalizeTable(rs[1..])
  }

  /** Renaming keeps every passenger: the table total is unchanged, and a
      second clean-up is a no-op. */
  lemma {:induction false} NormalizeTableFacts(rs: seq<Record>)
    ensures Tally(NormalizeTable(rs), Everything) == Tally(rs, Everything)
    ensures NormalizeTable(NormalizeTable(rs)) == NormalizeTable(rs)
  {
    if |rs| > 0 {
      NormalizeTableFacts(rs[1..]);
      var n := NormalizeTable(rs);
      assert n[1..] == NormalizeTable(rs[1..]);
    }
  }

  /* ---------- routes (get_routes_by_popularity) ---------- */

  /** A route row's endpoints 站一 and 站二. */
  datatype Route = Route(one: string, two: string)

  /** `sorted([a, b])`. */
  function SortedPair(a: string, b: string): (r: Route)
    ensures AtMost(r.one, r.two)
    ensures {r.one, r.two} == {a, b}
  {
    LessTotal(a, b);
    if AtMost(a, b) then Route(a, b) else Route(b, a)
  }

  function ValueOr(o: Option<string>): string
  {
    if o.Some? then o.value else ""
  }

  /** The sorted endpoints of a (進站, 出站) group key.  `MergeDirections`
      only applies it to keys that name both stations, so `ValueOr` never
      supplies its default there. */
  function Endpoints(k: Key): Route
  {
    SortedPair(ValueOr(k.entry), ValueOr(k.exit))
  }

  /** `groupby(['進站', '出站'])['人次'].sum()`: every key names both
      stations. */
  function DirectedPairs(rs: seq<Record>): (r: seq<Group<Key>>)
    ensures forall p :: p in r ==> p.key.entry.Some? && p.key.exit.Some?
  {
    SelectKeysFit(rs, Everything, Cols(true, true));
    Select(rs, Everything, Cols(true, true))
  }

  /** Assign sorted endpoints and `groupby(['站一', '站二'])['人次'].sum()`. */
  function MergeDirections(pairs: seq<Group<Key>>): (r: seq<Group<Route>>)
    requires forall p :: p in pairs ==> p.key.entry.Some? && p.key.exit.Some?
    ensures DistinctKeys(r)
    ensures Keys(r) == set p | p in pairs :: Endpoints(p.key)
    ensures forall g :: g in r ==> AtMost(g.key.one, g.key.two)
    ensures SumTotals(r) == SumTotals(pairs)
  {
    var r := Regroup(pairs, Endpoints);
    forall g | g in r
      ensures AtMost(g.key.one, g.key.two)
    {
      assert g.key in Keys(r);
    }
    r
  }

  /** `routes[routes['站一'] != routes['站二']]`. */
  function DropSelfTrips(gs: seq<Group<Route>>): (r: seq<Group<Route>>)
    ensures forall g :: g in r <==> g in gs && g.key.one != g.key.two
    ensures forall k :: k in Keys(r) <==> k in Keys(gs) && k.one != k.two
    ensures DistinctKeys(gs) ==> DistinctKeys(r)
  {
    if |gs| == 0 then []
    else
      var rest := DropSelfTrips(gs[1..]);
      assert gs == [gs[0]] + gs[1..];
      KeysSplit(gs);
      DistinctSplit(gs);
      assert gs[0].key !in Keys(gs[1..]) ==> gs[0].key !in Keys(rest);
      DistinctCons(gs[0], rest);
      if gs[0].key.one != gs[0].key.two then [gs[0]] + rest else rest
  }

  /** Record `x` travels between `a` and `b`, in either direction. */
  predicate Links(x: Record, a: string, b: string)
  {
    (x.entry == a && x.exit == b) || (x.entry == b && x.exit == a)
  }

  /** The passengers from `a` to `b`, in that direction. */
  function Directed(rs: seq<Record>, a: string, b: string): int
  {
    Tally(rs, Where(Some(a), Some(b), None))
  }

  /** `get_routes_by_popularity`. */
  function RoutesByPopularity(rs: seq<Record>): (r: seq<Group<Route>>)
    ensures NonIncreasing(r)
    ensures DistinctKeys(r)
    ensures forall g :: g in r ==> Less(g.key.one, g.key.two)
    ensures forall g :: g in r ==>
              g.total == Directed(rs, g.key.one, g.key.two) + Directed(rs, g.key.two, g.key.one)
    ensures forall a, b :: Route(a, b) in Keys(r) <==>
              Less(a, b) && exists x :: x in rs && Links(x, a, b)
  {
    var dropped := DropSelfTrips(MergeDirections(DirectedPairs(rs)));
    var r := SortDesc(dropped);
    SortDescFacts(dropped);
    SameRows(r, dropped);
    RouteRows(rs);
    r
  }

  /** The routes before ranking: one row per unordered pair of distinct
      stations that some record links, holding both directions' sums. */
  lemma RouteRows(rs: seq<Record>)
    ensures DistinctKeys(DropSelfTrips(MergeDirections(DirectedPairs(rs))))
    ensures forall g :: g in DropSelfTrips(MergeDirections(DirectedPairs(rs))) ==>
              && Less(g.key.one, g.key.two)
              && g.total == Directed(rs, g.key.one, g.key.two) + Directed(rs, g.key.two, g.key.one)
    ensures forall a, b :: Route(a, b) in Keys(DropSelfTrips(MergeDirections(DirectedPairs(rs)))) <==>
              Less(a, b) && exists x :: x in rs && Links(x, a, b)
  {
    var merged := MergeDirections(DirectedPairs(rs));
    var dropped := DropSelfTrips(merged);
    MergedRows(rs);
    MergedKeys(rs);
    forall a, b
      ensures Route(a, b) in Keys(dropped) <==> Less(a, b) && exists x :: x in rs && Links(x, a, b)
    {
      LessIrreflexive(a);
      if Route(a, b) in Keys(dropped) {
        var g :| g in merged && g.key == Route(a, b);
      }
    }
  }

  /** Which endpoint pairs the merge produces. */
  lemma MergedKeys(rs: seq<Record>)
    ensures forall a, b :: Less(a, b) ==>
              (Route(a, b) in Keys(MergeDirections(DirectedPairs(rs))) <==>
               exists x :: x in rs && Links(x, a, b))
    ensures forall g :: g in MergeDirections(DirectedPairs(rs)) ==> AtMost(g.key.one, g.key.two)
  {
    forall a, b | Less(a, b)
      ensures Route(a, b) in Keys(MergeDirections(DirectedPairs(rs))) <==> exists x :: x in rs && Links(x, a, b)
    {
      MergedKeyFor(rs, a, b);
    }
    var merged := MergeDirections(DirectedPairs(rs));
    forall g | g in merged
      ensures AtMost(g.key.one, g.key.two)
    {
      assert g.key in Keys(merged);
    }
  }

  lemma MergedKeyFor(rs: seq<Record>, a: string, b: string)
    requires Less(a, b)
    ensures Route(a, b) in Keys(MergeDirections(DirectedPairs(rs))) <==> exists x :: x in rs && Links(x, a, b)
  {
    var pairs := DirectedPairs(rs);
    if Route(a, b) in Keys(MergeDirections(pairs)) {
      var p :| p in pairs && Endpoints(p.key) == Route(a, b);
      assert p.key in Keys(pairs);
      var x :| x in rs && Matches(Everything, x) && KeyOf(Cols(true, true), x) == p.key;
      EndpointsOfPair(x.entry, x.exit, a, b);
    }
    if x :| x in rs && Links(x, a, b) {
      RecordGivesMergedKey(rs, a, b, x);
    }
  }

  lemma RecordGivesMergedKey(rs: seq<Record>, a: string, b: string, x: Record)
    requires Less(a, b)
    requires x in rs && Links(x, a, b)
    ensures Route(a, b) in Keys(MergeDirections(DirectedPairs(rs)))
  {
    var pairs := DirectedPairs(rs);
    var k := KeyOf(Cols(true, true), x);
    assert Matches(Everything, x);
    assert k in Keys(pairs);
    var p :| p in pairs && p.key == k;
    EndpointsOfPair(x.entry, x.exit, a, b);
    assert Endpoints(p.key) == Route(a, b);
  }

  /** The sorted endpoints of (e, x) are (a, b), with a < b, exactly when
      e, x are a, b in some order. */
  lemma EndpointsOfPair(e: string, x: string, a: string, b: string)
    requires Less(a, b)
    ensures SortedPair(e, x) == Route(a, b) <==> (e == a && x == b) || (e == b && x == a)
  {
    LessAsymmetric(a, b);
    LessIrreflexive(a);
  }

  /** Folding a group of directed pairs into routes adds both directions. */
  lemma {:induction false} MergedSum(gs: seq<Group<Key>>, a: string, b: string)
    requires Less(a, b)
    requires forall g :: g in gs ==> g.key.entry.Some? && g.key.exit.Some?
    ensures SumMapped(gs, Endpoints, Route(a, b))
            == SumKey(gs, Key(Some(a), Some(b))) + SumKey(gs, Key(Some(b), Some(a)))
  {
    LessIrreflexive(a);
    if |gs| > 0 {
      assert gs[0] in gs;
      assert forall g :: g in gs[1..] ==> g in gs;
      MergedSum(gs[1..], a, b);
      var k := gs[0].key;
      EndpointsOfPair(k.entry.value, k.exit.value, a, b);
      assert Endpoints(k) == SortedPair(k.entry.value, k.exit.value);
      assert k == Key(Some(a), Some(b)) <==> k.entry.value == a && k.exit.value == b;
      assert k == Key(Some(b), Some(a)) <==> k.entry.value == b && k.exit.value == a;
    }
  }

  /** Each merged row with distinct endpoints holds both directions' sums. */
  lemma MergedRows(rs: seq<Record>)
    ensures forall g :: g in MergeDirections(DirectedPairs(rs)) && g.key.one != g.key.two ==>
              && Less(g.key.one, g.key.two)
              && g.total == Directed(rs, g.key.one, g.key.two) + Directed(rs, g.key.two, g.key.one)
  {
    var merged := MergeDirections(DirectedPairs(rs));
    MergedKeys(rs);
    forall g | g in merged && g.key.one != g.key.two
      ensures Less(g.key.one, g.key.two)
      ensures g.total == Directed(rs, g.key.one, g.key.two) + Directed(rs, g.key.two, g.key.one)
    {
      var i :| 0 <= i < |merged| && merged[i] == g;
      MergedRow(rs, i);
    }
  }

  lemma MergedRow(rs: seq<Record>, i: int)
    ensures var merged := MergeDirections(DirectedPairs(rs));
            0 <= i < |merged| && Less(merged[i].key.one, merged[i].key.two) ==>
              merged[i].total == Directed(rs, merged[i].key.one, merged[i].key.two)
                                 + Directed(rs, merged[i].key.two, merged[i].key.one)
  {
    var pairs := DirectedPairs(rs);
    var merged := MergeDirections(pairs);
    if 0 <= i < |merged| && Less(merged[i].key.one, merged[i].key.two) {
      var a, b := merged[i].key.one, merged[i].key.two;
      SelectKeysFit(rs, Everything, Cols(true, true));
      SumKeyDistinct(merged, i);
      MergedSum(pairs, a, b);
      assert Fits(Cols(true, true), Everything, Key(Some(a), Some(b)));
      assert Fits(Cols(true, true), Everything, Key(Some(b), Some(a)));
    }
  }

  /* ---------- stations (get_stations_by_popularity) ---------- */

  function One(p: Route): string
  {
    p.one
  }

  function Two(p: Route): string
  {
    p.two
  }

  /** The passengers of all routes with an endpoint at `s`. */
  function Touching(routes: seq<Group<Route>>, s: string): int
  {
    if |routes| == 0 then 0
    else (if routes[0].key.one == s || routes[0].key.two == s then routes[0].total else 0)
         + Touching(routes[1..], s)
  }

  /** `get_stations_by_popularity`: the routes summed by 站一 and by 站二,
      stacked, summed again by station, busiest first. */
  function StationsByPopularity(routes: seq<Group<Route>>): (r: seq<Group<string>>)
    ensures NonIncreasing(r)
    ensures DistinctKeys(r)
    ensures forall s :: s in Keys(r) <==> exists g :: g in routes && (g.key.one == s || g.key.two == s)
    ensures forall g :: g in r ==> g.total == SumMapped(routes, One, g.key) + SumMapped(routes, Two, g.key)
    ensures SumTotals(r) == 2 * SumTotals(routes)
  {
    RankedStations(routes, StationSums(routes));
    SortDesc(StationSums(routes))
  }

  /** Ranking station rows keeps their keys and per-row totals. */
  lemma RankedStations(routes: seq<Group<Route>>, combined: seq<Group<string>>)
    requires DistinctKeys(combined)
    requires forall s :: s in Keys(combined) <==> exists g :: g in routes && (g.key.one == s || g.key.two == s)
    requires forall g :: g in combined ==> g.total == SumMapped(routes, One, g.key) + SumMapped(routes, Two, g.key)
    requires SumTotals(combined) == 2 * SumTotals(routes)
    ensures var r := SortDesc(combined);
            && DistinctKeys(r)
            && (forall s :: s in Keys(r) <==> exists g :: g in routes && (g.key.one == s || g.key.two == s))
            && (forall g :: g in r ==> g.total == SumMapped(routes, One, g.key) + SumMapped(routes, Two, g.key))
            && SumTotals(r) == 2 * SumTotals(routes)
  {
    SortDescFacts(combined);
    SameRows(SortDesc(combined), combined);
  }

  /** The stations before ranking: `pd.concat` of the two per-endpoint sums,
      summed again by station. */
  function StationSums(routes: seq<Group<Route>>): (r: seq<Group<string>>)
    ensures DistinctKeys(r)
    ensures forall s :: s in Keys(r) <==> exists g :: g in routes && (g.key.one == s || g.key.two == s)
    ensures forall g :: g in r ==> g.total == SumMapped(routes, One, g.key) + SumMapped(routes, Two, g.key)
    ensures SumTotals(r) == 2 * SumTotals(routes)
  {
    var r := Combine(Regroup(routes, One) + Regroup(routes, Two));
    StackedFacts(routes);
    forall g | g in r
      ensures g.total == SumMapped(routes, One, g.key) + SumMapped(routes, Two, g.key)
    {
      var i :| 0 <= i < |r| && r[i] == g;
      SumKeyDistinct(r, i);
    }
    r
  }

  /** The two per-endpoint sums stacked on each other (`pd.concat`). */
  lemma StackedFacts(routes: seq<Group<Route>>)
    ensures forall s :: s in Keys(Regroup(routes, One) + Regroup(routes, Two)) <==>
              exists g :: g in routes && (g.key.one == s || g.key.two == s)
    ensures forall s :: SumKey(Regroup(routes, One) + Regroup(routes, Two), s)
                        == SumMapped(routes, One, s) + SumMapped(routes, Two, s)
    ensures SumTotals(Regroup(routes, One) + Regroup(routes, Two)) == 2 * SumTotals(routes)
  {
    var byOne := Regroup(routes, One);
    var byTwo := Regroup(routes, Two);
    SumTotalsConcat(byOne, byTwo);
    forall s
      ensures SumKey(byOne + byTwo, s) == SumMapped(routes, One, s) + SumMapped(routes, Two, s)
    {
      SumKeyConcat(byOne, byTwo, s);
    }
    StackedKeys(routes, byOne, byTwo);
  }

  /** A station is a key of the stacked sums exactly when it is an endpoint
      of some route. */
  lemma StackedKeys(routes: seq<Group<Route>>, byOne: seq<Group<string>>, byTwo: seq<Group<string>>)
    requires Keys(byOne) == set g | g in routes :: One(g.key)
    requires Keys(byTwo) == set g | g in routes :: Two(g.key)
    ensures forall s :: s in Keys(byOne + byTwo) <==> exists g :: g in routes && (g.key.one == s || g.key.two == s)
  {
    var stacked := byOne + byTwo;
    assert forall g :: g in stacked <==> g in byOne || g in byTwo;
    assert Keys(stacked) == Keys(byOne) + Keys(byTwo);
    forall s
      ensures s in Keys(stacked) <==> exists g :: g in routes && (g.key.one == s || g.key.two == s)
    {
      if s in Keys(byOne) {
        var g :| g in routes && One(g.key) == s;
      }
      if s in Keys(byTwo) {
        var g :| g in routes && Two(g.key) == s;
      }
      if g :| g in routes && (g.key.one == s || g.key.two == s) {
        if g.key.one == s {
          assert One(g.key) in Keys(byOne);
        } else {
          assert Two(g.key) in Keys(byTwo);
        }
      }
    }
  }

  /** Without self-routes, a station's popularity is the passengers of the
      routes it is an endpoint of. */
  lemma {:induction false} TouchingSplits(routes: seq<Group<Route>>, s: string)
    requires forall g :: g in routes ==> g.key.one != g.key.two
    ensures Touching(routes, s) == SumMapped(routes, One, s) + SumMapped(routes, Two, s)
  {
    if |routes| > 0 {
      assert routes[0] in routes;
      assert forall g :: g in routes[1..] ==> g in routes;
      TouchingSplits(routes[1..], s);
    }
  }

  /** Without self-routes, every station row holds the passengers of the
      routes that touch it.  The ranked routes have no self-routes, so this
      holds of the station ranking built on them. */
  lemma StationTotalsTouch(routes: seq<Group<Route>>)
    requires forall g :: g in routes ==> g.key.one != g.key.two
    ensures forall g :: g in StationsByPopularity(routes) ==> g.total == Touching(routes, g.key)
  {
    forall g | g in StationsByPopularity(routes)
      ensures g.total == Touching(routes, g.key)
    {
      TouchingSplits(routes, g.key);
    }
  }

  /** The ranked routes have no self-routes. */
  lemma RoutesAreProper(rs: seq<Record>)
    ensures forall g :: g in RoutesByPopularity(rs) ==> g.key.one != g.key.two
  {
    forall g | g in RoutesByPopularity(rs)
      ensures g.key.one != g.key.two
    {
      LessIrreflexive(g.key.one);
    }
  }

  /* ---------- stations to insert (__main__) ---------- */

  /** `stations[~stations['站'].isin(mapping.keys())]`: the rows whose
      station has no id yet.  Each kept row is kept once, so one row per
      station stays one row per station, and the order of the ranking is
      kept (`StationsToInsertOrdered`). */
  function StationsToInsert(stations: seq<Group<string>>, mapping: map<string, int>): (r: seq<Group<string>>)
    ensures forall g :: g in r <==> g in stations && g.key !in mapping
    ensures Keys(r) == Keys(stations) - mapping.Keys
    ensures multiset(r) <= multiset(stations)
    ensures DistinctKeys(stations) ==> DistinctKeys(r)
  {
    if |stations| == 0 then []
    else
      var rest := StationsToInsert(stations[1..], mapping);
      assert stations == [stations[0]] + stations[1..];
      KeepStep(stations[0], stations[1..], rest, mapping);
      if stations[0].key !in mapping then [stations[0]] + rest else rest
  }

  /** One step of the mask: what holds of the rows kept from `tail` holds
      once the head row has been kept or dropped. */
  lemma KeepStep(h: Group<string>, tail: seq<Group<string>>, rest: seq<Group<string>>, mapping: map<string, int>)
    requires forall g :: g in rest <==> g in tail && g.key !in mapping
    requires Keys(rest) == Keys(tail) - mapping.Keys
    requires multiset(rest) <= multiset(tail)
    requires DistinctKeys(tail) ==> DistinctKeys(rest)
    ensures var r := if h.key !in mapping then [h] + rest else rest;
      && (forall g :: g in r <==> g in [h] + tail && g.key !in mapping)
      && Keys(r) == Keys([h] + tail) - mapping.Keys
      && multiset(r) <= multiset([h] + tail)
      && (DistinctKeys([h] + tail) ==> DistinctKeys(r))
  {
    KeysCons(h, tail);
    KeysCons(h, rest);
    DistinctCons(h, tail);
    DistinctCons(h, rest);
  }

  /** The boolean mask keeps the popularity order. */
  lemma {:induction false} StationsToInsertOrdered(stations: seq<Group<string>>, mapping: map<string, int>)
    requires NonIncreasing(stations)
    ensures NonIncreasing(StationsToInsert(stations, mapping))
  {
    if |stations| > 0 {
      var rest := StationsToInsert(stations[1..], mapping);
      StationsToInsertOrdered(stations[1..], mapping);
      KeptBelowHead(stations, rest);
    }
  }

  /** Rows kept from below a ranking's head may follow it again. */
  lemma KeptBelowHead(stations: seq<Group<string>>, rest: seq<Group<string>>)
    requires |stations| > 0 && NonIncreasing(stations)
    requires NonIncreasing(rest)
    requires multiset(rest) <= multiset(stations[1..])
    ensures NonIncreasing([stations[0]] + rest)
  {
    var r := [stations[0]] + rest;
    forall i, j | 0 <= i < j < |r|
      ensures r[i].total >= r[j].total
    {
      assert r[j] == rest[j - 1];
      if i > 0 {
        assert r[i] == rest[i - 1];
      } else {
        assert r[j] in multiset(stations[1..]);
        assert r[j] in stations[1..];
        var m :| 0 <= m < |stations[1..]| && stations[1..][m] == r[j];
        assert stations[m + 1] == r[j];
      }
    }
  }
}
