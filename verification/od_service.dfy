/** The `/api/od` endpoint of the Hono server (backend-hono/src/index.ts):
    three prepared aggregate statements over the fact table and the
    handler that picks one of them from the request's station fields. */
module OdService {
  import opened Options
  import opened Groups
  import opened Records

  /** The WHERE clause `[進站] = from AND [出站] = to AND
      [時段] >= start AND [時段] < end`, with the station conjuncts optional. */
  function Filter(from: Option<string>, to: Option<string>, start: int, end: int): Where
  {
    Where(from, to, Some(Window(start, end)))
  }

  /** A passenger record that `from_query` with these parameters counts. */
  predicate Departs(x: Record, from: string, start: int, end: int)
  {
    x.entry == from && start <= x.slot < end
  }

  /** A passenger record that `to_query` with these parameters counts. */
  predicate Arrives(x: Record, to: string, start: int, end: int)
  {
    x.exit == to && start <= x.slot < end
  }

  /** `from_query`: destinations reached from `from` in the window, one row
      per exit station, each with its passenger sum. */
  function FromQuery(rs: seq<Record>, from: string, start: int, end: int): (r: seq<Group<Key>>)
    ensures DistinctKeys(r)
    ensures forall g :: g in r ==> g.key.entry.None? && g.key.exit.Some?
    ensures forall e :: Key(None, Some(e)) in Keys(r) <==>
                        exists x :: x in rs && Departs(x, from, start, end) && x.exit == e
    ensures forall g :: g in r ==> g.total == Tally(rs, Filter(Some(from), g.key.exit, start, end))
    ensures SumTotals(r) == Tally(rs, Filter(Some(from), None, start, end))
  {
    var w := Filter(Some(from), None, start, end);
    var r := Select(rs, w, Cols(false, true));
    SelectKeysFit(rs, w, Cols(false, true));
    SelectRowTotals(rs, w, Cols(false, true));
    r
  }

  /** `to_query`: origins that reach `to` in the window, one row per entry
      station, each with its passenger sum. */
  function ToQuery(rs: seq<Record>, to: string, start: int, end: int): (r: seq<Group<Key>>)
    ensures DistinctKeys(r)
    ensures forall g :: g in r ==> g.key.entry.Some? && g.key.exit.None?
    ensures forall e :: Key(Some(e), None) in Keys(r) <==>
                        exists x :: x in rs && Arrives(x, to, start, end) && x.entry == e
    ensures forall g :: g in r ==> g.total == Tally(rs, Filter(g.key.entry, Some(to), start, end))
    ensures SumTotals(r) == Tally(rs, Filter(None, Some(to), start, end))
  {
    var w := Filter(None, Some(to), start, end);
    var r := Select(rs, w, Cols(true, false));
    SelectKeysFit(rs, w, Cols(true, false));
    SelectRowTotals(rs, w, Cols(true, false));
    r
  }

  /** `from_to_query` before `.get`: the WHERE clause fixes both grouped
      columns, so there is at most one group, and none when no record
      matches. */
  function FromToGroups(rs: seq<Record>, from: string, to: string, start: int, end: int): (r: seq<Group<Key>>)
    ensures |r| <= 1
    ensures |r| == 0 <==> forall x :: x in rs ==> !(Departs(x, from, start, end) && x.exit == to)
    ensures |r| == 1 ==> r[0] == Group(Key(Some(from), Some(to)), Tally(rs, Filter(Some(from), Some(to), start, end)))
  {
    var w := Filter(Some(from), Some(to), start, end);
    var r := Select(rs, w, Cols(true, true));
    SelectKeysFit(rs, w, Cols(true, true));
    AtMostOneRow(r, Key(Some(from), Some(to)));
    assert |r| == 1 ==> r[0] in r && SumTotals(r) == r[0].total + SumTotals(r[1..]);
    SelectEmpty(rs, w, Cols(true, true));
    r
  }

  /** `from_to_query.get(...)`: the first row's total, or no row. */
  function FromToQuery(rs: seq<Record>, from: string, to: string, start: int, end: int): (r: Option<int>)
    ensures r.Some? <==> exists x :: x in rs && Departs(x, from, start, end) && x.exit == to
    ensures r.Some? ==> r.value == Tally(rs, Filter(Some(from), Some(to), start, end))
  {
    var gs := FromToGroups(rs, from, to, start, end);
    if |gs| == 0 then None else Some(gs[0].total)
  }

  /** JavaScript truthiness of the request's station field: `null`, a
      missing field and the empty string are falsy, every other string
      (including the text "null") is truthy. */
  function Truthy(station: Option<string>): (b: bool)
    ensures b <==> station !in Falsy
  {
    station.Some? && station.value != ""
  }

  /** The falsy values a station field can hold. */
  const Falsy: set<Option<string>> := {None, Some("")}

  /** What the handler hands to `c.json`. */
  datatype Reply =
    | Undefined                          // no branch ran: `res` stays undefined
    | Single(row: Option<int>)           // `from_to_query.get`
    | Many(rows: seq<Group<Key>>)        // `from_query.all` or `to_query.all`

  /** The `/api/od` branch selection. */
  function HandleOd(rs: seq<Record>, from: Option<string>, to: Option<string>, start: int, end: int): (r: Reply)
    ensures r.Single? <==> Truthy(from) && Truthy(to)
    ensures r.Undefined? <==> !Truthy(from) && !Truthy(to)
    ensures r.Single? ==> r.row == FromToQuery(rs, from.value, to.value, start, end)
    ensures r.Many? && Truthy(from) ==> r.rows == FromQuery(rs, from.value, start, end)
    ensures r.Many? && !Truthy(from) ==> Truthy(to) && r.rows == ToQuery(rs, to.value, start, end)
  {
    if Truthy(from) && Truthy(to) then Single(FromToQuery(rs, from.value, to.value, start, end))
    else if Truthy(from) then Many(FromQuery(rs, from.value, start, end))
    else if Truthy(to) then Many(ToQuery(rs, to.value, start, end))
    else Undefined
  }

  lemma {:induction false} TallyAppend(rs: seq<Record>, x: Record, w: Where)
    ensures Tally(rs + [x], w) == Tally(rs, w) + (if Matches(w, x) then x.count else 0)
  {
    if |rs| == 0 {
      assert rs + [x] == [x];
    } else {
      assert (rs + [x])[1..] == rs[1..] + [x];
      TallyAppend(rs[1..], x, w);
    }
  }

  /** A record the filter rejects changes nothing about the grouped result. */
  lemma {:induction false} SelectIgnores(rs: seq<Record>, x: Record, w: Where, cols: Cols)
    requires !Matches(w, x)
    ensures Select(rs + [x], w, cols) == Select(rs, w, cols)
  {
    if |rs| == 0 {
      assert rs + [x] == [x];
    } else {
      assert (rs + [x])[1..] == rs[1..] + [x];
      SelectIgnores(rs[1..], x, w, cols);
    }
  }

  /** The hour window is half-open: a record in the slot `end` leaves all
      three queries unchanged, while a record in the slot `start` adds its
      passengers to the row of its group. */
  lemma WindowIsHalfOpen(rs: seq<Record>, x: Record, start: int, end: int)
    requires start < end
    ensures x.slot == end ==> FromQuery(rs + [x], x.entry, start, end) == FromQuery(rs, x.entry, start, end)
    ensures x.slot == end ==> ToQuery(rs + [x], x.exit, start, end) == ToQuery(rs, x.exit, start, end)
    ensures x.slot == end ==> FromToQuery(rs + [x], x.entry, x.exit, start, end) == FromToQuery(rs, x.entry, x.exit, start, end)
    ensures x.slot == start ==>
      Key(None, Some(x.exit)) in Keys(FromQuery(rs + [x], x.entry, start, end)) &&
      Tally(rs + [x], Filter(Some(x.entry), Some(x.exit), start, end))
        == Tally(rs, Filter(Some(x.entry), Some(x.exit), start, end)) + x.count
    ensures x.slot == start ==>
      Key(Some(x.entry), None) in Keys(ToQuery(rs + [x], x.exit, start, end)) &&
      Tally(rs + [x], Filter(Some(x.entry), Some(x.exit), start, end))
        == Tally(rs, Filter(Some(x.entry), Some(x.exit), start, end)) + x.count
    ensures x.slot == start ==>
      FromToQuery(rs + [x], x.entry, x.exit, start, end)
        == Some(Tally(rs, Filter(Some(x.entry), Some(x.exit), start, end)) + x.count)
  {
    TallyAppend(rs, x, Filter(Some(x.entry), Some(x.exit), start, end));
    if x.slot == end {
      SelectIgnores(rs, x, Filter(Some(x.entry), None, start, end), Cols(false, true));
      SelectIgnores(rs, x, Filter(None, Some(x.exit), start, end), Cols(true, false));
      SelectIgnores(rs, x, Filter(Some(x.entry), Some(x.exit), start, end), Cols(true, true));
    }
    assert x in rs + [x];
  }

  /** The handler does not treat the text "null" as an unset station: with
      a from-station and "null" as to-station it runs `from_to_query`, which
      finds no row unless some exit station is literally named "null". */
  lemma NullIsAStationName(rs: seq<Record>, from: string, start: int, end: int)
    requires from != ""
    requires forall x :: x in rs ==> x.exit != "null"
    ensures HandleOd(rs, Some(from), Some("null"), start, end) == Single(None)
  {
  }
}
