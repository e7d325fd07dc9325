/** The passenger fact table and the one query shape all three aggregations
    share: keep the rows a WHERE clause (or pandas boolean mask) accepts,
    group them by some of the station columns, and sum the passenger
    counts of each group. */
module Records {
  import opened Options
  import opened Groups

  /** One row of the fact table: 進站 (entry station), 出站 (exit station),
      時段 (hour slot) and 人次 (number of passengers). */
  datatype Record = Record(entry: string, exit: string, slot: int, count: int)

  /** The half-open hour window `[start, end)`. */
  datatype Window = Window(start: int, end: int)

  predicate InWindow(w: Window, slot: int)
  {
    w.start <= slot < w.end
  }

  /** A conjunction of optional column equalities and an optional window;
      an absent conjunct accepts every row. */
  datatype Where = Where(entry: Option<string>, exit: Option<string>, window: Option<Window>)

  /** The filter that accepts every row. */
  const Everything := Where(None, None, None)

  predicate FixedTo(column: Option<string>, value: string)
  {
    column.None? || column.value == value
  }

  predicate Matches(w: Where, r: Record)
  {
    && FixedTo(w.entry, r.entry)
    && FixedTo(w.exit, r.exit)
    && (w.window.None? || InWindow(w.window.value, r.slot))
  }

  /** The reference sum: the passengers of all rows `w` accepts. */
  function Tally(rs: seq<Record>, w: Where): int
  {
    if |rs| == 0 then 0
    else (if Matches(w, rs[0]) then rs[0].count else 0) + Tally(rs[1..], w)
  }

  /** Which station columns are grouped on. */
  datatype Cols = Cols(entry: bool, exit: bool)

  /** A group key: the values of the grouped columns, `None` for a column
      that is not grouped on. */
  datatype Key = Key(entry: Option<string>, exit: Option<string>)

  function KeyOf(cols: Cols, r: Record): Key
  {
    Key(if cols.entry then Some(r.entry) else None, if cols.exit then Some(r.exit) else None)
  }

  /** The filter of `w` further restricted to the group `k`. */
  function Narrow(w: Where, k: Key): Where
  {
    Where(if k.entry.Some? then k.entry else w.entry,
          if k.exit.Some? then k.exit else w.exit,
          w.window)
  }

  /** `k` has the shape `cols` gives and agrees with every column `w` fixes. */
  predicate Fits(cols: Cols, w: Where, k: Key)
  {
    && (cols.entry <==> k.entry.Some?)
    && (cols.exit <==> k.exit.Some?)
    && (w.entry.Some? && k.entry.Some? ==> w.entry == k.entry)
    && (w.exit.Some? && k.exit.Some? ==> w.exit == k.exit)
  }

  lemma NarrowMatches(cols: Cols, w: Where, k: Key, r: Record)
    requires Fits(cols, w, k)
    ensures Matches(w, r) && KeyOf(cols, r) == k <==> Matches(Narrow(w, k), r)
  {
  }

  /** `SELECT <cols>, SUM(count) FROM rs WHERE w GROUP BY <cols>`, one row
      per group, in an order the statement does not fix. */
  function Select(rs: seq<Record>, w: Where, cols: Cols): (r: seq<Group<Key>>)
    ensures DistinctKeys(r)
    ensures forall k :: k in Keys(r) <==> exists x :: x in rs && Matches(w, x) && KeyOf(cols, x) == k
    ensures SumTotals(r) == Tally(rs, w)
    ensures forall k :: Fits(cols, w, k) ==> SumKey(r, k) == Tally(rs, Narrow(w, k))
  {
    if |rs| == 0 then []
    else
      var rest := Select(rs[1..], w, cols);
      assert forall x :: x in rs <==> x == rs[0] || x in rs[1..] by {
        assert rs == [rs[0]] + rs[1..];
      }
      forall k | Fits(cols, w, k)
        ensures Matches(w, rs[0]) && KeyOf(cols, rs[0]) == k <==> Matches(Narrow(w, k), rs[0])
      {
        NarrowMatches(cols, w, k, rs[0]);
      }
      if Matches(w, rs[0]) then AddTo(rest, KeyOf(cols, rs[0]), rs[0].count) else rest
  }

  /** No group exists exactly when no record passes the filter. */
  lemma SelectEmpty(rs: seq<Record>, w: Where, cols: Cols)
    ensures |Select(rs, w, cols)| == 0 <==> forall x :: x in rs ==> !Matches(w, x)
  {
    var r := Select(rs, w, cols);
    if |r| > 0 {
      assert r[0].key in Keys(r);
    }
    forall x | x in rs && Matches(w, x)
      ensures |r| > 0
    {
      assert KeyOf(cols, x) in Keys(r);
    }
  }

  /** Every key `Select` produces has the shape of its columns and agrees
      with its filter. */
  lemma SelectKeysFit(rs: seq<Record>, w: Where, cols: Cols)
    ensures forall g :: g in Select(rs, w, cols) ==> Fits(cols, w, g.key)
  {
    var r := Select(rs, w, cols);
    forall g | g in r
      ensures Fits(cols, w, g.key)
    {
      assert g.key in Keys(r);
    }
  }

  /** Each row of `Select` carries exactly the passengers of its group. */
  lemma SelectRowTotals(rs: seq<Record>, w: Where, cols: Cols)
    ensures forall g :: g in Select(rs, w, cols) ==> g.total == Tally(rs, Narrow(w, g.key))
  {
    var r := Select(rs, w, cols);
    SelectKeysFit(rs, w, cols);
    forall g | g in r
      ensures g.total == Tally(rs, Narrow(w, g.key))
    {
      var i :| 0 <= i < |r| && r[i] == g;
      SumKeyDistinct(r, i);
    }
  }
}
