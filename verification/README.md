# Taipei MRT origin–destination aggregation, in Dafny

This project models the part of the Taipei MRT OD repository that computes
passenger numbers. The input is a fact table of records (進站 entry
station, 出站 exit station, 時段 hour slot, 人次 passengers). The same
aggregation is written three times in the repository:

- **The Hono OD service** (`backend-hono/src/index.ts`,
  `backend-hono/src/sqlite.ts`). Three prepared SQL statements each filter
  on a half-open hour window `[start, end)` and group by the counterpart
  station. The `/api/od` handler picks one of them from the JavaScript
  truthiness of the two station fields. The `sqlite.ts` copies of the
  one-sided statements add `ORDER BY Total_Passengers DESC`.
- **The Flask `/data` endpoint** (`backend/app.py`). The window becomes a
  pandas boolean mask. A station equal to the sentinel `'all'` stays a
  group-by column; any other station value filters the table and drops its
  column. With both stations fixed, the answer collapses to one echoed row.
- **The offline pre-aggregation** (`insert.py`). It renames five
  line-prefixed station names. It then folds directed (entry, exit) pairs
  into unordered routes, ranks routes and stations by popularity, and
  selects the stations that have no database id yet.

## Structure

| file | module | contents |
|---|---|---|
| `options.dfy` | `Options` | `Option<T>` |
| `strings.dfy` | `Strings` | code-point lexicographic order (Python's `str` comparison) and its order laws |
| `groups.dfy` | `Groups` | `Group<K>(key, total)`, the summing group-by (`AddTo`, `Regroup`, `Combine`) and its sum laws |
| `ranking.dfy` | `Ranking` | descending sort by total (`ORDER BY ... DESC`, `sort_values(ascending=False)`) |
| `records.dfy` | `Records` | `Record`, WHERE clauses (`Where`), the reference sum `Tally`, and `Select`, which models `SELECT ..., SUM ... WHERE ... GROUP BY ...` |
| `od_service.dfy` | `OdService` | the three `index.ts` statements and the `/api/od` branch selection |
| `od_ranked.dfy` | `OdRanked` | the ordered `sqlite.ts` statements |
| `flask_od.dfy` | `FlaskOd` | `get_data` |
| `pre_aggregate.dfy` | `PreAggregate` | name normalisation, routes, stations, stations to insert |

Every total over records is proved equal to `Tally`, an independent
reference sum: the passengers of all records that a filter accepts. The
route totals are proved equal to `Directed`, the passengers of one
direction between two stations, which is itself a `Tally`. The station
totals are proved equal to the passengers of the routes that touch the
station (`Touching`). Every ordering is proved as a sorted permutation of
the unordered result.

The handler at `backend-hono/src/index.ts:44` tests only JavaScript
truthiness, so the text `"null"` is an ordinary, truthy station name.
`OdService.NullIsAStationName` states what follows: a from-station together
with to-station `"null"` runs `from_to_query`, which finds no row unless
some exit station is literally named `"null"`.

## Model

| member | source | states |
|---|---|---|
| Records.Select | backend-hono/src/index.ts:8-27 | The grouped query has one row per distinct key. A key appears exactly when some record passes the filter and has that key. Each key's row carries the filter's passenger sum restricted to that key, and the rows add up to the filter's sum. |
| Records.SelectEmpty | backend-hono/src/index.ts:22-27 | The grouped query has no row exactly when no record passes the WHERE clause. |
| OdService.FromQuery | backend-hono/src/index.ts:8-13 | One row per exit station reached from `from` in `[start, end)`. Each row holds the passengers of records with that entry and that exit in the window. The rows add up to all in-window passengers leaving `from`. |
| OdService.ToQuery | backend-hono/src/index.ts:15-20 | Mirror of `from_query`: one row per entry station reaching `to` in the window. Each row holds that origin's passengers, and the rows add up to all in-window passengers arriving at `to`. |
| OdService.FromToGroups | backend-hono/src/sqlite.ts:21-26 | Because both grouping columns are fixed by the WHERE clause, there is at most one group. There is none exactly when no record matches, and otherwise it is (from, to) with the matching passengers. |
| OdService.FromToQuery | backend-hono/src/index.ts:22-27 | `.get` returns a value exactly when some in-window record goes from `from` to `to`, and that value is their passenger sum. |
| OdService.Truthy | backend-hono/src/index.ts:44 | A station field is falsy exactly when it is missing, `null` or the empty string. |
| OdService.HandleOd | backend-hono/src/index.ts:42-54 | `from_to_query` runs exactly when both stations are truthy. Otherwise a truthy `from` runs `from_query`, and otherwise a truthy `to` runs `to_query`. When neither is truthy the reply is undefined. |
| OdService.WindowIsHalfOpen | backend-hono/src/index.ts:8-27 | A record at slot `end` leaves all three queries unchanged. A record at slot `start` creates its group in the one-sided queries and adds its passengers to the pair sum. |
| OdService.NullIsAStationName | backend-hono/src/index.ts:44-45 | The text "null" is truthy, so with a from-station it selects `from_to_query`. That query yields no row when no exit is named "null". |
| OdRanked.RankedFromQuery | backend-hono/src/sqlite.ts:5-11 | The ordered `from_query` is a permutation of the unordered grouped rows, in non-increasing order of total. It keeps their key set, per-row totals and grand total. |
| OdRanked.RankedToQuery | backend-hono/src/sqlite.ts:13-19 | The ordered `to_query` is a permutation of the unordered rows, in non-increasing order of total. It keeps the same key, total and conservation facts. |
| OdRanked.RankedExample | backend-hono/src/sqlite.ts:5-11 | Two trips out of 石牌 in hours 8–12 (士林 500 and 芝山 300) give exactly the rows 士林 500 then 芝山 300. |
| Ranking.SortDesc | insert.py:96 | The descending sort returns a permutation of its input, ordered by non-increasing total. |
| Ranking.SortDescFacts | insert.py:96 | Sorting keeps the key set, distinctness of keys, and the grand total. |
| FlaskOd.GetData | backend/app.py:19-34 | With both stations fixed, the result is one row echoing (from, to) with the masked passenger sum. Otherwise there is one row per distinct key of the remaining group-by columns among the masked records, in ascending key order. Each row holds its group's passengers, and the rows add up to the masked sum. |
| FlaskOd.Mask | backend/app.py:19-28 | The mask keeps exactly the records with `start <= slot < end`, with exit equal to `to` unless `to` is `'all'`, and entry equal to `from` unless `from` is `'all'`. |
| FlaskOd.AllPairs | backend/app.py:21 | With both stations `'all'`, the rows are exactly the (出站, 進站) pairs seen in the window, each with that pair's passengers. |
| FlaskOd.CollapseAgreesWithHono | backend/app.py:30-32 | With both stations fixed Flask always answers one row. It holds 0 where Hono's `.get` answers no row, and otherwise the same sum as Hono. |
| FlaskOd.SortByKey | backend/app.py:34 | The group order is a permutation of the groups, in strictly ascending (出站, 進站) key order. |
| PreAggregate.Normalize | insert.py:23-27 | The five sequential whole-cell replacements equal one lookup in the rename table: each prefixed name goes to its station and every other name is unchanged. No prefixed name survives. |
| PreAggregate.NormalizeIdempotent | insert.py:23-27 | Normalising twice is the same as normalising once. |
| PreAggregate.NormalizeTable | insert.py:23-27 | Each row keeps its slot and passengers. Its entry and exit are looked up in the rename table. |
| PreAggregate.NormalizeTableFacts | insert.py:23-27 | Renaming keeps the total passenger count, and a second clean-up changes nothing. |
| PreAggregate.SortedPair | insert.py:87-88 | `sorted([a, b])` returns the same two stations with 站一 not after 站二. |
| PreAggregate.DirectedPairs | insert.py:82-83 | Every (進站, 出站) group names both stations. |
| PreAggregate.MergeDirections | insert.py:87-90 | Given directed pairs that name both stations, regrouping them by their sorted endpoints gives one row per endpoint pair that some directed pair sorts to, each with 站一 not after 站二, and keeps the grand total. |
| PreAggregate.DropSelfTrips | insert.py:93 | Exactly the routes whose two endpoints differ are kept. |
| PreAggregate.RoutesByPopularity | insert.py:80-101 | One row per unordered pair {a, b}, a before b, of distinct stations that some record links in either direction. Each row holds the a-to-b passengers plus the b-to-a passengers. The rows are in non-increasing order. |
| PreAggregate.RouteRows | insert.py:83-93 | Before ranking, the merged and self-trip-free routes have distinct keys, sorted distinct endpoints, and both directions' sums. |
| PreAggregate.MergedSum | insert.py:87-90 | Re-grouping directed pairs by their sorted endpoints adds the (a, b) and (b, a) sums. |
| PreAggregate.StationsByPopularity | insert.py:104-118 | One row per station that is an endpoint of some route. Each row holds the sum of the routes where it is 站一 plus those where it is 站二. The rows are in non-increasing order and add up to twice the route total. |
| PreAggregate.StationSums | insert.py:106-113 | Before ranking, the stacked and re-summed endpoint sums have one row per route endpoint, each holding its 站一 sum plus its 站二 sum, and add up to twice the route total. |
| PreAggregate.StationTotalsTouch | insert.py:104-113 | For routes without self-routes, each station's total is the passenger sum of the routes that have it as an endpoint. |
| PreAggregate.RoutesAreProper | insert.py:93 | No ranked route joins a station to itself, so the station totals above apply to the route ranking. |
| PreAggregate.StationsToInsert | insert.py:272-275 | Exactly the popular stations whose name is not a key of the id mapping are kept, so the key set is the station set minus the mapping's keys. No row is duplicated (the result is a sub-multiset), and one row per station stays one row per station. |
| PreAggregate.StationsToInsertOrdered | insert.py:272-275 | The mask keeps the popularity order. |

## Left out

- HTTP and JSON: Hono routing, `c.req.json()`, `parseInt`, `console.log`, Flask's `request`/`jsonify`. The window bounds are given integers. A station field is `Option<string>` (a missing field or `null` is `None`), and non-string JSON values are not modelled.
- OdService.HandleOd: the reply is a value (`Undefined`, `Single`, `Many`), and the model does not model how `c.json(undefined)` serialises.
- Database and pandas I/O: the connections, the `202307` table and `202307.csv` loading, pickle caching in `read_data`, every `save_*`, `get_station_id_mapping`, `db.py`, `create.py`, `backend-hono/mysql.py`, `backend-hono/src/postgres.ts`. The fact table is a `seq<Record>` and the id mapping a `map<string, int>`.
- The ad-hoc scripts `backend-hono/sqlite.py` and `backend-hono/query.py`: one-off queries that duplicate the modelled ones.
- `get_passengers_by_time_of_day` and `get_passengers_by_day_of_week`: float means and calendar parsing.
- `logger.py` and the `logging` calls; `interface/src/main.ts` (map UI and float geometry).
- Missing values: every station name and passenger count of a `Record` is present, because the modelled code nowhere handles a missing one. In the source an empty CSV cell becomes NaN and a SQLite column can hold NULL. pandas' `groupby` drops rows with a NaN key (backend/app.py:34, insert.py:83, 90, 106-113), while a mask sum (backend/app.py:31) counts every row the mask keeps. SQLite gathers NULL keys into one NULL group. The conservation clauses, such as those of `FlaskOd.GetData`, are therefore stated for complete rows only.
- 64-bit limits: SQLite's integer `SUM` overflow error and pandas' `int64` wrap-around are not modelled; sums are unbounded integers.
- FlaskOd.GetData: the echoed count is `str(count)` in the source and an integer in the model. The column dictionary of `to_dict('list')` is a transposition of the modelled rows.
- PreAggregate.Normalize: `DataFrame.replace` acts on every column; only the two station columns are modelled. The date column holds no station names.
- PreAggregate.RoutesByPopularity: with an empty table, the tuple unpacking at insert.py:87-88 depends on pandas internals and is not modelled. The model returns no routes.
- Tie order: `ORDER BY ... DESC` and `sort_values` leave the order of equal totals unspecified. The model's insertion sort is one valid choice, and no contract depends on it.
- The order of the unordered `index.ts` results is not specified. The model's fold order is one arbitrary choice. No contract of the modelled queries depends on it; only the helper `OdRanked.UnorderedExample`, which evaluates the worked example before sorting, states the order this fold produces.
