/**
 * The data shaping of the plotting script: the SQL text it sends for a
 * filter and a granularity, the grouping of the result rows into
 * `period -> name -> total`, and the zero-filled series, one per packet name
 * over the sorted periods, that become the stacked bars; and the input check
 * of the script's entry point. Running the query, reading the user's input
 * and drawing the figure are outside the model: the rows the database
 * returns and the two answers are parameters.
 */
module Graph {
  import opened StringOrder

  datatype Option<T> = None | Some(value: T)

  /** `strftime` formats: one period per minute, or per hour. */
  const MinuteFormat: string := "%Y-%m-%d %H:%M"
  const HourFormat: string := "%Y-%m-%d %H"

  /** The two filters that narrow the query, and the tail every query ends with. */
  const OutgoingOnly: string := " WHERE packet_bound.outgoing = 1 "
  const IncomingOnly: string := " WHERE packet_bound.outgoing = 0 "
  const GroupOrder: string := " GROUP BY batched_packets.packet_name, time_period ORDER BY time_period"

  /** The time format for a granularity: per minute for `"minute"`, per hour for anything else. */
  function TimeFormat(granularity: string): (format: string)
    ensures format == MinuteFormat <==> granularity == "minute"
    ensures format == HourFormat <==> granularity != "minute"
  {
    if granularity == "minute" then MinuteFormat else HourFormat
  }

  /** The SELECT ... FROM ... JOIN part of the query, grouping `collected_at` (milliseconds) by `format`. */
  function Select(format: string): string {
    "SELECT " + "batched_packets.packet_name, "
    + "SUM(" + "batched_packets.amount" + ") AS total_amount, "
    + "strftime('" + format + "', " + "datetime(" + "batched_packets.collected_at" + " / 1000, 'unixepoch')" + ") AS time_period"
    + " FROM " + "batched_packets"
    + " JOIN " + "packet_bound" + " ON " + "batched_packets.packet_name" + " = " + "packet_bound.packet_name"
  }

  /** The WHERE clause for a filter: only `"outgoing"` and `"incoming"` narrow the query. */
  function WhereClause(filter: Option<string>): (clause: string)
    ensures clause == OutgoingOnly <==> filter == Some("outgoing")
    ensures clause == IncomingOnly <==> filter == Some("incoming")
    ensures clause == "" <==> filter != Some("outgoing") && filter != Some("incoming")
  {
    match filter
    case Some("outgoing") => OutgoingOnly
    case Some("incoming") => IncomingOnly
    case _ => ""
  }

  /** The whole query text for a granularity and a filter. */
  function Query(granularity: string, filter: Option<string>): string {
    Select(TimeFormat(granularity)) + WhereClause(filter) + GroupOrder
  }

  /**
   * The query is built by appending: the SELECT for the granularity's format,
   * then the filter's WHERE clause, if any, then GROUP BY/ORDER BY.
   */
  method BuildQuery(granularity: string, filter: Option<string>) returns (query: string)
    ensures query == Query(granularity, filter)
  {
    query := Select(TimeFormat(granularity));
    if filter == Some("outgoing") {
      query := query + OutgoingOnly;
    } else if filter == Some("incoming") {
      query := query + IncomingOnly;
    } else {
      assert query + "" == query;
    }
    query := query + GroupOrder;
  }

  /**
   * The query text tells which format and which WHERE clause were chosen:
   * two queries are equal only when both choices are.
   */
  lemma QueryDetermines(g1: string, f1: Option<string>, g2: string, f2: Option<string>)
    requires Query(g1, f1) == Query(g2, f2)
    ensures TimeFormat(g1) == TimeFormat(g2)
    ensures WhereClause(f1) == WhereClause(f2)
  {
    var s1, s2 := Select(TimeFormat(g1)), Select(TimeFormat(g2));
    var w1, w2 := WhereClause(f1), WhereClause(f2);
    assert |s1| + |w1| == |s2| + |w2|;
    if TimeFormat(g1) != TimeFormat(g2) {
      // the two formats differ in length by 3, the WHERE clauses by 0 or 33
      assert false;
    }
    MiddlesAgree(s1, w1, s2, w2, GroupOrder);
  }

  /** Whatever the filter, GROUP BY/ORDER BY comes last. */
  lemma GroupOrderLast(granularity: string, filter: Option<string>)
    ensures |Query(granularity, filter)| >= |GroupOrder|
    ensures Query(granularity, filter)[|Query(granularity, filter)| - |GroupOrder|..] == GroupOrder
  {
    EndsWith(Select(TimeFormat(granularity)) + WhereClause(filter), GroupOrder);
  }

  lemma EndsWith<T>(a: seq<T>, c: seq<T>)
    ensures (a + c)[|a + c| - |c|..] == c
  {
  }

  /** Equal sequences split into equal-length heads and a common tail have equal middles. */
  lemma MiddlesAgree<T>(a1: seq<T>, b1: seq<T>, a2: seq<T>, b2: seq<T>, c: seq<T>)
    requires a1 + b1 + c == a2 + b2 + c && |a1| == |a2|
    ensures b1 == b2
  {
    var q := a1 + b1 + c;
    assert b1 == q[|a1|..|q| - |c|];
    assert b2 == q[|a2|..|q| - |c|];
  }

  /** One result row: `(packet_name, total_amount, time_period)`. */
  datatype TotalRow = TotalRow(name: string, total: int, period: string)

  /** `period -> name -> total`, the script's `packet_totals`. */
  type Totals = map<string, map<string, int>>

  /** The inner map of `period`, or an empty one when the period has none yet. */
  function Inner(totals: Totals, period: string): map<string, int> {
    if period in totals then totals[period] else map[]
  }

  /** The nested map the grouping loop builds from `rows`, in row order. */
  function Grouped(rows: seq<TotalRow>): Totals {
    if rows == [] then map[]
    else
      var m, r := Grouped(rows[..|rows| - 1]), rows[|rows| - 1];
      m[r.period := Inner(m, r.period)[r.name := r.total]]
  }

  /**
   * The grouping loop: an empty inner map for a period seen for the first
   * time, then the row's total stored under its name.
   */
  method GroupRows(rows: seq<TotalRow>) returns (totals: Totals)
    ensures totals == Grouped(rows)
  {
    totals := map[];
    var i := 0;
    while i < |rows|
      invariant 0 <= i <= |rows|
      invariant totals == Grouped(rows[..i])
    {
      var row := rows[i];
      if row.period !in totals {
        totals := totals[row.period := map[]];
      }
      totals := totals[row.period := totals[row.period][row.name := row.total]];
      assert rows[..i + 1][..i] == rows[..i];
      i := i + 1;
    }
    assert rows[..i] == rows;
  }

  /**
   * No key is made up and none is lost: a period is an outer key exactly when
   * some row has it, and a name is a key of that period exactly when some row
   * has both.
   */
  lemma {:induction false} GroupedKeys(rows: seq<TotalRow>, period: string, name: string)
    ensures period in Grouped(rows) <==> exists i :: 0 <= i < |rows| && rows[i].period == period
    ensures period in Grouped(rows) && name in Grouped(rows)[period]
        <==> exists i :: 0 <= i < |rows| && rows[i].period == period && rows[i].name == name
  {
    if rows != [] {
      var front := rows[..|rows| - 1];
      GroupedKeys(front, period, name);
      assert forall i :: 0 <= i < |front| ==> front[i] == rows[i];
    }
  }

  /** True when no later row than `i` has row `i`'s period and name. */
  predicate LastOfPair(rows: seq<TotalRow>, i: nat)
    requires i < |rows|
  {
    forall j :: i < j < |rows| ==> !(rows[j].period == rows[i].period && rows[j].name == rows[i].name)
  }

  /** The stored total of a pair is that of the last row with the pair. */
  lemma {:induction false} GroupedLastWins(rows: seq<TotalRow>, i: nat)
    requires i < |rows| && LastOfPair(rows, i)
    ensures rows[i].period in Grouped(rows) && rows[i].name in Grouped(rows)[rows[i].period]
    ensures Grouped(rows)[rows[i].period][rows[i].name] == rows[i].total
  {
    var front, last := rows[..|rows| - 1], rows[|rows| - 1];
    if i < |rows| - 1 {
      assert front[i] == rows[i];
      assert LastOfPair(front, i);
      GroupedLastWins(front, i);
      assert !(last.period == rows[i].period && last.name == rows[i].name);
    }
  }

  /** Every packet name that occurs under some period. */
  function AllNames(totals: Totals): set<string> {
    set p, n | p in totals && n in totals[p] :: n
  }

  /** `packet_names.update(...)` over every inner map: the union of all inner keys. */
  method CollectNames(totals: Totals) returns (names: set<string>)
    ensures names == AllNames(totals)
    ensures forall p, n :: p in totals && n in totals[p] ==> n in names
  {
    names := {};
    var rest := totals.Keys;
    while rest != {}
      invariant rest <= totals.Keys
      invariant names == set p, n | p in totals && p !in rest && n in totals[p] :: n
      decreases |rest|
    {
      var period :| period in rest;
      names := names + totals[period].Keys;
      rest := rest - {period};
    }
  }

  /** `dict.get(name, 0)`. */
  function GetOrZero(inner: map<string, int>, name: string): int {
    if name in inner then inner[name] else 0
  }

  /**
   * The nested fill loop: for every period of `times` in order, each name's
   * list gets that period's total for the name, or 0 when it has none.
   */
  method ZeroFill(totals: Totals, times: seq<string>, names: set<string>) returns (series: map<string, seq<int>>)
    requires forall j :: 0 <= j < |times| ==> times[j] in totals
    ensures series.Keys == names
    ensures forall n :: n in names ==> |series[n]| == |times|
    ensures forall n, j :: n in names && 0 <= j < |times| ==> series[n][j] == GetOrZero(totals[times[j]], n)
  {
    series := map n | n in names :: [];
    var j := 0;
    while j < |times|
      invariant 0 <= j <= |times|
      invariant series.Keys == names
      invariant forall n :: n in names ==> |series[n]| == j
      invariant forall n, k :: n in names && 0 <= k < j ==> series[n][k] == GetOrZero(totals[times[k]], n)
    {
      series := FillPeriod(series, totals[times[j]]);
      j := j + 1;
    }
  }

  /** The inner loop of the fill: every name's list gets `inner.get(name, 0)` appended. */
  method FillPeriod(series: map<string, seq<int>>, inner: map<string, int>) returns (filled: map<string, seq<int>>)
    ensures filled.Keys == series.Keys
    ensures forall n :: n in series ==> filled[n] == series[n] + [GetOrZero(inner, n)]
  {
    filled := series;
    var rest := series.Keys;
    while rest != {}
      invariant rest <= series.Keys
      invariant filled.Keys == series.Keys
      invariant forall n :: n in rest ==> filled[n] == series[n]
      invariant forall n :: n in series && n !in rest ==> filled[n] == series[n] + [GetOrZero(inner, n)]
      decreases |rest|
    {
      var name :| name in rest;
      filled := filled[name := filled[name] + [GetOrZero(inner, name)]];
      rest := rest - {name};
    }
  }

  /** True when no two rows share a period and a name, as `GROUP BY` guarantees. */
  predicate UniquePairs(rows: seq<TotalRow>) {
    forall i, j :: 0 <= i < j < |rows| ==> !(rows[i].period == rows[j].period && rows[i].name == rows[j].name)
  }

  /**
   * End to end: with one row per pair, the value plotted for a name at a
   * period is that row's total, and 0 when the database returned no row for
   * the pair.
   */
  lemma PlottedValue(rows: seq<TotalRow>, period: string, name: string)
    requires UniquePairs(rows)
    ensures forall i :: 0 <= i < |rows| && rows[i].period == period && rows[i].name == name ==>
              GetOrZero(Inner(Grouped(rows), period), name) == rows[i].total
    ensures (forall i :: 0 <= i < |rows| ==> !(rows[i].period == period && rows[i].name == name)) ==>
              GetOrZero(Inner(Grouped(rows), period), name) == 0
  {
    GroupedKeys(rows, period, name);
    forall i | 0 <= i < |rows| && rows[i].period == period && rows[i].name == name
      ensures GetOrZero(Inner(Grouped(rows), period), name) == rows[i].total
    {
      GroupedLastWins(rows, i);
    }
  }

  /**
   * `get_packet_totals`: build the query, run it against `database` (the
   * rows SQLite returns for a query text) and group the rows.
   */
  method GetPacketTotals(database: string -> seq<TotalRow>, granularity: string, filter: Option<string>)
    returns (totals: Totals)
    ensures totals == Grouped(database(Query(granularity, filter)))
  {
    var query := BuildQuery(granularity, filter);
    var rows := database(query);
    totals := GroupRows(rows);
  }

  /** True when `times` and `series` are what the figure is drawn from for `totals`. */
  predicate PlotsTotals(totals: Totals, times: seq<string>, series: map<string, seq<int>>) {
    && StrictlySorted(times)
    && Elements(times) == totals.Keys
    && series.Keys == AllNames(totals)
    && (forall n :: n in series ==> |series[n]| == |times|)
    && (forall n, j :: n in series && 0 <= j < |times| && j < |series[n]| && times[j] in totals ==>
          series[n][j] == GetOrZero(totals[times[j]], n))
  }

  /**
   * The data part of `plot_packet_totals`: the names of all inner maps, the
   * sorted periods, and one zero-filled series per name.
   */
  method PlotSeries(totals: Totals) returns (times: seq<string>, series: map<string, seq<int>>)
    ensures PlotsTotals(totals, times, series)
  {
    var names := CollectNames(totals);
    times := SortKeys(totals.Keys);
    assert forall j :: 0 <= j < |times| ==> times[j] in totals by {
      forall j | 0 <= j < |times| ensures times[j] in totals {
        assert times[j] in Elements(times);
      }
    }
    series := ZeroFill(totals, times, names);
  }

  /** What a run of the script ends in. */
  datatype Run =
    | Rejected(message: string)
      /** The sorted periods and one series per name, as handed to the figure. */
    | Plotted(times: seq<string>, series: map<string, seq<int>>)

  const FilterError: string := "Invalid input. Please enter 'all', 'outgoing', or 'incoming'."
  const GranularityError: string := "Invalid input. Please enter 'minute' or 'hour'."

  /** The entry point's checks, the filter first: the message printed, or `None` when both answers are accepted. */
  function Validate(filter: string, granularity: string): (error: Option<string>)
    ensures error == None <==> filter in {"all", "outgoing", "incoming"} && granularity in {"minute", "hour"}
    ensures filter !in {"all", "outgoing", "incoming"} ==> error == Some(FilterError)
    ensures filter in {"all", "outgoing", "incoming"} && granularity !in {"minute", "hour"} ==> error == Some(GranularityError)
  {
    if filter !in {"all", "outgoing", "incoming"} then Some(FilterError)
    else if granularity !in {"minute", "hour"} then Some(GranularityError)
    else None
  }

  /**
   * The script's entry point, given the two answers (already stripped and
   * lower-cased) and the database: print the message of the first failed
   * check and stop, or fetch the totals and plot them.
   */
  method RunScript(database: string -> seq<TotalRow>, filter: string, granularity: string) returns (run: Run)
    ensures run.Rejected? <==> Validate(filter, granularity) != None
    ensures run.Rejected? ==> run.message == Validate(filter, granularity).value
    ensures run.Plotted? ==>
      PlotsTotals(Grouped(database(Query(granularity, Some(filter)))), run.times, run.series)
  {
    var error := Validate(filter, granularity);
    if error.Some? {
      return Rejected(error.value);
    }
    // `"all" if outgoing_filter == "all" else outgoing_filter` passes the answer on unchanged
    var totals := GetPacketTotals(database, granularity, Some(filter));
    var times, series := PlotSeries(totals);
    run := Plotted(times, series);
  }
}
