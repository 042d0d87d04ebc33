/** The long-run (race-pace) analysis: stints of at least five accurate laps, cleaned of
    laps at or beyond 107 % of the stint median, renumbered from 1, and the per-driver
    orderings the trend and consistency charts use. */
module LongRun {
  import opened Results
  import opened Seqs
  import opened Sorting
  import opened Stats
  import opened Times
  import opened Decimal
  import Colors
  import Naming

  /** One accurate lap: its stint number, time and tyre compound. */
  datatype Lap = Lap(stint: int, lapTime: Micros, compound: string)

  /** A driver's accurate laps. A driver whose lookups raised is `None` in the input. */
  datatype DriverLaps = DriverLaps(abbreviation: string, laps: seq<Lap>)

  /** One row of the long-run table. */
  datatype RunRow = RunRow(driver: string, stint: int, stintLap: nat, lapTime: Micros, compound: string, color: string)

  /** A stint as `groupby('Stint')` yields it: the number and its laps in session order. */
  datatype Stint = Stint(number: int, laps: seq<Lap>)

  /** A stint needs this many laps before and after cleaning. */
  const MinStintLaps := 5
  /** The outlier threshold as a multiple of the stint median (1.07). */
  const Tolerance: real := 107.0 / 100.0

  const NoLongRunData := "No valid long run data found."

  function LapValue(l: Lap): real
  {
    l.lapTime as real
  }

  function LapTimes(laps: seq<Lap>): (t: seq<real>)
    ensures |t| == |laps|
    ensures forall i :: 0 <= i < |laps| ==> t[i] == LapValue(laps[i])
  {
    if |laps| == 0 then [] else [LapValue(laps[0])] + LapTimes(laps[1..])
  }

  /** `median_pace * 1.07`. */
  function Threshold(laps: seq<Lap>): real
  {
    Median(LapTimes(laps)) * Tolerance
  }

  function Below(threshold: real): Lap -> bool
  {
    (l: Lap) => LapValue(l) < threshold
  }

  /** `stint_data[stint_data['LapTime'] < threshold]`: exactly the laps strictly under the
      threshold, each as often as in the stint, in their original order. */
  function Clean(laps: seq<Lap>): (r: seq<Lap>)
    ensures forall l :: l in r <==> l in laps && LapValue(l) < Threshold(laps)
    ensures forall l :: multiset(r)[l] == if LapValue(l) < Threshold(laps) then multiset(laps)[l] else 0
    ensures IsSubseq(r, laps)
    ensures |r| <= |laps|
  {
    FilterIsSubseq(laps, Below(Threshold(laps)));
    FilterMultiset(laps, Below(Threshold(laps)));
    Filter(laps, Below(Threshold(laps)))
  }

  predicate PositiveTimes(laps: seq<Lap>)
  {
    forall i :: 0 <= i < |laps| ==> laps[i].lapTime > 0
  }

  /** With positive lap times, no lap at or below the median is cleaned away. */
  lemma MedianLapsSurvive(laps: seq<Lap>)
    requires |laps| > 0 && PositiveTimes(laps)
    ensures forall l :: l in laps && LapValue(l) <= Median(LapTimes(laps)) ==> l in Clean(laps)
  {
    var times := LapTimes(laps);
    assert MinOf(times) in times;
    assert Median(times) > 0.0;
  }

  lemma {:induction false} CountThroughTimes(laps: seq<Lap>, p: real -> bool, q: Lap -> bool)
    requires forall l :: p(LapValue(l)) ==> q(l)
    ensures |Filter(laps, q)| >= |Filter(LapTimes(laps), p)|
  {
    if |laps| > 0 {
      CountThroughTimes(laps[1..], p, q);
      assert LapTimes(laps)[1..] == LapTimes(laps[1..]);
    }
  }

  /** With positive lap times, cleaning keeps at least half of the stint. */
  lemma {:induction false} CleaningKeepsHalf(laps: seq<Lap>)
    requires |laps| > 0 && PositiveTimes(laps)
    ensures 2 * |Clean(laps)| >= |laps|
  {
    var times := LapTimes(laps);
    var m := Median(times);
    assert MinOf(times) in times;
    assert m > 0.0;
    MedianLowerHalf(times);
    CountThroughTimes(laps, AtMost(m), Below(Threshold(laps)));
  }

  /** `reset_index` and `idx + 1`: the cleaned laps numbered 1..n, all carrying the first
      cleaned lap's compound. */
  function Renumber(driver: string, stint: int, clean: seq<Lap>, color: string): (rows: seq<RunRow>)
    requires |clean| > 0
    ensures |rows| == |clean|
    ensures forall i :: 0 <= i < |rows| ==>
      rows[i] == RunRow(driver, stint, i + 1, clean[i].lapTime, clean[0].compound, color)
  {
    seq(|clean|, i requires 0 <= i < |clean| =>
      RunRow(driver, stint, i + 1, clean[i].lapTime, clean[0].compound, color))
  }

  /** A stint counts as a long run: at least five laps before and after cleaning. */
  ghost predicate Qualifies(stint: Stint)
  {
    |stint.laps| >= MinStintLaps && |Clean(stint.laps)| >= MinStintLaps
  }

  /** The rows one stint contributes: none unless it has at least five laps before and
      after cleaning; otherwise one row per cleaned lap, numbered 1..n, all carrying the
      first cleaned lap's compound and the driver's colour. */
  function StintRows(driver: string, stint: Stint, color: string): (rows: seq<RunRow>)
    ensures rows != [] <==> Qualifies(stint)
    ensures rows != [] ==>
      var clean := Clean(stint.laps);
      && |rows| == |clean|
      && forall i :: 0 <= i < |rows| ==>
           rows[i] == RunRow(driver, stint.number, i + 1, clean[i].lapTime, clean[0].compound, color)
  {
    if |stint.laps| < MinStintLaps then []
    else
      var clean := Clean(stint.laps);
      if |clean| < MinStintLaps then [] else Renumber(driver, stint.number, clean, color)
  }

  function OnStint(n: int): Lap -> bool
  {
    (l: Lap) => l.stint == n
  }

  function StintLaps(laps: seq<Lap>, n: int): seq<Lap>
  {
    Filter(laps, OnStint(n))
  }

  /** The stint number of every lap, in session order. */
  function StintNumbers(laps: seq<Lap>): (ns: seq<int>)
    ensures |ns| == |laps|
    ensures forall i :: 0 <= i < |laps| ==> ns[i] == laps[i].stint
  {
    seq(|laps|, i requires 0 <= i < |laps| => laps[i].stint)
  }

  /** The group keys `groupby('Stint')` iterates over: each stint number once, ascending. */
  function GroupKeys(laps: seq<Lap>): (ks: seq<int>)
    ensures forall i, j :: 0 <= i < j < |ks| ==> ks[i] < ks[j]
    ensures forall x :: x in ks <==> x in StintNumbers(laps)
  {
    var d := Dedup(StintNumbers(laps));
    var ks := SortBy(d, (x: int) => x as real);
    DistinctPerm(d, ks);
    forall i, j | 0 <= i < j < |ks| ensures ks[i] < ks[j] {
      assert SortedBy(ks, (x: int) => x as real);
      assert ks[i] != ks[j];
    }
    forall x ensures x in ks <==> x in d {
      assert x in ks <==> x in multiset(ks);
      assert x in d <==> x in multiset(d);
    }
    ks
  }

  /** A stint that some lap was driven in has at least one lap in its group. */
  lemma DrivenStintHasLaps(laps: seq<Lap>, n: int)
    requires n in StintNumbers(laps)
    ensures |StintLaps(laps, n)| > 0
  {
    var j :| 0 <= j < |laps| && StintNumbers(laps)[j] == n;
    assert laps[j] in StintLaps(laps, n);
  }

  /** Each group is non-empty and holds exactly its stint's laps, in session order. */
  ghost predicate GroupsAreStints(laps: seq<Lap>, gs: seq<Stint>)
  {
    forall i :: 0 <= i < |gs| ==> |gs[i].laps| > 0 && gs[i].laps == StintLaps(laps, gs[i].number)
  }

  /** Stint numbers of the groups are strictly ascending. */
  ghost predicate Ascending(gs: seq<Stint>)
  {
    forall i, j :: 0 <= i < j < |gs| ==> gs[i].number < gs[j].number
  }

  /** Every lap falls in the group of its stint. */
  ghost predicate Covers(laps: seq<Lap>, gs: seq<Stint>)
  {
    forall l :: l in laps ==> exists i :: 0 <= i < |gs| && gs[i].number == l.stint
  }

  /** One group per key, holding that stint's laps. */
  function GroupsOf(laps: seq<Lap>, ks: seq<int>): (gs: seq<Stint>)
    ensures |gs| == |ks|
    ensures forall i :: 0 <= i < |ks| ==> gs[i].number == ks[i] && gs[i].laps == StintLaps(laps, ks[i])
  {
    if |ks| == 0 then [] else [Stint(ks[0], StintLaps(laps, ks[0]))] + GroupsOf(laps, ks[1..])
  }

  /** Groups keyed by driven stints are non-empty. */
  lemma GroupsOfDriven(laps: seq<Lap>, ks: seq<int>)
    requires forall x :: x in ks ==> x in StintNumbers(laps)
    ensures GroupsAreStints(laps, GroupsOf(laps, ks))
  {
    var gs := GroupsOf(laps, ks);
    forall i | 0 <= i < |gs| ensures |gs[i].laps| > 0 {
      assert ks[i] in ks;
      DrivenStintHasLaps(laps, ks[i]);
    }
  }

  /** Keys holding every driven stint give every lap a group. */
  lemma GroupsOfCover(laps: seq<Lap>, ks: seq<int>)
    requires forall x :: x in StintNumbers(laps) ==> x in ks
    ensures Covers(laps, GroupsOf(laps, ks))
  {
    var gs := GroupsOf(laps, ks);
    forall l | l in laps ensures exists i :: 0 <= i < |gs| && gs[i].number == l.stint {
      var j :| 0 <= j < |laps| && laps[j] == l;
      assert StintNumbers(laps)[j] == l.stint;
      assert l.stint in StintNumbers(laps);
      var i :| 0 <= i < |ks| && ks[i] == l.stint;
      assert gs[i].number == l.stint;
    }
  }

  /** `groupby('Stint')`: one group per stint number, lowest number first. */
  function Stints(laps: seq<Lap>): (gs: seq<Stint>)
    ensures GroupsAreStints(laps, gs)
    ensures Ascending(gs)
    ensures Covers(laps, gs)
  {
    var ks := GroupKeys(laps);
    GroupsOfDriven(laps, ks);
    GroupsOfCover(laps, ks);
    GroupsOf(laps, ks)
  }

  function StintRowsOf(driver: string, color: string): (f: Stint -> seq<RunRow>)
    ensures forall st :: f(st) == StintRows(driver, st, color)
  {
    st => StintRows(driver, st, color)
  }

  /** One driver's rows: the rows of each stint of the driver's accurate laps, in stint
      order. */
  function DriverRows(d: DriverLaps, library: string -> Option<string>): seq<RunRow>
  {
    Flatten(Stints(d.laps), StintRowsOf(d.abbreviation, Colors.DriverColor(d.abbreviation, library)))
  }

  /** A driver with fewer than five accurate laps has no stint long enough to contribute. */
  lemma ShortRunsContributeNothing(d: DriverLaps, library: string -> Option<string>)
    requires |d.laps| < MinStintLaps
    ensures DriverRows(d, library) == []
  {
    var gs := Stints(d.laps);
    var f := StintRowsOf(d.abbreviation, Colors.DriverColor(d.abbreviation, library));
    var rows := DriverRows(d, library);
    if rows != [] {
      FlattenMember(gs, f, rows[0]);
    }
  }

  /** The rows of one entry of the driver list: none for a driver whose lookups raised. */
  function EntryRowsOf(library: string -> Option<string>): (f: Option<DriverLaps> -> seq<RunRow>)
    ensures forall o: Option<DriverLaps> :: f(o) == if o.Some? then DriverRows(o.value, library) else []
  {
    (o: Option<DriverLaps>) => if o.Some? then DriverRows(o.value, library) else []
  }

  /** The collection loop over the session's drivers and their stints. */
  function AllRows(drivers: seq<Option<DriverLaps>>, library: string -> Option<string>): seq<RunRow>
  {
    Flatten(drivers, EntryRowsOf(library))
  }

  /** Row `r` is one that stint `k` of driver `j`'s accurate laps contributes. */
  ghost predicate Contributes(drivers: seq<Option<DriverLaps>>, library: string -> Option<string>, j: int, k: int, r: RunRow)
  {
    && 0 <= j < |drivers| && drivers[j].Some?
    && var d := drivers[j].value;
    && var gs := Stints(d.laps);
    0 <= k < |gs| && r in StintRows(d.abbreviation, gs[k], Colors.DriverColor(d.abbreviation, library))
  }

  /** Stint `k` of driver `j`'s accurate laps is a long run. */
  ghost predicate StintQualifies(drivers: seq<Option<DriverLaps>>, j: int, k: int)
  {
    && 0 <= j < |drivers| && drivers[j].Some?
    && var gs := Stints(drivers[j].value.laps);
    0 <= k < |gs| && Qualifies(gs[k])
  }

  /** The rows of driver `j` are the rows its stints contribute. */
  lemma DriverRowsFrom(drivers: seq<Option<DriverLaps>>, library: string -> Option<string>, j: int, r: RunRow)
    requires 0 <= j < |drivers|
    ensures r in EntryRowsOf(library)(drivers[j]) <==> exists k :: Contributes(drivers, library, j, k, r)
  {
    if drivers[j].Some? {
      var d := drivers[j].value;
      var gs, color := Stints(d.laps), Colors.DriverColor(d.abbreviation, library);
      var f := StintRowsOf(d.abbreviation, color);
      FlattenMember(gs, f, r);
      assert EntryRowsOf(library)(drivers[j]) == Flatten(gs, f);
      if r in Flatten(gs, f) {
        var k :| 0 <= k < |gs| && r in f(gs[k]);
        assert Contributes(drivers, library, j, k, r);
      }
      if k :| Contributes(drivers, library, j, k, r) {
        assert r in f(gs[k]);
      }
    }
  }

  /** The collection loop yields exactly the rows that some stint of some driver whose
      lookups succeeded contributes. */
  lemma AllRowsFrom(drivers: seq<Option<DriverLaps>>, library: string -> Option<string>, r: RunRow)
    ensures r in AllRows(drivers, library) <==> exists j, k :: Contributes(drivers, library, j, k, r)
  {
    var f := EntryRowsOf(library);
    FlattenMember(drivers, f, r);
    if r in AllRows(drivers, library) {
      var j :| 0 <= j < |drivers| && r in f(drivers[j]);
      DriverRowsFrom(drivers, library, j, r);
    }
    if j, k :| Contributes(drivers, library, j, k, r) {
      DriverRowsFrom(drivers, library, j, r);
    }
  }

  /** A row comes from a stint that is a long run. */
  lemma RowsComeFromLongRuns(drivers: seq<Option<DriverLaps>>, library: string -> Option<string>)
    requires AllRows(drivers, library) != []
    ensures exists j, k :: StintQualifies(drivers, j, k)
  {
    var rows := AllRows(drivers, library);
    AllRowsFrom(drivers, library, rows[0]);
    assert rows[0] in rows;
    var j, k :| Contributes(drivers, library, j, k, rows[0]);
    assert StintQualifies(drivers, j, k);
  }

  /** A long run yields at least one row. */
  lemma LongRunGivesRows(drivers: seq<Option<DriverLaps>>, library: string -> Option<string>, j: int, k: int)
    requires StintQualifies(drivers, j, k)
    ensures AllRows(drivers, library) != []
  {
    var d := drivers[j].value;
    var gs := Stints(d.laps);
    var color := Colors.DriverColor(d.abbreviation, library);
    var srows := StintRows(d.abbreviation, gs[k], color);
    assert srows[0] in srows;
    assert Contributes(drivers, library, j, k, srows[0]);
    AllRowsFrom(drivers, library, srows[0]);
  }

  /** No row is produced exactly when no stint of any driver is a long run. */
  lemma NoRowsIffNoLongRun(drivers: seq<Option<DriverLaps>>, library: string -> Option<string>)
    ensures AllRows(drivers, library) == [] <==> !exists j, k :: StintQualifies(drivers, j, k)
  {
    if AllRows(drivers, library) != [] {
      RowsComeFromLongRuns(drivers, library);
    }
    if j, k :| StintQualifies(drivers, j, k) {
      LongRunGivesRows(drivers, library, j, k);
    }
  }

  /** The long-run table: every row of every long run, or the error printed when no stint
      of any driver is one. */
  function LongRunTable(drivers: seq<Option<DriverLaps>>, library: string -> Option<string>): (r: Result<seq<RunRow>>)
    ensures r.Err? <==> !exists j, k :: StintQualifies(drivers, j, k)
    ensures r.Err? ==> r.message == NoLongRunData
    ensures r.Ok? ==> r.value == AllRows(drivers, library) && |r.value| > 0
  {
    var rows := AllRows(drivers, library);
    NoRowsIffNoLongRun(drivers, library);
    if |rows| == 0 then Err(NoLongRunData) else Ok(rows)
  }

  // ---------------------------------------------------------------------------------------
  // Per-driver orderings of the table

  function Names(rows: seq<RunRow>): (names: seq<string>)
    ensures |names| == |rows|
    ensures forall i :: 0 <= i < |rows| ==> names[i] == rows[i].driver
  {
    if |rows| == 0 then [] else [rows[0].driver] + Names(rows[1..])
  }

  /** `df['Driver'].unique()`. */
  function DriverNames(rows: seq<RunRow>): (names: seq<string>)
    ensures Distinct(names)
    ensures forall d :: d in names <==> exists i :: 0 <= i < |rows| && rows[i].driver == d
    ensures forall d :: multiset(names)[d] == if d in Names(rows) then 1 else 0
  {
    Dedup(Names(rows))
  }

  function IsDriver(d: string): RunRow -> bool
  {
    (r: RunRow) => r.driver == d
  }

  function RowsOf(rows: seq<RunRow>, d: string): seq<RunRow>
  {
    Filter(rows, IsDriver(d))
  }

  /** The lap-time column of the rows, as the numbers the mean and median are taken over. */
  function RowTimes(rows: seq<RunRow>): (t: seq<real>)
    ensures |t| == |rows|
    ensures forall i :: 0 <= i < |rows| ==> t[i] == rows[i].lapTime as real
  {
    if |rows| == 0 then [] else [rows[0].lapTime as real] + RowTimes(rows[1..])
  }

  function MeanPace(rows: seq<RunRow>, d: string): real
  {
    Mean(RowTimes(RowsOf(rows, d)))
  }

  function MedianPace(rows: seq<RunRow>, d: string): real
  {
    Median(RowTimes(RowsOf(rows, d)))
  }

  /** The drivers of the table, each once, ascending by `pace`. */
  function OrderBy(rows: seq<RunRow>, pace: string -> real): (order: seq<string>)
    ensures Distinct(order)
    ensures forall d :: d in order <==> exists i :: 0 <= i < |rows| && rows[i].driver == d
    ensures forall i, j :: 0 <= i < j < |order| ==> pace(order[i]) <= pace(order[j])
  {
    var names := DriverNames(rows);
    var order := SortBy(names, pace);
    DistinctPerm(names, order);
    assert forall d :: d in order <==> d in names by {
      forall d ensures d in order <==> d in names {
        assert d in order <==> d in multiset(order);
      }
    }
    order
  }

  /** The legend order: every driver once, ascending by mean lap time. */
  function TrendOrder(rows: seq<RunRow>): (order: seq<string>)
    ensures Distinct(order)
    ensures forall d :: d in order <==> exists i :: 0 <= i < |rows| && rows[i].driver == d
    ensures forall i, j :: 0 <= i < j < |order| ==> MeanPace(rows, order[i]) <= MeanPace(rows, order[j])
  {
    OrderBy(rows, d => MeanPace(rows, d))
  }

  /** One column of the consistency chart. */
  datatype DriverStat = DriverStat(driver: string, median: real, compound: string, count: nat)

  /** The compound of the driver's first row (`'first'`). */
  function FirstCompound(rows: seq<RunRow>, d: string): string
  {
    var own := RowsOf(rows, d);
    if |own| == 0 then "" else own[0].compound
  }

  /** Row `i` is the driver's first row in the table. */
  ghost predicate FirstRowOf(rows: seq<RunRow>, d: string, i: int)
  {
    0 <= i < |rows| && rows[i].driver == d && forall j :: 0 <= j < i ==> rows[j].driver != d
  }

  /** A driver has as many rows as the driver's name occurs in the driver column. */
  lemma {:induction false} RowCount(rows: seq<RunRow>, d: string)
    ensures |RowsOf(rows, d)| == multiset(Names(rows))[d]
  {
    if |rows| > 0 {
      RowCount(rows[1..], d);
      assert Names(rows) == [rows[0].driver] + Names(rows[1..]);
      assert multiset(Names(rows)) == multiset{rows[0].driver} + multiset(Names(rows[1..]));
    }
  }

  /** The driver's column: the median lap time, the compound of the driver's first row
      (`'first'`) and the number of rows (`'count'`). */
  function StatOf(rows: seq<RunRow>, d: string): (s: DriverStat)
    ensures s.driver == d
    ensures s.median == MedianPace(rows, d)
    ensures s.count == multiset(Names(rows))[d]
    ensures forall i :: FirstRowOf(rows, d, i) ==> s.compound == rows[i].compound
  {
    RowCount(rows, d);
    forall i | FirstRowOf(rows, d, i)
      ensures FirstCompound(rows, d) == rows[i].compound
    {
      FilterFirst(rows, IsDriver(d), i);
    }
    DriverStat(d, MedianPace(rows, d), FirstCompound(rows, d), |RowsOf(rows, d)|)
  }

  function StatsOf(rows: seq<RunRow>, names: seq<string>): (stats: seq<DriverStat>)
    ensures |stats| == |names|
    ensures forall i :: 0 <= i < |names| ==> stats[i] == StatOf(rows, names[i])
  {
    if |names| == 0 then [] else [StatOf(rows, names[0])] + StatsOf(rows, names[1..])
  }

  function StatNames(stats: seq<DriverStat>): (names: seq<string>)
    ensures |names| == |stats|
    ensures forall i :: 0 <= i < |stats| ==> names[i] == stats[i].driver
  {
    seq(|stats|, i requires 0 <= i < |stats| => stats[i].driver)
  }

  /** The consistency chart's columns: every driver once, ascending by median lap time,
      each with the driver's row count and the compound of the driver's first row. */
  function ConsistencyOrder(rows: seq<RunRow>): (stats: seq<DriverStat>)
    ensures Distinct(StatNames(stats))
    ensures forall d :: d in StatNames(stats) <==> exists k :: 0 <= k < |rows| && rows[k].driver == d
    ensures forall i, j :: 0 <= i < j < |stats| ==> stats[i].median <= stats[j].median
    ensures forall i :: 0 <= i < |stats| ==>
      stats[i].count == multiset(Names(rows))[stats[i].driver] && stats[i].median == MedianPace(rows, stats[i].driver)
    ensures forall i, k :: 0 <= i < |stats| && FirstRowOf(rows, stats[i].driver, k) ==> stats[i].compound == rows[k].compound
  {
    var order := OrderBy(rows, d => MedianPace(rows, d));
    var stats := StatsOf(rows, order);
    assert StatNames(stats) == order;
    forall i | 0 <= i < |stats|
      ensures stats[i].median == MedianPace(rows, stats[i].driver)
      ensures stats[i].count == multiset(Names(rows))[stats[i].driver]
      ensures forall k :: FirstRowOf(rows, stats[i].driver, k) ==> stats[i].compound == rows[k].compound
    {
      assert stats[i] == StatOf(rows, order[i]);
    }
    forall i, j | 0 <= i < j < |stats|
      ensures stats[i].median <= stats[j].median
    {
      assert stats[i] == StatOf(rows, order[i]) && stats[j] == StatOf(rows, order[j]);
    }
    stats
  }

  /** `comp[0] if comp else '?'`. */
  function CompoundLetter(compound: string): (c: char)
    ensures |compound| > 0 ==> c == compound[0]
    ensures |compound| == 0 ==> c == '?'
  {
    if |compound| > 0 then compound[0] else '?'
  }

  /** `f"{drv}\n({comp}) ({count})"`. */
  function ColumnLabel(s: DriverStat): string
  {
    s.driver + "\n(" + [CompoundLetter(s.compound)] + ") (" + NatToString(s.count) + ")"
  }

  function IndexOf(s: string, c: char): (r: Option<nat>)
    ensures r.Some? ==> r.value < |s| && s[r.value] == c && c !in s[..r.value]
    ensures r.None? ==> c !in s
  {
    if |s| == 0 then None
    else if s[0] == c then Some(0)
    else
      var r := IndexOf(s[1..], c);
      if r.None? then None
      else
        assert s[..r.value + 1] == [s[0]] + s[1..][..r.value];
        Some(r.value + 1)
  }

  lemma {:induction false} IndexOfAfter(a: string, b: string, c: char)
    requires c !in a && |b| > 0 && b[0] == c
    ensures IndexOf(a + b, c) == Some(|a|)
  {
    if |a| > 0 {
      assert (a + b)[1..] == a[1..] + b;
      IndexOfAfter(a[1..], b, c);
    } else {
      assert a + b == b;
    }
  }

  /** Reads a column text back as (driver, compound letter, count). */
  function ParseColumnLabel(s: string): Option<(string, char, nat)>
  {
    var p := IndexOf(s, '\n');
    if p.None? then None
    else
      var rest := s[p.value + 1..];
      if |rest| >= 7 && rest[0] == '(' && rest[2..5] == ") (" && rest[|rest| - 1] == ')'
         && AllDigits(rest[5..|rest| - 1])
      then Some((s[..p.value], rest[1], ParseNat(rest[5..|rest| - 1])))
      else None
  }

  /** The part of a column text after the line break. */
  function Bracketed(letter: char, digits: string): (rest: string)
    ensures |rest| == |digits| + 6
    ensures rest[0] == '(' && rest[1] == letter && rest[2..5] == ") (" && rest[|rest| - 1] == ')'
    ensures rest[5..|rest| - 1] == digits
  {
    var rest := "(" + [letter] + ") (" + digits + ")";
    assert rest[5..|rest| - 1] == digits;
    rest
  }

  lemma {:induction false} SplitAfter(a: string, rest: string)
    ensures (a + "\n" + rest)[..|a|] == a
    ensures (a + "\n" + rest)[|a| + 1..] == rest
  {
  }

  /** A column text gives back the driver, the compound letter and the count, so columns
      of different drivers never share a text. */
  lemma {:induction false} ColumnLabelRoundTrip(s: DriverStat)
    requires '\n' !in s.driver
    ensures ParseColumnLabel(ColumnLabel(s)) == Some((s.driver, CompoundLetter(s.compound), s.count))
  {
    var digits := NatToString(s.count);
    var rest := Bracketed(CompoundLetter(s.compound), digits);
    var text := ColumnLabel(s);
    assert text == s.driver + "\n" + rest;
    assert text == s.driver + ("\n" + rest);
    IndexOfAfter(s.driver, "\n" + rest, '\n');
    SplitAfter(s.driver, rest);
  }

  const TrendSuffix := "Longrun_Trend.png"
  const ConsistencySuffix := "Longrun_Consistency.png"

  function TrendPath(year: int, event: string, session: string): string
  {
    Naming.SavePath(Naming.SavedPhotos, Naming.ChartFileName(year, event, session, TrendSuffix))
  }

  function ConsistencyPath(year: int, event: string, session: string): string
  {
    Naming.SavePath(Naming.SavedPhotos, Naming.ChartFileName(year, event, session, ConsistencySuffix))
  }
}
