/** The downforce/drag map: for each team the driver with the higher average speed on
    their fastest lap, plotted as (average speed, top speed) inside padded axis limits. */
module Downforce {
  import opened Results
  import opened Seqs
  import opened Sorting
  import Colors
  import Naming

  /** One row of the session's lap table, as far as the team pick needs it. */
  datatype LapOwner = LapOwner(driver: string, team: string)

  /** A driver whose fastest lap gave usable speeds. */
  datatype Candidate = Candidate(driver: string, topSpeed: real, avgSpeed: real)

  /** One point of the chart. */
  datatype TeamRow = TeamRow(team: string, driver: string, topSpeed: real, avgSpeed: real, color: string)

  /** Axis limits. */
  datatype Axis = Axis(lo: real, hi: real)

  /** The padding on each side of an axis, as a fraction of the data span (0.4). */
  const PadFraction: real := 4.0 / 10.0

  /** The error raised by reading the `TopSpeed` column of a table built from no rows. */
  const NoTopSpeedColumn := "KeyError: 'TopSpeed'"

  function DriversOf(laps: seq<LapOwner>, team: string): (ds: seq<string>)
    ensures forall d :: d in ds <==> LapOwner(d, team) in laps
  {
    if |laps| == 0 then []
    else (if laps[0].team == team then [laps[0].driver] else []) + DriversOf(laps[1..], team)
  }

  /** `session.laps.pick_team(team)['Driver'].unique()`. */
  function TeamDrivers(laps: seq<LapOwner>, team: string): (ds: seq<string>)
    ensures Distinct(ds)
    ensures forall d :: d in ds <==> LapOwner(d, team) in laps
  {
    Dedup(DriversOf(laps, team))
  }

  /** A later lap adds its driver at the end of the team's list unless the driver is
      already there: drivers are listed in order of their first lap, as `unique()` does. */
  lemma TeamDriversSnoc(laps: seq<LapOwner>, l: LapOwner, team: string)
    ensures TeamDrivers([], team) == []
    ensures TeamDrivers(laps + [l], team) ==
      if l.team == team && l.driver !in TeamDrivers(laps, team)
      then TeamDrivers(laps, team) + [l.driver]
      else TeamDrivers(laps, team)
  {
    var ds := DriversOf(laps, team);
    DriversOfSnoc(laps, l, team);
    if l.team == team {
      assert DriversOf(laps + [l], team) == ds + [l.driver];
      DedupSnoc(ds, l.driver);
      assert l.driver in ds <==> l.driver in Dedup(ds);
    } else {
      assert DriversOf(laps + [l], team) == ds;
    }
  }

  lemma {:induction false} DriversOfSnoc(laps: seq<LapOwner>, l: LapOwner, team: string)
    ensures DriversOf(laps + [l], team) == DriversOf(laps, team) + (if l.team == team then [l.driver] else [])
  {
    if |laps| == 0 {
      assert laps + [l] == [l];
      assert [l][1..] == [];
    } else {
      assert (laps + [l])[1..] == laps[1..] + [l];
      DriversOfSnoc(laps[1..], l, team);
    }
  }

  /** The driver's figures from the fastest lap's speed trace: `max()` and `mean()`, which
      are NaN on an empty trace. `None` in `trace` is a lookup that raised. */
  function CandidateOf(driver: string, trace: Option<seq<real>>): (c: Option<Candidate>)
    ensures c.Some? <==> trace.Some? && |trace.value| > 0
    ensures c.Some? ==> (c.value.driver == driver
      && c.value.topSpeed == MaxOf(trace.value) && c.value.avgSpeed == Mean(trace.value)
      && c.value.avgSpeed <= c.value.topSpeed)
  {
    if trace.None? || |trace.value| == 0 then None
    else
      MeanBetweenMinAndMax(trace.value);
      Some(Candidate(driver, MaxOf(trace.value), Mean(trace.value)))
  }

  /** The figures of the `j`-th driver of a team. */
  function CandidateAt(drivers: seq<string>, telemetry: string -> Option<seq<real>>, j: int): Option<Candidate>
    requires 0 <= j < |drivers|
  {
    CandidateOf(drivers[j], telemetry(drivers[j]))
  }

  /** The positions from `k` on of the drivers that have figures, ascending. */
  function QualifyingFrom(drivers: seq<string>, telemetry: string -> Option<seq<real>>, k: nat): (idx: seq<int>)
    requires k <= |drivers|
    ensures forall p :: 0 <= p < |idx| ==> k <= idx[p] < |drivers|
    ensures forall p, q :: 0 <= p < q < |idx| ==> idx[p] < idx[q]
    ensures forall j :: j in idx <==> k <= j < |drivers| && CandidateAt(drivers, telemetry, j).Some?
    decreases |drivers| - k
  {
    if k == |drivers| then []
    else (if CandidateAt(drivers, telemetry, k).Some? then [k] else []) + QualifyingFrom(drivers, telemetry, k + 1)
  }

  function Qualifying(drivers: seq<string>, telemetry: string -> Option<seq<real>>): seq<int>
  {
    QualifyingFrom(drivers, telemetry, 0)
  }

  /** The candidates of the drivers from `k` on: the figures of each driver that has them,
      in the order of the drivers; a driver whose speeds are missing, or whose lookup
      raised, is left out. */
  function CandidatesFrom(drivers: seq<string>, telemetry: string -> Option<seq<real>>, k: nat): (cs: seq<Candidate>)
    requires k <= |drivers|
    ensures var idx := QualifyingFrom(drivers, telemetry, k);
      && |cs| == |idx|
      && forall p :: 0 <= p < |cs| ==> Some(cs[p]) == CandidateAt(drivers, telemetry, idx[p])
    decreases |drivers| - k
  {
    if k == |drivers| then []
    else
      var here := CandidateAt(drivers, telemetry, k);
      (if here.Some? then [here.value] else []) + CandidatesFrom(drivers, telemetry, k + 1)
  }

  function Candidates(drivers: seq<string>, telemetry: string -> Option<seq<real>>): seq<Candidate>
  {
    CandidatesFrom(drivers, telemetry, 0)
  }

  function Slowness(c: Candidate): real
  {
    -c.avgSpeed
  }

  /** `sorted(..., key=AvgSpeed, reverse=True)[0]`: the highest average speed; on a tie the
      earliest candidate, since the sort is stable. */
  function Best(cs: seq<Candidate>): (b: Candidate)
    requires |cs| > 0
    ensures b in cs
    ensures forall c :: c in cs ==> c.avgSpeed <= b.avgSpeed
    ensures exists i :: 0 <= i < |cs| && cs[i] == b && forall j :: 0 <= j < i ==> cs[j].avgSpeed < b.avgSpeed
  {
    var i := FirstMinIndex(cs, Slowness);
    SortHead(cs, Slowness);
    assert forall j :: 0 <= j < |cs| ==> Slowness(cs[i]) <= Slowness(cs[j]);
    cs[i]
  }

  /** Driver `j` is the team's pick: it has figures, no driver with figures has a higher
      average speed, and every earlier driver with figures has a lower one. */
  ghost predicate IsPick(drivers: seq<string>, telemetry: string -> Option<seq<real>>, j: int)
  {
    && 0 <= j < |drivers| && CandidateAt(drivers, telemetry, j).Some?
    && var best := CandidateAt(drivers, telemetry, j).value.avgSpeed;
    && (forall i :: 0 <= i < |drivers| && CandidateAt(drivers, telemetry, i).Some? ==>
          CandidateAt(drivers, telemetry, i).value.avgSpeed <= best)
    && (forall i :: 0 <= i < j && CandidateAt(drivers, telemetry, i).Some? ==>
          CandidateAt(drivers, telemetry, i).value.avgSpeed < best)
  }

  /** Where a driver with figures sits among the candidates. */
  lemma PositionOf(drivers: seq<string>, telemetry: string -> Option<seq<real>>, i: int) returns (p: int)
    requires 0 <= i < |drivers| && CandidateAt(drivers, telemetry, i).Some?
    ensures 0 <= p < |Qualifying(drivers, telemetry)| && Qualifying(drivers, telemetry)[p] == i
    ensures Some(Candidates(drivers, telemetry)[p]) == CandidateAt(drivers, telemetry, i)
  {
    var idx := Qualifying(drivers, telemetry);
    assert i in idx;
    p :| 0 <= p < |idx| && idx[p] == i;
  }

  /** A candidate at position `pb` that is at least as fast as every candidate, and
      faster than every earlier one, is at least as fast as every driver with figures,
      and faster than every earlier driver with figures. */
  lemma TopCandidateBeats(drivers: seq<string>, telemetry: string -> Option<seq<real>>, pb: int, i: int)
    requires var cs := Candidates(drivers, telemetry);
      && 0 <= pb < |cs|
      && (forall c :: c in cs ==> c.avgSpeed <= cs[pb].avgSpeed)
      && (forall q :: 0 <= q < pb ==> cs[q].avgSpeed < cs[pb].avgSpeed)
    requires 0 <= i < |drivers| && CandidateAt(drivers, telemetry, i).Some?
    ensures var cs, idx := Candidates(drivers, telemetry), Qualifying(drivers, telemetry);
      && CandidateAt(drivers, telemetry, i).value.avgSpeed <= cs[pb].avgSpeed
      && (i < idx[pb] ==> CandidateAt(drivers, telemetry, i).value.avgSpeed < cs[pb].avgSpeed)
  {
    var cs, idx := Candidates(drivers, telemetry), Qualifying(drivers, telemetry);
    var p := PositionOf(drivers, telemetry, i);
    assert cs[p].avgSpeed <= cs[pb].avgSpeed by {
      assert cs[p] in cs;
    }
    if i < idx[pb] {
      assert p < pb;
    }
  }

  /** Such a candidate is the figures of the team's pick. */
  lemma TopCandidateIsPick(drivers: seq<string>, telemetry: string -> Option<seq<real>>, pb: int)
    requires var cs := Candidates(drivers, telemetry);
      && 0 <= pb < |cs|
      && (forall c :: c in cs ==> c.avgSpeed <= cs[pb].avgSpeed)
      && (forall q :: 0 <= q < pb ==> cs[q].avgSpeed < cs[pb].avgSpeed)
    ensures var j := Qualifying(drivers, telemetry)[pb];
      && IsPick(drivers, telemetry, j)
      && CandidateAt(drivers, telemetry, j) == Some(Candidates(drivers, telemetry)[pb])
  {
    var cs, idx := Candidates(drivers, telemetry), Qualifying(drivers, telemetry);
    var j := idx[pb];
    forall i | 0 <= i < |drivers| && CandidateAt(drivers, telemetry, i).Some?
      ensures CandidateAt(drivers, telemetry, i).value.avgSpeed <= cs[pb].avgSpeed
      ensures i < j ==> CandidateAt(drivers, telemetry, i).value.avgSpeed < cs[pb].avgSpeed
    {
      TopCandidateBeats(drivers, telemetry, pb, i);
    }
  }

  /** The best candidate is the figures of the team's pick. */
  lemma BestIsPick(drivers: seq<string>, telemetry: string -> Option<seq<real>>)
    requires |Candidates(drivers, telemetry)| > 0
    ensures exists j :: IsPick(drivers, telemetry, j) && CandidateAt(drivers, telemetry, j) == Some(Best(Candidates(drivers, telemetry)))
  {
    var cs := Candidates(drivers, telemetry);
    var b := Best(cs);
    var pb :| 0 <= pb < |cs| && cs[pb] == b && forall q :: 0 <= q < pb ==> cs[q].avgSpeed < b.avgSpeed;
    TopCandidateIsPick(drivers, telemetry, pb);
  }

  /** `row` is the point of `team` drawn from its `j`-th driver: that driver's speeds, and
      the team colour keyed on that driver. */
  ghost predicate RowFrom(team: string, drivers: seq<string>, telemetry: string -> Option<seq<real>>,
                          teamLibrary: string -> Option<string>, j: int, row: TeamRow)
    requires 0 <= j < |drivers| && CandidateAt(drivers, telemetry, j).Some?
  {
    var c := CandidateAt(drivers, telemetry, j).value;
    row == TeamRow(team, drivers[j], c.topSpeed, c.avgSpeed, Colors.TeamColor(team, drivers[j], teamLibrary))
  }

  /** A team's point: the pick's own speeds and the team colour keyed on the pick; none
      when no driver of the team has figures. */
  function TeamRowOf(team: string, laps: seq<LapOwner>, telemetry: string -> Option<seq<real>>,
                     teamLibrary: string -> Option<string>): (r: Option<TeamRow>)
    ensures var ds := TeamDrivers(laps, team);
      && (r.None? <==> forall j :: 0 <= j < |ds| ==> CandidateAt(ds, telemetry, j).None?)
      && (r.Some? ==> exists j :: IsPick(ds, telemetry, j) && RowFrom(team, ds, telemetry, teamLibrary, j, r.value))
  {
    var ds := TeamDrivers(laps, team);
    var cs := Candidates(ds, telemetry);
    var idx := Qualifying(ds, telemetry);
    if |cs| == 0 then
      assert forall j :: 0 <= j < |ds| ==> CandidateAt(ds, telemetry, j).None? by {
        forall j | 0 <= j < |ds| ensures CandidateAt(ds, telemetry, j).None? {
          assert j !in idx;
        }
      }
      None
    else
      var b := Best(cs);
      BestIsPick(ds, telemetry);
      assert |idx| > 0 && idx[0] in idx;
      Some(TeamRow(team, b.driver, b.topSpeed, b.avgSpeed, Colors.TeamColor(team, b.driver, teamLibrary)))
  }

  function TeamNames(rows: seq<TeamRow>): (ts: seq<string>)
    ensures |ts| == |rows|
    ensures forall i :: 0 <= i < |rows| ==> ts[i] == rows[i].team
  {
    if |rows| == 0 then [] else [rows[0].team] + TeamNames(rows[1..])
  }

  /** The rows of a list of distinct teams, in team order, where `rowOf` gives each
      team's optional row. */
  function RowsFor(teams: seq<string>, rowOf: string -> Option<TeamRow>): (rows: seq<TeamRow>)
    requires Distinct(teams)
    requires forall t :: rowOf(t).Some? ==> rowOf(t).value.team == t
    ensures Distinct(TeamNames(rows))
    ensures forall r :: r in rows ==> r.team in teams && rowOf(r.team) == Some(r)
    ensures forall t :: t in teams && rowOf(t).Some? ==> rowOf(t).value in rows
  {
    if |teams| == 0 then []
    else
      assert forall i :: 1 <= i < |teams| ==> teams[i] == teams[1..][i - 1];
      var rest := RowsFor(teams[1..], rowOf);
      var here := rowOf(teams[0]);
      var rows := (if here.Some? then [here.value] else []) + rest;
      assert teams[0] !in teams[1..];
      assert TeamNames(rows) == (if here.Some? then [teams[0]] else []) + TeamNames(rest);
      assert teams[0] !in TeamNames(rest);
      rows
  }

  function RowOf(laps: seq<LapOwner>, telemetry: string -> Option<seq<real>>,
                 teamLibrary: string -> Option<string>): (f: string -> Option<TeamRow>)
    ensures forall t :: f(t) == TeamRowOf(t, laps, telemetry, teamLibrary)
  {
    t => TeamRowOf(t, laps, telemetry, teamLibrary)
  }

  /** The per-team loop over `session.results['TeamName'].unique()`: at most one row per
      team, and a row for exactly the teams with at least one candidate. */
  function TeamRows(resultTeams: seq<string>, laps: seq<LapOwner>, telemetry: string -> Option<seq<real>>,
                    teamLibrary: string -> Option<string>): (rows: seq<TeamRow>)
    ensures Distinct(TeamNames(rows))
    ensures forall r :: r in rows ==> r.team in resultTeams && TeamRowOf(r.team, laps, telemetry, teamLibrary) == Some(r)
    ensures forall t :: t in resultTeams && TeamRowOf(t, laps, telemetry, teamLibrary).Some? ==>
      TeamRowOf(t, laps, telemetry, teamLibrary).value in rows
  {
    var f := RowOf(laps, telemetry, teamLibrary);
    RowsFor(Dedup(resultTeams), f)
  }

  /** `min − 0.4·span` and `max + 0.4·span`: every value lies within the limits. */
  function AxisLimits(values: seq<real>): (a: Axis)
    requires |values| > 0
    ensures a.lo == MinOf(values) - PadFraction * (MaxOf(values) - MinOf(values))
    ensures a.hi == MaxOf(values) + PadFraction * (MaxOf(values) - MinOf(values))
    ensures forall i :: 0 <= i < |values| ==> a.lo <= values[i] <= a.hi
  {
    var lo, hi := MinOf(values), MaxOf(values);
    var pad := PadFraction * (hi - lo);
    Axis(lo - pad, hi + pad)
  }

  function AvgSpeeds(rows: seq<TeamRow>): (xs: seq<real>)
    ensures |xs| == |rows|
    ensures forall i :: 0 <= i < |rows| ==> xs[i] == rows[i].avgSpeed
  {
    if |rows| == 0 then [] else [rows[0].avgSpeed] + AvgSpeeds(rows[1..])
  }

  function TopSpeeds(rows: seq<TeamRow>): (ys: seq<real>)
    ensures |ys| == |rows|
    ensures forall i :: 0 <= i < |rows| ==> ys[i] == rows[i].topSpeed
  {
    if |rows| == 0 then [] else [rows[0].topSpeed] + TopSpeeds(rows[1..])
  }

  /** The chart: the rows, the axis limits, and the grid centre the arrows start from. */
  datatype AeroChart = AeroChart(rows: seq<TeamRow>, x: Axis, y: Axis, centreAvg: real, centreTop: real)

  /** The grid centre is the mean of each speed column and the axes are the padded limits
      of each column, so every team point and the centre lie inside them; with no team
      point the source fails on the empty table's missing column, which is the error here. */
  function Chart(rows: seq<TeamRow>): (r: Result<AeroChart>)
    ensures r.Err? <==> rows == []
    ensures r.Err? ==> r.message == NoTopSpeedColumn
    ensures r.Ok? ==> var c := r.value;
      && c.rows == rows
      && c.centreAvg == Mean(AvgSpeeds(rows)) && c.centreTop == Mean(TopSpeeds(rows))
      && c.x == AxisLimits(AvgSpeeds(rows)) && c.y == AxisLimits(TopSpeeds(rows))
      && (forall i :: 0 <= i < |rows| ==>
            c.x.lo <= rows[i].avgSpeed <= c.x.hi && c.y.lo <= rows[i].topSpeed <= c.y.hi)
      && MinOf(AvgSpeeds(rows)) <= c.centreAvg <= MaxOf(AvgSpeeds(rows))
      && MinOf(TopSpeeds(rows)) <= c.centreTop <= MaxOf(TopSpeeds(rows))
  {
    if |rows| == 0 then Err(NoTopSpeedColumn)
    else
      var xs, ys := AvgSpeeds(rows), TopSpeeds(rows);
      MeanBetweenMinAndMax(xs);
      MeanBetweenMinAndMax(ys);
      Ok(AeroChart(rows, AxisLimits(xs), AxisLimits(ys), Mean(xs), Mean(ys)))
  }

  /** The whole chart of a session. */
  function GridAero(resultTeams: seq<string>, laps: seq<LapOwner>, telemetry: string -> Option<seq<real>>,
                    teamLibrary: string -> Option<string>): (r: Result<AeroChart>)
    ensures r.Err? <==> forall t :: t in resultTeams ==> TeamRowOf(t, laps, telemetry, teamLibrary).None?
    ensures r.Ok? ==> r.value.rows == TeamRows(resultTeams, laps, telemetry, teamLibrary)
  {
    var rows := TeamRows(resultTeams, laps, telemetry, teamLibrary);
    assert rows == [] ==> forall t :: t in resultTeams ==> TeamRowOf(t, laps, telemetry, teamLibrary).None?;
    assert rows != [] ==> rows[0] in rows;
    Chart(rows)
  }

  const DownforceSuffix := "Downforce_Dark.png"

  function DownforcePath(year: int, event: string, session: string): string
  {
    Naming.SavePath(Naming.SavedPhotos, Naming.ChartFileName(year, event, session, DownforceSuffix))
  }
}
