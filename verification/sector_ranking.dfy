/** The fastest-sector ranking: each driver's best time in each of the three sectors,
    ranked, cut to the top twenty, and drawn as "zoomed" bars. */
module SectorRanking {
  import opened Results
  import opened Sorting
  import opened Times
  import Colors
  import Naming

  datatype Sector = Sector1 | Sector2 | Sector3

  /** The three sector times of one lap (`None` for NaT). */
  datatype SectorLap = SectorLap(sector1: Option<Micros>, sector2: Option<Micros>, sector3: Option<Micros>)

  /** A driver's abbreviation and laps. A driver whose lookups raised is `None` in the input. */
  datatype DriverLaps = DriverLaps(abbreviation: string, laps: seq<SectorLap>)

  /** One row of a sector ranking. */
  datatype RankEntry = RankEntry(driver: string, time: Micros, color: string)

  /** How many rows a sector panel draws at most. */
  const TopCount := 20
  /** The width of the fastest bar: the zoom subtracts `min − 0.5 s` from every time. */
  const ZoomMargin: Micros := 500_000
  /** The layout width used when a panel has no rows (1.0 s). */
  const EmptyPanelWidth: Micros := 1_000_000
  /** The error raised by sorting a frame that has no `Time` column. */
  const NoTimeColumn := "KeyError: 'Time'"

  function TimeIn(lap: SectorLap, k: Sector): Option<Micros>
  {
    match k
    case Sector1 => lap.sector1
    case Sector2 => lap.sector2
    case Sector3 => lap.sector3
  }

  /** `laps['SectorNTime'].min()`: missing times are skipped, and the minimum is missing
      when no lap has a time. */
  function BestTime(laps: seq<SectorLap>, k: Sector): (m: Option<Micros>)
    ensures m.None? <==> forall i :: 0 <= i < |laps| ==> TimeIn(laps[i], k).None?
    ensures m.Some? ==> exists i :: 0 <= i < |laps| && TimeIn(laps[i], k) == m
    ensures m.Some? ==> forall i :: 0 <= i < |laps| && TimeIn(laps[i], k).Some? ==>
      m.value <= TimeIn(laps[i], k).value
  {
    if |laps| == 0 then None
    else
      var rest := BestTime(laps[1..], k);
      var here := TimeIn(laps[0], k);
      assert forall i :: 1 <= i < |laps| ==> laps[i] == laps[1..][i - 1];
      if here.None? then rest
      else if rest.None? || here.value <= rest.value then here
      else rest
  }

  predicate Ranked(d: Option<DriverLaps>, k: Sector)
  {
    d.Some? && BestTime(d.value.laps, k).Some?
  }

  function EntryOf(d: DriverLaps, k: Sector, library: string -> Option<string>): RankEntry
    requires BestTime(d.laps, k).Some?
  {
    RankEntry(d.abbreviation, BestTime(d.laps, k).value, Colors.DriverColor(d.abbreviation, library))
  }

  /** `e` is the entry that driver `j` contributes to sector `k`. */
  predicate ListedAt(drivers: seq<Option<DriverLaps>>, k: Sector, library: string -> Option<string>, j: int, e: RankEntry)
  {
    0 <= j < |drivers| && Ranked(drivers[j], k) && e == EntryOf(drivers[j].value, k, library)
  }

  /** The collection loop for one sector: a driver is listed exactly when the lookups
      succeeded and the driver has a best time in that sector. */
  function Entries(drivers: seq<Option<DriverLaps>>, k: Sector, library: string -> Option<string>): (r: seq<RankEntry>)
    ensures |r| <= |drivers|
    ensures forall j :: 0 <= j < |drivers| && Ranked(drivers[j], k) ==> EntryOf(drivers[j].value, k, library) in r
    ensures forall e :: e in r ==> exists j :: ListedAt(drivers, k, library, j, e)
  {
    if |drivers| == 0 then []
    else
      var rest := Entries(drivers[1..], k, library);
      assert forall j :: 1 <= j < |drivers| ==> drivers[j] == drivers[1..][j - 1];
      forall e | e in rest ensures exists j :: ListedAt(drivers, k, library, j, e) {
        var j :| ListedAt(drivers[1..], k, library, j, e);
        assert ListedAt(drivers, k, library, j + 1, e);
      }
      if Ranked(drivers[0], k) then
        var r := [EntryOf(drivers[0].value, k, library)] + rest;
        assert ListedAt(drivers, k, library, 0, r[0]);
        r
      else rest
  }

  function TimeKey(e: RankEntry): real
  {
    e.time as real
  }

  /** `pd.DataFrame(entries).sort_values('Time')`: the sector's entries, ascending by time.
      A frame built from no entries has no `Time` column, so the sort raises. */
  function Ranking(drivers: seq<Option<DriverLaps>>, k: Sector, library: string -> Option<string>): (r: Result<seq<RankEntry>>)
    ensures r.Err? <==> Entries(drivers, k, library) == []
    ensures r.Err? ==> r.message == NoTimeColumn
    ensures r.Ok? ==> SortedBy(r.value, TimeKey) && multiset(r.value) == multiset(Entries(drivers, k, library))
  {
    var entries := Entries(drivers, k, library);
    if entries == [] then Err(NoTimeColumn) else Ok(SortBy(entries, TimeKey))
  }

  function Min(a: int, b: int): int
  {
    if a <= b then a else b
  }

  /** The rows drawn: the first `min(len, 20)` of the ranking, in rank order. */
  function Drawn(ranking: seq<RankEntry>): (r: seq<RankEntry>)
    ensures |r| == Min(|ranking|, TopCount)
    ensures forall i :: 0 <= i < |r| ==> r[i] == ranking[i]
    ensures SortedBy(ranking, TimeKey) ==> SortedBy(r, TimeKey)
  {
    ranking[..Min(|ranking|, TopCount)]
  }

  function MinTime(rs: seq<RankEntry>): (m: Micros)
    requires |rs| > 0
    ensures exists i :: 0 <= i < |rs| && rs[i].time == m
    ensures forall i :: 0 <= i < |rs| ==> m <= rs[i].time
  {
    if |rs| == 1 then rs[0].time
    else
      var t := MinTime(rs[1..]);
      assert forall i :: 1 <= i < |rs| ==> rs[i] == rs[1..][i - 1];
      if rs[0].time <= t then rs[0].time else t
  }

  function MaxTime(rs: seq<RankEntry>): (m: Micros)
    requires |rs| > 0
    ensures exists i :: 0 <= i < |rs| && rs[i].time == m
    ensures forall i :: 0 <= i < |rs| ==> rs[i].time <= m
  {
    if |rs| == 1 then rs[0].time
    else
      var t := MaxTime(rs[1..]);
      assert forall i :: 1 <= i < |rs| ==> rs[i] == rs[1..][i - 1];
      if rs[0].time >= t then rs[0].time else t
  }

  /** The zoom of one panel: the floor subtracted from every time, the widest bar used for
      the axis limit, and the widths of the drawn bars. */
  datatype Zoom = Zoom(floor: Micros, maxWidth: Micros, widths: seq<Micros>)

  /** Bars are `time − (min − 0.5 s)`: the fastest is exactly 0.5 s wide, none is narrower,
      a slower time never gets a shorter bar, and differences between bars are differences
      between times. */
  function ZoomBars(ranking: seq<RankEntry>): (z: Zoom)
    ensures |z.widths| == Min(|ranking|, TopCount)
    ensures forall i :: 0 <= i < |z.widths| ==> z.widths[i] >= ZoomMargin
    ensures forall i :: 0 <= i < |z.widths| ==> z.widths[i] <= z.maxWidth
    ensures forall i, j :: 0 <= i < |z.widths| && 0 <= j < |z.widths| ==>
      z.widths[j] - z.widths[i] == ranking[j].time - ranking[i].time
    ensures forall i, j :: 0 <= i < |z.widths| && 0 <= j < |z.widths| && ranking[i].time <= ranking[j].time ==>
      z.widths[i] <= z.widths[j]
    ensures |ranking| > 0 && SortedBy(ranking, TimeKey) ==> z.widths[0] == ZoomMargin
    ensures |ranking| == 0 ==> z.floor == 0 && z.maxWidth == EmptyPanelWidth
  {
    var n := Min(|ranking|, TopCount);
    if n == 0 then Zoom(0, EmptyPanelWidth, [])
    else
      var floor := MinTime(ranking) - ZoomMargin;
      var widths := seq(n, i requires 0 <= i < n => ranking[i].time - floor);
      assert forall i :: 0 <= i < n ==> widths[i] == ranking[i].time - floor;
      SortedHeadIsMin(ranking);
      Zoom(floor, MaxTime(ranking) - floor, widths)
  }

  /** In a ranking sorted by time, the first entry holds the smallest time. */
  lemma SortedHeadIsMin(ranking: seq<RankEntry>)
    ensures |ranking| > 0 && SortedBy(ranking, TimeKey) ==> ranking[0].time == MinTime(ranking)
  {
    if |ranking| > 0 && SortedBy(ranking, TimeKey) {
      var i :| 0 <= i < |ranking| && ranking[i].time == MinTime(ranking);
      assert TimeKey(ranking[0]) <= TimeKey(ranking[i]);
    }
  }

  /** One panel of the chart: the rows drawn and their zoom. */
  datatype Panel = Panel(rows: seq<RankEntry>, zoom: Zoom)

  /** One sector's panel, or the error its sort raised. */
  function SectorPanel(drivers: seq<Option<DriverLaps>>, k: Sector, library: string -> Option<string>): (p: Result<Panel>)
    ensures p.Err? <==> Entries(drivers, k, library) == []
    ensures p.Err? ==> p.message == NoTimeColumn
  {
    match Ranking(drivers, k, library)
    case Err(e) => Err(e)
    case Ok(ranking) => Ok(Panel(Drawn(ranking), ZoomBars(ranking)))
  }

  /** A panel draws exactly `min(n, 20)` of the sector's `n` entries: the head of the
      ranking, fastest first, so no entry left out is faster than a drawn one; its first
      bar is exactly 0.5 s wide. */
  lemma PanelShape(drivers: seq<Option<DriverLaps>>, k: Sector, library: string -> Option<string>)
    ensures var p, entries := SectorPanel(drivers, k, library), Entries(drivers, k, library);
      p.Ok? ==>
        && |p.value.rows| == Min(|entries|, TopCount) == |p.value.zoom.widths|
        && 0 < |p.value.rows|
        && p.value.rows == Ranking(drivers, k, library).value[..|p.value.rows|]
        && SortedBy(p.value.rows, TimeKey)
        && multiset(p.value.rows) <= multiset(entries)
        && (forall e, i :: e in entries && e !in p.value.rows && 0 <= i < |p.value.rows| ==>
              p.value.rows[i].time <= e.time)
        && p.value.zoom.widths[0] == ZoomMargin
  {
    var r := Ranking(drivers, k, library);
    if r.Ok? {
      var ranking := r.value;
      var rows := Drawn(ranking);
      DrawnIsPart(ranking);
      forall e, i | e in Entries(drivers, k, library) && e !in rows && 0 <= i < |rows|
        ensures rows[i].time <= e.time
      {
        UndrawnIsSlower(ranking, e, i);
      }
    }
  }

  /** In a sorted ranking, an entry outside the drawn head is no faster than a drawn row. */
  lemma UndrawnIsSlower(ranking: seq<RankEntry>, e: RankEntry, i: int)
    requires SortedBy(ranking, TimeKey)
    requires e in multiset(ranking) && e !in Drawn(ranking) && 0 <= i < |Drawn(ranking)|
    ensures Drawn(ranking)[i].time <= e.time
  {
    var j :| 0 <= j < |ranking| && ranking[j] == e;
    assert TimeKey(ranking[i]) <= TimeKey(ranking[j]);
  }

  /** The head of a list holds no more of anything than the list. */
  lemma DrawnIsPart(ranking: seq<RankEntry>)
    ensures multiset(Drawn(ranking)) <= multiset(ranking)
  {
    var n := Min(|ranking|, TopCount);
    assert ranking == ranking[..n] + ranking[n..];
    assert multiset(ranking) == multiset(ranking[..n]) + multiset(ranking[n..]);
  }

  /** The three panels, one per sector. The three frames are all sorted before anything is
      drawn, so a sector with no times at all fails the whole chart. */
  function SectorPanels(drivers: seq<Option<DriverLaps>>, library: string -> Option<string>): (r: Result<seq<Panel>>)
    ensures r.Err? <==>
      || Entries(drivers, Sector1, library) == []
      || Entries(drivers, Sector2, library) == []
      || Entries(drivers, Sector3, library) == []
    ensures r.Err? ==> r.message == NoTimeColumn
    ensures r.Ok? ==>
      && |r.value| == 3
      && Ok(r.value[0]) == SectorPanel(drivers, Sector1, library)
      && Ok(r.value[1]) == SectorPanel(drivers, Sector2, library)
      && Ok(r.value[2]) == SectorPanel(drivers, Sector3, library)
  {
    First3(SectorPanel(drivers, Sector1, library), SectorPanel(drivers, Sector2, library),
           SectorPanel(drivers, Sector3, library))
  }

  /** Three results in order, or the first error among them. */
  function First3<T>(a: Result<T>, b: Result<T>, c: Result<T>): (r: Result<seq<T>>)
    ensures r.Err? <==> a.Err? || b.Err? || c.Err?
    ensures r.Err? ==> r == Err(if a.Err? then a.message else if b.Err? then b.message else c.message)
    ensures r.Ok? ==> r.value == [a.value, b.value, c.value]
  {
    if a.Err? then Err(a.message)
    else if b.Err? then Err(b.message)
    else if c.Err? then Err(c.message)
    else Ok([a.value, b.value, c.value])
  }

  /** Two inputs with the same drivers, lookups and sector-`k` times. */
  ghost predicate AgreeOn(a: seq<Option<DriverLaps>>, b: seq<Option<DriverLaps>>, k: Sector)
  {
    && |a| == |b|
    && forall j :: 0 <= j < |a| ==>
         && (a[j].None? <==> b[j].None?)
         && (a[j].Some? ==> b[j].Some? && a[j].value.abbreviation == b[j].value.abbreviation
                            && SameTimes(a[j].value.laps, b[j].value.laps, k))
  }

  ghost predicate SameTimes(l1: seq<SectorLap>, l2: seq<SectorLap>, k: Sector)
  {
    |l1| == |l2| && forall i :: 0 <= i < |l1| ==> TimeIn(l1[i], k) == TimeIn(l2[i], k)
  }

  lemma {:induction false} BestTimeDependsOnSectorOnly(l1: seq<SectorLap>, l2: seq<SectorLap>, k: Sector)
    requires SameTimes(l1, l2, k)
    ensures BestTime(l1, k) == BestTime(l2, k)
  {
    if |l1| > 0 {
      BestTimeDependsOnSectorOnly(l1[1..], l2[1..], k);
    }
  }

  /** The three rankings are independent: sector `k`'s ranking is the same for any two
      inputs that agree on the drivers and on the sector-`k` times, whatever the other
      sectors hold. */
  lemma {:induction false} SectorsAreIndependent(a: seq<Option<DriverLaps>>, b: seq<Option<DriverLaps>>,
                                                 k: Sector, library: string -> Option<string>)
    requires AgreeOn(a, b, k)
    ensures Entries(a, k, library) == Entries(b, k, library)
    ensures Ranking(a, k, library) == Ranking(b, k, library)
  {
    if |a| > 0 {
      assert AgreeOn(a[1..], b[1..], k);
      SectorsAreIndependent(a[1..], b[1..], k, library);
      if a[0].Some? {
        BestTimeDependsOnSectorOnly(a[0].value.laps, b[0].value.laps, k);
      }
    }
  }

  const SectorRanksSuffix := "SectorRanks.png"

  function SectorRanksPath(year: int, event: string, session: string): string
  {
    Naming.SavePath(Naming.SavedPhotos, Naming.ChartFileName(year, event, session, SectorRanksSuffix))
  }
}
