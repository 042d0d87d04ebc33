/** The whole-grid lap-delta table: each driver's fastest lap, sorted, with the gap to the
    leader and the bar labels. */
module LapDelta {
  import opened Results
  import opened Sorting
  import opened Times
  import opened Decimal
  import Colors
  import Naming

  /** What the session yields for one driver: the abbreviation and the fastest lap's
      `LapTime` (`None` for NaT). A driver whose lookups raised is `None` in the input. */
  datatype FastestLap = FastestLap(abbreviation: string, lapTime: Option<Micros>)

  /** One collected record: driver, fastest lap time, bar colour. */
  datatype Entry = Entry(driver: string, lapTime: Micros, color: string)

  /** One row of the sorted table, with the gap to the leader. */
  datatype DeltaRow = DeltaRow(driver: string, lapTime: Micros, color: string, gap: Micros)

  const NoLapData := "No valid lap data found."

  predicate Timed(l: Option<FastestLap>)
  {
    l.Some? && l.value.lapTime.Some?
  }

  function EntryOf(l: FastestLap, library: string -> Option<string>): Entry
    requires l.lapTime.Some?
  {
    Entry(l.abbreviation, l.lapTime.value, Colors.DriverColor(l.abbreviation, library))
  }

  /** `e` is the entry that driver `j` contributes. */
  predicate ListedAt(laps: seq<Option<FastestLap>>, library: string -> Option<string>, j: int, e: Entry)
  {
    0 <= j < |laps| && Timed(laps[j]) && e == EntryOf(laps[j].value, library)
  }

  /** The collection loop: a driver enters exactly when the lookups succeeded and the fastest
      lap has a time, in session order. */
  function Collect(laps: seq<Option<FastestLap>>, library: string -> Option<string>): (r: seq<Entry>)
    ensures |r| <= |laps|
    ensures forall j :: 0 <= j < |laps| && Timed(laps[j]) ==> EntryOf(laps[j].value, library) in r
    ensures forall e :: e in r ==> exists j :: ListedAt(laps, library, j, e)
    ensures |r| == 0 <==> forall j :: 0 <= j < |laps| ==> !Timed(laps[j])
  {
    if |laps| == 0 then []
    else
      var rest := Collect(laps[1..], library);
      assert forall j :: 1 <= j < |laps| ==> laps[j] == laps[1..][j - 1];
      forall e | e in rest ensures exists j :: ListedAt(laps, library, j, e) {
        var j :| ListedAt(laps[1..], library, j, e);
        assert ListedAt(laps, library, j + 1, e);
      }
      if Timed(laps[0]) then
        var r := [EntryOf(laps[0].value, library)] + rest;
        assert ListedAt(laps, library, 0, r[0]);
        r
      else rest
  }

  function LapKey(e: Entry): real
  {
    e.lapTime as real
  }

  function EntryOfRow(row: DeltaRow): Entry
  {
    Entry(row.driver, row.lapTime, row.color)
  }

  function EntriesOf(rows: seq<DeltaRow>): (es: seq<Entry>)
    ensures |es| == |rows|
    ensures forall i :: 0 <= i < |rows| ==> es[i] == EntryOfRow(rows[i])
  {
    if |rows| == 0 then [] else [EntryOfRow(rows[0])] + EntriesOf(rows[1..])
  }

  /** Row 0 is the leader: every gap is the row's lap time minus the leader's, so the
      leader's gap is zero, no gap is negative and gaps grow down the table. */
  ghost predicate MeasuredFromLeader(rows: seq<DeltaRow>)
  {
    && |rows| > 0
    && rows[0].gap == 0
    && (forall i :: 0 <= i < |rows| ==> rows[i].gap == rows[i].lapTime - rows[0].lapTime)
    && (forall i :: 0 <= i < |rows| ==> rows[i].gap >= 0)
    && (forall i, j :: 0 <= i <= j < |rows| ==> rows[i].gap <= rows[j].gap)
  }

  /** Measures every gap from row 0 of a table already sorted by lap time. */
  function Tabulate(sorted: seq<Entry>): (rows: seq<DeltaRow>)
    requires |sorted| > 0
    requires SortedBy(sorted, LapKey)
    ensures |rows| == |sorted|
    ensures forall i :: 0 <= i < |rows| ==> EntryOfRow(rows[i]) == sorted[i]
    ensures forall e :: e in sorted ==> rows[0].lapTime <= e.lapTime
    ensures MeasuredFromLeader(rows)
  {
    var leader := sorted[0].lapTime;
    var rows := seq(|sorted|, i requires 0 <= i < |sorted| =>
      DeltaRow(sorted[i].driver, sorted[i].lapTime, sorted[i].color, sorted[i].lapTime - leader));
    rows
  }

  /** Whatever is below every element of a sequence is below every element of any
      permutation of it. */
  lemma LowerBoundPerm(a: seq<Entry>, b: seq<Entry>, t: int)
    requires multiset(a) == multiset(b)
    requires forall e :: e in a ==> t <= e.lapTime
    ensures forall e :: e in b ==> t <= e.lapTime
  {
    forall e | e in b ensures t <= e.lapTime {
      assert e in multiset(b);
      assert e in multiset(a);
    }
  }

  /** Sort by lap time and measure every gap from row 0; an empty collection is the error
      the analysis prints before giving up. */
  function GapTable(entries: seq<Entry>): (r: Result<seq<DeltaRow>>)
    ensures r.Err? <==> |entries| == 0
    ensures r.Err? ==> r.message == NoLapData
    ensures r.Ok? ==>
      && |r.value| == |entries|
      && multiset(EntriesOf(r.value)) == multiset(entries)
      && SortedBy(EntriesOf(r.value), LapKey)
      && (forall e :: e in entries ==> r.value[0].lapTime <= e.lapTime)
      && MeasuredFromLeader(r.value)
  {
    if |entries| == 0 then Err(NoLapData)
    else
      var sorted := SortBy(entries, LapKey);
      var rows := Tabulate(sorted);
      assert EntriesOf(rows) == sorted;
      LowerBoundPerm(sorted, entries, rows[0].lapTime);
      Ok(rows)
  }

  /** The lap-delta analysis up to the chart: collect, then tabulate. The table holds
      every collected entry once, fastest first, each with its gap to the leader. */
  function LapDeltaTable(laps: seq<Option<FastestLap>>, library: string -> Option<string>): (r: Result<seq<DeltaRow>>)
    ensures r.Err? <==> forall j :: 0 <= j < |laps| ==> !Timed(laps[j])
    ensures r.Err? ==> r.message == NoLapData
    ensures r.Ok? ==> |r.value| > 0
    ensures r.Ok? ==>
      && multiset(EntriesOf(r.value)) == multiset(Collect(laps, library))
      && SortedBy(EntriesOf(r.value), LapKey)
      && MeasuredFromLeader(r.value)
    ensures r.Ok? ==> forall j :: 0 <= j < |laps| && Timed(laps[j]) ==>
      r.value[0].lapTime <= laps[j].value.lapTime.value
  {
    var entries := Collect(laps, library);
    var r := GapTable(entries);
    assert r.Ok? ==> forall j :: 0 <= j < |laps| && Timed(laps[j]) ==>
      EntryOf(laps[j].value, library) in entries;
    r
  }

  /** The fields of the leader's label. */
  datatype Clock = Clock(minutes: nat, seconds: nat, millis: nat)

  /** `divmod(t.seconds, 60)` and `t.microseconds // 1000`. */
  function LeaderClock(t: Micros): (c: Clock)
    ensures c.minutes * SecondsPerMinute + c.seconds == SecondsField(t)
    ensures c.seconds < SecondsPerMinute
    ensures c.millis < 1000
    ensures c.millis * MicrosPerMilli <= MicrosecondsField(t) < (c.millis + 1) * MicrosPerMilli
  {
    Clock(SecondsField(t) / SecondsPerMinute, SecondsField(t) % SecondsPerMinute,
          MicrosecondsField(t) / MicrosPerMilli)
  }

  /** `f"{minutes:02d}:{remainder:02d}.{millis:03d}"`. */
  function ClockLabel(c: Clock): string
  {
    Padded(c.minutes, 2) + ":" + Padded(c.seconds, 2) + "." + Padded(c.millis, 3)
  }

  /** Reads `m…m:ss.mmm` back into its fields. */
  function ParseClock(s: string): Option<Clock>
  {
    if |s| >= 9 && s[|s| - 7] == ':' && s[|s| - 4] == '.'
       && AllDigits(s[..|s| - 7]) && AllDigits(s[|s| - 6..|s| - 4]) && AllDigits(s[|s| - 3..])
    then Some(Clock(ParseNat(s[..|s| - 7]), ParseNat(s[|s| - 6..|s| - 4]), ParseNat(s[|s| - 3..])))
    else None
  }

  /** A clock label is read back as the clock it was made from. */
  lemma {:induction false} ClockRoundTrip(c: Clock)
    requires c.seconds < 60 && c.millis < 1000
    ensures |ClockLabel(c)| >= 9
    ensures c.minutes < 100 ==> |ClockLabel(c)| == 9
    ensures ParseClock(ClockLabel(c)) == Some(c)
  {
    var m, sec, ms := Padded(c.minutes, 2), Padded(c.seconds, 2), Padded(c.millis, 3);
    assert |sec| == 2 && |ms| == 3;
    ClockParts(m, sec, ms);
  }

  /** Where the pieces of `m:ss.mmm` sit, counted from the end. */
  lemma ClockParts(m: string, sec: string, ms: string)
    requires |sec| == 2 && |ms| == 3
    ensures var s := m + ":" + sec + "." + ms;
      && |s| == |m| + 7
      && s[|s| - 7] == ':' && s[|s| - 4] == '.'
      && s[..|s| - 7] == m && s[|s| - 6..|s| - 4] == sec && s[|s| - 3..] == ms
  {
    var s := m + ":" + sec + "." + ms;
    assert s[..|m|] == m;
    assert s[|m| + 1..|m| + 3] == sec;
    assert s[|m| + 4..] == ms;
  }

  /** The leader's label: a clock reading whose fields are the lap time's own. */
  function LeaderLabel(t: Micros): (text: string)
    ensures |text| >= 9
    ensures ParseClock(text).Some?
    ensures var c := ParseClock(text).value;
      && c.minutes * SecondsPerMinute + c.seconds == SecondsField(t)
      && c.seconds < SecondsPerMinute
      && c.millis * MicrosPerMilli <= MicrosecondsField(t) < (c.millis + 1) * MicrosPerMilli
  {
    ClockRoundTrip(LeaderClock(t));
    ClockLabel(LeaderClock(t))
  }

  /** The gap rounded to whole milliseconds, as `:.3f` rounds it. */
  function RoundedMillis(gap: nat): (ms: nat)
    ensures ms * MicrosPerMilli - 500 <= gap < ms * MicrosPerMilli + 500
  {
    (gap + 500) / MicrosPerMilli
  }

  /** `f"+{gap:.3f}s"`. */
  function GapLabel(gap: nat): string
  {
    var ms := RoundedMillis(gap);
    "+" + NatToString(ms / 1000) + "." + Padded(ms % 1000, 3) + "s"
  }

  /** Reads `+s…s.mmms` back as a count of milliseconds. */
  function ParseGap(s: string): Option<nat>
  {
    if |s| >= 7 && s[0] == '+' && s[|s| - 1] == 's' && s[|s| - 5] == '.'
       && AllDigits(s[1..|s| - 5]) && AllDigits(s[|s| - 4..|s| - 1])
    then Some(ParseNat(s[1..|s| - 5]) * 1000 + ParseNat(s[|s| - 4..|s| - 1]))
    else None
  }

  /** A gap label reads back as the gap rounded to the millisecond. */
  lemma {:induction false} GapRoundTrip(gap: nat)
    ensures ParseGap(GapLabel(gap)) == Some(RoundedMillis(gap))
  {
    var ms := RoundedMillis(gap);
    var whole, frac := NatToString(ms / 1000), Padded(ms % 1000, 3);
    var s := GapLabel(gap);
    assert s == "+" + whole + "." + frac + "s";
    assert s[1..|s| - 5] == whole;
    assert s[|s| - 4..|s| - 1] == frac;
  }

  /** The bar labels of a table: the leader's lap time as a clock, every other row `+gap`. */
  function Labels(rows: seq<DeltaRow>): (labels: seq<string>)
    ensures |labels| == |rows|
    ensures |rows| > 0 ==> (ParseClock(labels[0]).Some?
      && var c := ParseClock(labels[0]).value;
         && c.minutes * SecondsPerMinute + c.seconds == SecondsField(rows[0].lapTime)
         && c.seconds < SecondsPerMinute
         && c.millis * MicrosPerMilli <= MicrosecondsField(rows[0].lapTime) < (c.millis + 1) * MicrosPerMilli)
    ensures forall i :: 1 <= i < |rows| && rows[i].gap >= 0 ==>
      ParseGap(labels[i]) == Some(RoundedMillis(rows[i].gap))
  {
    var labels := seq(|rows|, i requires 0 <= i < |rows| =>
      if i == 0 then LeaderLabel(rows[i].lapTime)
      else if rows[i].gap >= 0 then GapLabel(rows[i].gap)
      else "+" + "-" + GapLabel(-rows[i].gap)[1..]);
    assert forall i :: 1 <= i < |rows| && rows[i].gap >= 0 ==>
      ParseGap(labels[i]) == Some(RoundedMillis(rows[i].gap)) by {
      forall i | 1 <= i < |rows| && rows[i].gap >= 0
        ensures ParseGap(labels[i]) == Some(RoundedMillis(rows[i].gap))
      {
        GapRoundTrip(rows[i].gap);
      }
    }
    labels
  }

  const LapDeltaSuffix := "LapDelta_Dark.png"

  /** Where the chart is saved. */
  function LapDeltaPath(year: int, event: string, session: string): string
  {
    Naming.SavePath(Naming.SavedPhotos, Naming.ChartFileName(year, event, session, LapDeltaSuffix))
  }
}
