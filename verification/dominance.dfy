/** The track-dominance map: the fastest driver of each of the three quickest teams, and
    for each of 25 mini-sectors of the reference lap the driver with the highest mean speed. */
module Dominance {
  import opened Results
  import opened Seqs
  import opened Sorting
  import Decimal
  import Naming
  import opened Times
  import opened Scaling

  /** A driver's fastest lap; `lapTime` is `None` when it is not a time (`NaT`). */
  datatype FastestLap = FastestLap(driver: string, team: string, lapTime: Option<Micros>)

  /** A fastest lap with a time. */
  datatype Candidate = Candidate(driver: string, team: string, lapTime: Micros)

  /** A chosen lap and the rank printed for it: its position in the sorted candidates,
      counted from one, skipped laps included. */
  datatype Pick = Pick(lap: Candidate, rank: nat)

  const TeamsNeeded := 3

  /** A lap that was looked up and has a time. */
  predicate HasTime(o: Option<FastestLap>)
  {
    o.Some? && o.value.lapTime.Some?
  }

  /** A candidate seen as the fastest lap it came from. */
  function LapOf(c: Candidate): Option<FastestLap>
  {
    Some(FastestLap(c.driver, c.team, Some(c.lapTime)))
  }

  function LapsOf(cs: seq<Candidate>): (ls: seq<Option<FastestLap>>)
    ensures |ls| == |cs|
    ensures forall k :: 0 <= k < |cs| ==> ls[k] == LapOf(cs[k])
  {
    seq(|cs|, k requires 0 <= k < |cs| => LapOf(cs[k]))
  }

  /** The laps with a time, in the session's driver order; a driver whose lookup raised
      (`None`) or whose fastest lap has no time is skipped. */
  function Candidates(laps: seq<Option<FastestLap>>): (cs: seq<Candidate>)
    ensures LapsOf(cs) == Filter(laps, HasTime)
    ensures forall c :: c in cs <==> LapOf(c) in laps
  {
    if |laps| == 0 then []
    else
      var rest := Candidates(laps[1..]);
      var cs := if HasTime(laps[0])
        then [CandidateOf(laps[0].value)] + rest
        else rest;
      CandidatesStep(laps, rest);
      CandidateMembers(laps, cs);
      cs
  }

  function CandidateOf(l: FastestLap): Candidate
    requires l.lapTime.Some?
  {
    Candidate(l.driver, l.team, l.lapTime.value)
  }

  /** Putting a timed lap's candidate in front of the rest's candidates lists it in front
      of the rest's timed laps. */
  lemma CandidatesStep(laps: seq<Option<FastestLap>>, rest: seq<Candidate>)
    requires |laps| > 0 && LapsOf(rest) == Filter(laps[1..], HasTime)
    ensures HasTime(laps[0]) ==> LapsOf([CandidateOf(laps[0].value)] + rest) == Filter(laps, HasTime)
    ensures !HasTime(laps[0]) ==> LapsOf(rest) == Filter(laps, HasTime)
  {
    if HasTime(laps[0]) {
      assert LapsOf([CandidateOf(laps[0].value)] + rest) == [laps[0]] + LapsOf(rest);
    }
  }

  /** Candidates that list exactly the timed laps are exactly the laps' candidates. */
  lemma CandidateMembers(laps: seq<Option<FastestLap>>, cs: seq<Candidate>)
    requires LapsOf(cs) == Filter(laps, HasTime)
    ensures forall c :: c in cs <==> LapOf(c) in laps
  {
    forall c ensures c in cs <==> LapOf(c) in laps {
      if c in cs {
        var k :| 0 <= k < |cs| && cs[k] == c;
        assert LapsOf(cs)[k] == LapOf(c);
      }
      if LapOf(c) in laps {
        assert LapOf(c) in LapsOf(cs);
        var k :| 0 <= k < |cs| && LapsOf(cs)[k] == LapOf(c);
        assert cs[k] == c;
      }
    }
  }

  function LapKey(c: Candidate): real
  {
    c.lapTime as real
  }

  /** `valid_laps.sort(key=LapTime)`: Python's sort is stable, so equal times keep the
      driver order. */
  function Sorted(cs: seq<Candidate>): (s: seq<Candidate>)
    ensures SortedBy(s, LapKey)
    ensures multiset(s) == multiset(cs)
    ensures forall k :: WithKey(s, LapKey, k) == WithKey(cs, LapKey, k)
  {
    forall k ensures WithKey(SortBy(cs, LapKey), LapKey, k) == WithKey(cs, LapKey, k) {
      SortIsStable(cs, LapKey, k);
    }
    SortBy(cs, LapKey)
  }

  /** No earlier lap in `s` belongs to the team of `s[i]`. */
  ghost predicate FirstOfTeam(s: seq<Candidate>, i: int)
    requires 0 <= i < |s|
  {
    forall j :: 0 <= j < i ==> s[j].team != s[i].team
  }

  ghost predicate Increasing(p: seq<nat>)
  {
    forall a, b :: 0 <= a < b < |p| ==> p[a] < p[b]
  }

  /** `p` lists, in order, exactly the first laps of their team among `s[..end]`. */
  ghost predicate FirstsUpTo(s: seq<Candidate>, p: seq<nat>, end: int)
    requires 0 <= end <= |s|
  {
    && Increasing(p)
    && (forall k :: 0 <= k < |p| ==> p[k] < end)
    && (forall i :: 0 <= i < end ==> (i in p <==> FirstOfTeam(s, i)))
  }

  predicate TeamTaken(s: seq<Candidate>, p: seq<nat>, team: string)
    requires forall k :: 0 <= k < |p| ==> p[k] < |s|
  {
    exists k :: 0 <= k < |p| && s[p[k]].team == team
  }

  /** The earliest lap of `s[..hi]` in `team`. */
  function FirstOf(s: seq<Candidate>, team: string, hi: nat): (j: nat)
    requires hi <= |s|
    requires exists j :: 0 <= j < hi && s[j].team == team
    ensures j < hi && s[j].team == team && FirstOfTeam(s, j)
  {
    if s[0].team == team then 0
    else
      assert hi > 0;
      var j := 1 + FirstOf(s[1..], team, hi - 1);
      assert s[j] == s[1..][j - 1];
      assert forall i :: 1 <= i < j ==> s[i] == s[1..][i - 1];
      j
  }

  /** With the first laps of `s[..i]` picked, the team of `s[i]` was taken exactly when
      `s[i]` is not the first lap of its team. */
  lemma {:induction false} TakenIffSeen(s: seq<Candidate>, p: seq<nat>, i: nat)
    requires i < |s|
    requires FirstsUpTo(s, p, i)
    ensures TeamTaken(s, p, s[i].team) <==> !FirstOfTeam(s, i)
  {
    if !FirstOfTeam(s, i) {
      var j := FirstOf(s, s[i].team, i);
      var k :| 0 <= k < |p| && p[k] == j;
      assert s[p[k]].team == s[i].team;
    }
  }

  /** The loop over the sorted laps: from lap `i` on, with `acc` picked so far. */
  function Scan(s: seq<Candidate>, i: nat, acc: seq<nat>): (p: seq<nat>)
    requires i <= |s|
    requires |acc| < TeamsNeeded
    requires FirstsUpTo(s, acc, i)
    ensures |p| <= TeamsNeeded
    ensures var end := if |p| == TeamsNeeded then p[TeamsNeeded - 1] + 1 else |s|;
      end <= |s| && FirstsUpTo(s, p, end)
    decreases |s| - i
  {
    if i == |s| then acc
    else if TeamTaken(s, acc, s[i].team) then
      TakenIffSeen(s, acc, i);
      Scan(s, i + 1, acc)
    else
      TakenIffSeen(s, acc, i);
      var next := acc + [i];
      assert forall j :: 0 <= j < i ==> (j in next <==> j in acc);
      if |next| == TeamsNeeded then next else Scan(s, i + 1, next)
  }

  /** The indices of the chosen laps in the sorted candidates. */
  function FirstTeams(s: seq<Candidate>): (p: seq<nat>)
    ensures |p| <= TeamsNeeded
    ensures var end := if |p| == TeamsNeeded then p[TeamsNeeded - 1] + 1 else |s|;
      end <= |s| && FirstsUpTo(s, p, end)
  {
    Scan(s, 0, [])
  }

  /** Fewer than three picks means the scan saw every lap, so every team of the session
      is among the picks. */
  lemma {:induction false} FewPicksCoverAllTeams(s: seq<Candidate>, team: string)
    requires |FirstTeams(s)| < TeamsNeeded
    requires exists j :: 0 <= j < |s| && s[j].team == team
    ensures exists k :: 0 <= k < |FirstTeams(s)| && s[FirstTeams(s)[k]].team == team
  {
    var p := FirstTeams(s);
    var j := FirstOf(s, team, |s|);
    var k :| 0 <= k < |p| && p[k] == j;
  }

  /** The chosen laps carry distinct teams. */
  lemma {:induction false} PicksHaveDistinctTeams(s: seq<Candidate>, a: nat, b: nat)
    requires a < b < |FirstTeams(s)|
    ensures s[FirstTeams(s)[a]].team != s[FirstTeams(s)[b]].team
  {
    var p := FirstTeams(s);
    var end := if |p| == TeamsNeeded then p[TeamsNeeded - 1] + 1 else |s|;
    assert p[a] < p[b] < end;
    assert FirstOfTeam(s, p[b]);
  }

  function PicksAt(s: seq<Candidate>, p: seq<nat>): (r: seq<Pick>)
    requires forall k :: 0 <= k < |p| ==> p[k] < |s|
    ensures |r| == |p|
    ensures forall k :: 0 <= k < |p| ==> r[k] == Pick(s[p[k]], p[k] + 1)
  {
    if |p| == 0 then [] else [Pick(s[p[0]], p[0] + 1)] + PicksAt(s, p[1..])
  }

  function OnlyFound(n: nat): string
  {
    "Found only " + Decimal.IntToString(n) + " unique teams. Need at least 3."
  }

  /** Three picks, each the first lap of its team in `s` and carrying its rank there, in
      increasing rank, such that every lap up to the last pick belongs to a picked team. */
  ghost predicate ChosenFrom(s: seq<Candidate>, picks: seq<Pick>)
  {
    && |picks| == TeamsNeeded
    && (forall k :: 0 <= k < TeamsNeeded ==>
          && 1 <= picks[k].rank <= |s|
          && picks[k].lap == s[picks[k].rank - 1]
          && FirstOfTeam(s, picks[k].rank - 1))
    && (forall k, m :: 0 <= k < m < TeamsNeeded ==> picks[k].rank < picks[m].rank)
    && (forall i :: 0 <= i < picks[TeamsNeeded - 1].rank ==> TeamPicked(s, i, picks))
  }

  /** The team of lap `i` is among the picks' teams. */
  ghost predicate TeamPicked(s: seq<Candidate>, i: int, picks: seq<Pick>)
    requires 0 <= i < |s|
  {
    s[i].team in Teams(picks)
  }

  function Teams(picks: seq<Pick>): (ts: seq<string>)
    ensures |ts| == |picks|
    ensures forall k :: 0 <= k < |picks| ==> ts[k] == picks[k].lap.team
  {
    if |picks| == 0 then [] else [picks[0].lap.team] + Teams(picks[1..])
  }

  lemma {:induction false} ThreeFirstsAreChosen(s: seq<Candidate>)
    requires |FirstTeams(s)| == TeamsNeeded
    ensures ChosenFrom(s, PicksAt(s, FirstTeams(s)))
  {
    var p := FirstTeams(s);
    var end := p[TeamsNeeded - 1] + 1;
    FirstsArePicked(s, p, end);
    forall i | 0 <= i < end
      ensures TeamPicked(s, i, PicksAt(s, p))
    {
      CoveredByFirst(s, p, end, i);
    }
    FirstsAreChosen(s, p);
  }

  lemma {:induction false} FirstsAreChosen(s: seq<Candidate>, p: seq<nat>)
    requires |p| == TeamsNeeded && p[TeamsNeeded - 1] < |s|
    requires Increasing(p)
    requires forall k :: 0 <= k < |p| ==> p[k] < |s| && FirstOfTeam(s, p[k])
    requires forall i :: 0 <= i <= p[TeamsNeeded - 1] ==> TeamPicked(s, i, PicksAt(s, p))
    ensures ChosenFrom(s, PicksAt(s, p))
  {
    var picks := PicksAt(s, p);
    forall k | 0 <= k < TeamsNeeded
      ensures 1 <= picks[k].rank <= |s| && picks[k].lap == s[picks[k].rank - 1]
      ensures FirstOfTeam(s, picks[k].rank - 1)
    {
      assert picks[k] == Pick(s[p[k]], p[k] + 1);
    }
  }

  lemma {:induction false} FirstsArePicked(s: seq<Candidate>, p: seq<nat>, end: nat)
    requires end <= |s|
    requires FirstsUpTo(s, p, end)
    ensures forall k :: 0 <= k < |p| ==> p[k] < end && FirstOfTeam(s, p[k])
  {
    forall k | 0 <= k < |p|
      ensures p[k] < end && FirstOfTeam(s, p[k])
    {
      assert p[k] in p;
    }
  }

  lemma {:induction false} CoveredByFirst(s: seq<Candidate>, p: seq<nat>, end: nat, i: nat)
    requires i < end <= |s|
    requires FirstsUpTo(s, p, end)
    ensures TeamPicked(s, i, PicksAt(s, p))
  {
    var j := FirstOf(s, s[i].team, i + 1);
    assert j in p;
    var k :| 0 <= k < |p| && p[k] == j;
    assert Teams(PicksAt(s, p))[k] == s[i].team;
  }

  /** The three chosen laps of the sorted candidates `s` with their ranks, or the error
      when fewer than three teams set a time. */
  function Choose(s: seq<Candidate>): (r: Result<seq<Pick>>)
    ensures r.Err? <==> |FirstTeams(s)| < TeamsNeeded
    ensures r.Err? ==> r.message == OnlyFound(|FirstTeams(s)|)
    ensures r.Ok? ==> ChosenFrom(s, r.value)
  {
    var p := FirstTeams(s);
    if |p| < TeamsNeeded then Err(OnlyFound(|p|))
    else
      ThreeFirstsAreChosen(s);
      Ok(PicksAt(s, p))
  }

  /** Steps 1 to 3 of the analysis: the fastest laps with a time, sorted, then the first
      lap of each of the three quickest teams. */
  function TopThree(laps: seq<Option<FastestLap>>): (r: Result<seq<Pick>>)
    ensures var s := Sorted(Candidates(laps));
      && (r.Err? <==> |FirstTeams(s)| < TeamsNeeded)
      && (r.Ok? ==> ChosenFrom(s, r.value))
  {
    Choose(Sorted(Candidates(laps)))
  }

  /** The first pick is the first lap of the scan: rank 1. */
  lemma FirstPickLeads(s: seq<Candidate>, picks: seq<Pick>)
    requires ChosenFrom(s, picks)
    ensures picks[0].rank == 1 && picks[0].lap == s[0]
  {
    assert 1 <= picks[0].rank <= |s|;
    assert TeamPicked(s, 0, picks);
    var k :| 0 <= k < TeamsNeeded && Teams(picks)[k] == s[0].team;
    assert picks[k].lap.team == s[0].team;
    assert FirstOfTeam(s, picks[k].rank - 1);
    assert picks[k].rank == 1;
  }

  /** The first pick is the overall fastest lap among the candidates. */
  lemma TopPickIsFastest(laps: seq<Option<FastestLap>>)
    requires TopThree(laps).Ok?
    ensures var top := TopThree(laps).value[0].lap;
      && top in Candidates(laps)
      && forall c :: c in Candidates(laps) ==> top.lapTime <= c.lapTime
  {
    var cs := Candidates(laps);
    var s := Sorted(cs);
    FirstPickLeads(s, TopThree(laps).value);
    SortedHeadIsFastest(cs);
  }

  /** The head of the sorted candidates is a candidate with the smallest lap time. */
  lemma SortedHeadIsFastest(cs: seq<Candidate>)
    requires |cs| > 0
    ensures Sorted(cs)[0] in cs
    ensures forall c :: c in cs ==> Sorted(cs)[0].lapTime <= c.lapTime
  {
    var s := Sorted(cs);
    assert s[0] in multiset(cs);
    forall c | c in cs ensures s[0].lapTime <= c.lapTime {
      assert c in multiset(s);
      var j :| 0 <= j < |s| && s[j] == c;
      assert LapKey(s[0]) <= LapKey(s[j]);
    }
  }

  /** One telemetry sample of a lap: distance from the start line, speed and position. */
  datatype Sample = Sample(distance: real, speed: real, x: real, y: real)

  /** A chosen driver's lap telemetry, tagged with the driver. */
  datatype Trace = Trace(driver: string, samples: seq<Sample>)

  const MiniSectors: nat := 25

  /** `total_distance / num_minisectors`. */
  function SectorLength(total: real): real
  {
    total / MiniSectors as real
  }

  /** Mini-sector `i` is the half-open distance range `[i·len, (i+1)·len)`. */
  predicate InSector(d: real, total: real, i: int)
  {
    i as real * SectorLength(total) <= d < (i + 1) as real * SectorLength(total)
  }

  /** A non-empty mini-sector has a positive length. */
  lemma {:induction false} NonEmptySector(d: real, total: real, i: int)
    requires InSector(d, total, i)
    ensures SectorLength(total) > 0.0
  {
    var len := SectorLength(total);
    assert (i + 1) as real * len == i as real * len + len;
  }

  /** No distance lies in two mini-sectors. */
  lemma {:induction false} SectorsAreDisjoint(d: real, total: real, i: int, j: int)
    requires InSector(d, total, i) && InSector(d, total, j)
    ensures i == j
  {
    var len := SectorLength(total);
    NonEmptySector(d, total, i);
    var lo_i, hi_i := i as real * len, (i + 1) as real * len;
    var lo_j, hi_j := j as real * len, (j + 1) as real * len;
    assert lo_i <= d < hi_i && lo_j <= d < hi_j;
    assert lo_j < hi_i && lo_i < hi_j;
    ScaleBack(j as real, (i + 1) as real, len);
    ScaleBack(i as real, (j + 1) as real, len);
  }

  /** The reference lap's own end point, at `total`, falls in none of the 25 mini-sectors,
      since the last range stops just short of it. */
  lemma {:induction false} EndLiesInNoSector(total: real, i: int)
    requires 0 <= i < MiniSectors
    ensures !InSector(total, total, i)
  {
    var len := SectorLength(total);
    assert MiniSectors as real * len == total;
    assert (i + 1) as real * len == i as real * len + len;
    if len >= 0.0 {
      MulLe((i + 1) as real, MiniSectors as real, len);
    }
  }

  /** Every distance from the start up to, but not including, the total lies in the
      mini-sector its quotient by the sector length rounds down to. */
  lemma {:induction false} EveryDistanceBeforeTheEndIsCovered(d: real, total: real)
    requires 0.0 <= d < total
    ensures var i := (d / SectorLength(total)).Floor;
      0 <= i < MiniSectors && InSector(d, total, i)
  {
    var len := SectorLength(total);
    assert MiniSectors as real * len == total;
    assert len > 0.0;
    var q := d / len;
    assert q * len == d;
    assert 0.0 <= q by { ScaleBackLe(0.0, q, len); }
    assert q < MiniSectors as real by { ScaleBack(q, MiniSectors as real, len); }
    var i := q.Floor;
    assert i as real <= q < (i + 1) as real;
    Bracket(d, len, q, i as real, (i + 1) as real);
  }

  function SectorSamples(samples: seq<Sample>, total: real, i: int): (r: seq<Sample>)
    ensures forall x :: x in r <==> x in samples && InSector(x.distance, total, i)
    ensures forall x :: multiset(r)[x] == if InSector(x.distance, total, i) then multiset(samples)[x] else 0
    ensures IsSubseq(r, samples)
  {
    var inSector := (x: Sample) => InSector(x.distance, total, i);
    FilterIsSubseq(samples, inSector);
    FilterMultiset(samples, inSector);
    Filter(samples, inSector)
  }

  function Speeds(samples: seq<Sample>): (v: seq<real>)
    ensures |v| == |samples|
    ensures forall k :: 0 <= k < |samples| ==> v[k] == samples[k].speed
  {
    if |samples| == 0 then [] else [samples[0].speed] + Speeds(samples[1..])
  }

  /** A driver's mean speed over the mini-sector; none without a sample there. */
  function SectorSpeed(t: Trace, total: real, i: int): (v: Option<real>)
    ensures v.Some? <==> exists x :: x in t.samples && InSector(x.distance, total, i)
    ensures v.Some? ==> var sp := Speeds(SectorSamples(t.samples, total, i));
      v.value == Mean(sp) && MinOf(sp) <= v.value <= MaxOf(sp)
  {
    var inside := SectorSamples(t.samples, total, i);
    if |inside| == 0 then None
    else
      MeanBetweenMinAndMax(Speeds(inside));
      Some(Mean(Speeds(inside)))
  }

  /** An entry of the insertion-ordered `sector_speeds` dictionary. */
  datatype Entry = Entry(driver: string, speed: real)

  function Keys(m: seq<Entry>): (ks: seq<string>)
    ensures |ks| == |m|
    ensures forall k :: 0 <= k < |m| ==> ks[k] == m[k].driver
  {
    if |m| == 0 then [] else [m[0].driver] + Keys(m[1..])
  }

  function Lookup(m: seq<Entry>, d: string): (v: Option<real>)
    ensures v.Some? <==> d in Keys(m)
    ensures v.Some? ==> Entry(d, v.value) in m
  {
    if |m| == 0 then None
    else if m[0].driver == d then Some(m[0].speed)
    else Lookup(m[1..], d)
  }

  /** `m[d] = v`: an existing key keeps its place and takes the new value, a new key goes
      last. */
  function Put(m: seq<Entry>, d: string, v: real): (r: seq<Entry>)
    ensures d in Keys(m) ==> Keys(r) == Keys(m)
    ensures d !in Keys(m) ==> Keys(r) == Keys(m) + [d]
  {
    if |m| == 0 then [Entry(d, v)]
    else
      var r := if m[0].driver == d then [Entry(d, v)] + m[1..] else [m[0]] + Put(m[1..], d, v);
      assert Keys(m) == [m[0].driver] + Keys(m[1..]);
      assert r[1..] == if m[0].driver == d then m[1..] else Put(m[1..], d, v);
      assert Keys(r) == [r[0].driver] + Keys(r[1..]);
      r
  }

  /** After `m[d] = v`, looking up `d` gives `v`. */
  lemma {:induction false} PutThenLookup(m: seq<Entry>, d: string, v: real)
    ensures Lookup(Put(m, d, v), d) == Some(v)
  {
    if |m| > 0 && m[0].driver != d {
      PutThenLookup(m[1..], d, v);
      assert Put(m, d, v)[1..] == Put(m[1..], d, v);
    }
  }

  /** `m[d] = v` leaves every other key's value as it was. */
  lemma {:induction false} PutKeepsOthers(m: seq<Entry>, d: string, v: real, e: string)
    requires e != d
    ensures Lookup(Put(m, d, v), e) == Lookup(m, e)
  {
    if |m| > 0 {
      if m[0].driver == d {
        assert Put(m, d, v)[1..] == m[1..];
      } else {
        PutKeepsOthers(m[1..], d, v, e);
        assert Put(m, d, v)[1..] == Put(m[1..], d, v);
      }
    }
  }

  /** Keys stay distinct under `m[d] = v`. */
  lemma {:induction false} PutKeepsKeysDistinct(m: seq<Entry>, d: string, v: real)
    requires Distinct(Keys(m))
    ensures Distinct(Keys(Put(m, d, v)))
  {
    var ks := Keys(m);
    if d !in ks {
      assert Keys(Put(m, d, v)) == ks + [d];
    }
  }

  /** Some trace of driver `d` has a value under `f`. */
  ghost predicate HasValue(ts: seq<Trace>, f: Trace -> Option<real>, d: string)
  {
    exists t :: t in ts && t.driver == d && f(t).Some?
  }

  /** `v` is the value under `f` of some trace of driver `d`. */
  ghost predicate ValueOf(ts: seq<Trace>, f: Trace -> Option<real>, d: string, v: Option<real>)
  {
    exists t :: t in ts && t.driver == d && f(t) == v
  }

  /** The dictionary the loop over the traces builds, `f` giving each trace's value or
      none. */
  function Gather(ts: seq<Trace>, f: Trace -> Option<real>): (m: seq<Entry>)
    ensures Distinct(Keys(m))
    ensures forall d :: d in Keys(m) <==> HasValue(ts, f, d)
    ensures forall d :: d in Keys(m) ==> ValueOf(ts, f, d, Lookup(m, d))
  {
    if |ts| == 0 then []
    else
      var front := ts[..|ts| - 1];
      var t := ts[|ts| - 1];
      var m := Gather(front, f);
      assert forall u :: u in ts <==> u in front || u == t;
      assert forall d :: HasValue(front, f, d) ==> HasValue(ts, f, d);
      assert forall d, v :: ValueOf(front, f, d, v) ==> ValueOf(ts, f, d, v);
      match f(t)
      case None =>
        assert forall d :: HasValue(ts, f, d) ==> HasValue(front, f, d);
        m
      case Some(v) =>
        var r := Put(m, t.driver, v);
        PutKeepsKeysDistinct(m, t.driver, v);
        PutThenLookup(m, t.driver, v);
        forall e | e != t.driver ensures Lookup(r, e) == Lookup(m, e) {
          PutKeepsOthers(m, t.driver, v, e);
        }
        assert forall d :: d in Keys(r) <==> d in Keys(m) || d == t.driver;
        assert HasValue(ts, f, t.driver);
        assert ValueOf(ts, f, t.driver, Some(v));
        r
  }

  /** The entries of the traces that have a value, in trace order. */
  function Present(ts: seq<Trace>, f: Trace -> Option<real>): (m: seq<Entry>)
    ensures |m| <= |ts|
  {
    if |ts| == 0 then []
    else
      var t := ts[|ts| - 1];
      Present(ts[..|ts| - 1], f) + (if f(t).Some? then [Entry(t.driver, f(t).value)] else [])
  }

  ghost predicate DistinctDrivers(ts: seq<Trace>)
  {
    forall a, b :: 0 <= a < b < |ts| ==> ts[a].driver != ts[b].driver
  }

  /** A new key goes last. */
  lemma {:induction false} PutNew(m: seq<Entry>, d: string, v: real)
    requires d !in Keys(m)
    ensures Put(m, d, v) == m + [Entry(d, v)]
  {
    if |m| > 0 {
      assert Keys(m) == [m[0].driver] + Keys(m[1..]);
      assert m[0].driver != d && d !in Keys(m[1..]);
      PutNew(m[1..], d, v);
      assert Put(m, d, v) == [m[0]] + Put(m[1..], d, v);
      assert m == [m[0]] + m[1..];
    }
  }

  /** When every trace belongs to a different driver, no value is overwritten: the
      dictionary lists the drivers with a value in the order of the traces, so ties in
      `max` go to the earliest selected driver. */
  lemma {:induction false} GatherInOrder(ts: seq<Trace>, f: Trace -> Option<real>)
    requires DistinctDrivers(ts)
    ensures Gather(ts, f) == Present(ts, f)
  {
    if |ts| > 0 {
      var front := ts[..|ts| - 1];
      var t := ts[|ts| - 1];
      assert DistinctDrivers(front) by {
        assert forall a :: 0 <= a < |front| ==> front[a] == ts[a];
      }
      GatherInOrder(front, f);
      if f(t).Some? {
        PutNew(Gather(front, f), t.driver, f(t).value);
      }
    }
  }

  function SpeedIn(total: real, i: int): (f: Trace -> Option<real>)
    ensures forall t :: f(t) == SectorSpeed(t, total, i)
  {
    t => SectorSpeed(t, total, i)
  }

  /** `sector_speeds` after the loop over the traces: a key for exactly the drivers with a
      sample in the mini-sector, each holding the mean speed of one of that driver's traces. */
  function SectorSpeeds(ts: seq<Trace>, total: real, i: int): (m: seq<Entry>)
    ensures Distinct(Keys(m))
    ensures forall d :: d in Keys(m) <==>
      exists t :: t in ts && t.driver == d && SectorSpeed(t, total, i).Some?
    ensures forall d :: d in Keys(m) ==>
      exists t :: t in ts && t.driver == d && SectorSpeed(t, total, i) == Lookup(m, d)
  {
    Gather(ts, SpeedIn(total, i))
  }

  function Slowness(e: Entry): real
  {
    -e.speed
  }

  /** `max(sector_speeds, key=sector_speeds.get)`: the highest mean speed, the earliest
      key on a tie. */
  function Winner(m: seq<Entry>): (w: string)
    requires |m| > 0
    ensures exists k :: (0 <= k < |m| && m[k].driver == w
      && (forall j :: 0 <= j < |m| ==> m[j].speed <= m[k].speed)
      && (forall j :: 0 <= j < k ==> m[j].speed < m[k].speed))
  {
    var k := FirstMinIndex(m, Slowness);
    assert forall j :: 0 <= j < |m| ==> Slowness(m[k]) <= Slowness(m[j]);
    m[k].driver
  }

  /** A coloured stretch of the reference lap. */
  datatype Segment = Segment(sector: nat, driver: string, color: string, points: seq<Sample>)

  /** The mini-sector's segment, if one is drawn: it needs a winner and at least two
      reference samples. The colour comes from the plotting library, whose failure is not
      caught. */
  function SectorSegment(reference: seq<Sample>, ts: seq<Trace>, total: real, i: nat,
                         driverLibrary: string -> Option<string>): (r: Result<Option<Segment>>)
    ensures var m := SectorSpeeds(ts, total, i);
      var points := SectorSamples(reference, total, i);
      && (r.Err? <==> |m| > 0 && |points| >= 2 && driverLibrary(Winner(m)).None?)
      && (r.Ok? && r.value.Some? <==> |m| > 0 && |points| >= 2 && driverLibrary(Winner(m)).Some?)
      && (r.Ok? && r.value.Some? ==>
            r.value.value == Segment(i, Winner(m), driverLibrary(Winner(m)).value, points))
  {
    var m := SectorSpeeds(ts, total, i);
    var points := SectorSamples(reference, total, i);
    if |m| == 0 || |points| < 2 then Ok(None)
    else
      var w := Winner(m);
      match driverLibrary(w)
      case None => Err("no colour for " + w)
      case Some(c) => Ok(Some(Segment(i, w, c, points)))
  }

  /** The outcome of every mini-sector, in order. */
  function Outcomes(reference: seq<Sample>, ts: seq<Trace>, total: real,
                    driverLibrary: string -> Option<string>): (os: seq<Result<Option<Segment>>>)
    ensures |os| == MiniSectors
    ensures forall j :: 0 <= j < MiniSectors ==> os[j] == SectorSegment(reference, ts, total, j, driverLibrary)
  {
    seq(MiniSectors, (j: int) requires 0 <= j => SectorSegment(reference, ts, total, j, driverLibrary))
  }

  /** Mini-sector `j`'s outcome is a drawn segment, tagged with `j`. */
  ghost predicate Tagged(os: seq<Result<Option<Segment>>>)
  {
    forall j :: 0 <= j < |os| && os[j].Ok? && os[j].value.Some? ==> os[j].value.value.sector == j
  }

  /** The drawn segments of the outcomes from `i` on, in order; the first failure ends
      the analysis. */
  function SegmentsFrom(os: seq<Result<Option<Segment>>>, i: nat): (r: Result<seq<Segment>>)
    requires i <= |os|
    requires Tagged(os)
    ensures r.Err? <==> exists j :: i <= j < |os| && os[j].Err?
    ensures r.Ok? ==> forall k :: 0 <= k < |r.value| ==>
      i <= r.value[k].sector < |os| && os[r.value[k].sector] == Ok(Some(r.value[k]))
    ensures r.Ok? ==> forall a, b :: 0 <= a < b < |r.value| ==> r.value[a].sector < r.value[b].sector
    decreases |os| - i
  {
    if i == |os| then Ok([])
    else
      match os[i]
      case Err(e) => Err(e)
      case Ok(here) =>
        match SegmentsFrom(os, i + 1)
        case Err(e) => Err(e)
        case Ok(rest) =>
          if here.Some? then
            assert forall k :: 0 <= k < |rest| ==> ([here.value] + rest)[k + 1] == rest[k];
            Ok([here.value] + rest)
          else Ok(rest)
  }

  /** Every drawn segment from `i` on is gathered. */
  lemma {:induction false} SegmentsFromComplete(os: seq<Result<Option<Segment>>>, i: nat, j: nat)
    requires i <= j < |os|
    requires Tagged(os)
    requires SegmentsFrom(os, i).Ok?
    requires os[j].Ok? && os[j].value.Some?
    ensures os[j].value.value in SegmentsFrom(os, i).value
    decreases |os| - i
  {
    if i < j {
      SegmentsFromComplete(os, i + 1, j);
    }
  }

  /** All drawn segments of the map, in mini-sector order: a segment for exactly the
      mini-sectors with a winner and two reference samples, unless a colour lookup fails. */
  function Segments(reference: seq<Sample>, ts: seq<Trace>, total: real,
                    driverLibrary: string -> Option<string>): (r: Result<seq<Segment>>)
    ensures r.Err? <==> exists j :: 0 <= j < MiniSectors && SectorSegment(reference, ts, total, j, driverLibrary).Err?
    ensures r.Ok? ==> forall k :: 0 <= k < |r.value| ==>
      0 <= r.value[k].sector < MiniSectors
      && SectorSegment(reference, ts, total, r.value[k].sector, driverLibrary) == Ok(Some(r.value[k]))
    ensures r.Ok? ==> forall a, b :: 0 <= a < b < |r.value| ==> r.value[a].sector < r.value[b].sector
    ensures r.Ok? ==> forall j :: 0 <= j < MiniSectors ==> (
      var o := SectorSegment(reference, ts, total, j, driverLibrary);
      o.Ok? && o.value.Some? ==> o.value.value in r.value)
  {
    var os := Outcomes(reference, ts, total, driverLibrary);
    var r := SegmentsFrom(os, 0);
    if r.Ok? then
      forall j | 0 <= j < MiniSectors && os[j].Ok? && os[j].value.Some?
        ensures os[j].value.value in r.value
      {
        SegmentsFromComplete(os, 0, j);
      }
      r
    else r
  }

  function Drivers(segments: seq<Segment>): (ds: seq<string>)
    ensures |ds| == |segments|
    ensures forall k :: 0 <= k < |segments| ==> ds[k] == segments[k].driver
  {
    seq(|segments|, k requires 0 <= k < |segments| => segments[k].driver)
  }

  /** The map: the three picks, the coloured segments and the legend, one entry per
      driver who won a drawn mini-sector. */
  datatype DominanceMap = DominanceMap(picks: seq<Pick>, total: real, segments: seq<Segment>, legend: seq<string>)

  function Distances(samples: seq<Sample>): (ds: seq<real>)
    ensures |ds| == |samples|
    ensures forall k :: 0 <= k < |samples| ==> ds[k] == samples[k].distance
  {
    if |samples| == 0 then [] else [samples[0].distance] + Distances(samples[1..])
  }

  /** The telemetry of each pick, in pick order; a lookup that raised ends the analysis. */
  function TracesOf(picks: seq<Pick>, telemetry: string -> Option<seq<Sample>>): (r: Result<seq<Trace>>)
    ensures r.Err? <==> exists k :: 0 <= k < |picks| && telemetry(picks[k].lap.driver).None?
    ensures r.Ok? ==> |r.value| == |picks| && forall k :: 0 <= k < |picks| ==>
      r.value[k] == Trace(picks[k].lap.driver, telemetry(picks[k].lap.driver).value)
  {
    if |picks| == 0 then Ok([])
    else
      var d := picks[0].lap.driver;
      assert forall k :: 1 <= k < |picks| ==> picks[k] == picks[1..][k - 1];
      match telemetry(d)
      case None => Err("no telemetry for " + d)
      case Some(samples) =>
        match TracesOf(picks[1..], telemetry)
        case Err(e) => Err(e)
        case Ok(rest) => Ok([Trace(d, samples)] + rest)
  }

  /** The error `max` raises on the distances of an empty reference lap. */
  const EmptyMaxArg := "ValueError: max() arg is an empty sequence"

  /** Steps 4 and 5 for three picks: the first pick's lap is the reference, its greatest
      distance the lap length; an empty reference fails as `max` does on an empty column. */
  function MapOf(picks: seq<Pick>, telemetry: string -> Option<seq<Sample>>,
                 driverLibrary: string -> Option<string>): (r: Result<DominanceMap>)
    requires |picks| == TeamsNeeded
    ensures r.Ok? ==> telemetry(picks[0].lap.driver).Some? && var ref := telemetry(picks[0].lap.driver).value;
      && |ref| > 0
      && r.value.picks == picks
      && r.value.total in Distances(ref)
      && (forall k :: 0 <= k < |ref| ==> ref[k].distance <= r.value.total)
      && Distinct(r.value.legend)
      && (forall d :: d in r.value.legend <==> d in Drivers(r.value.segments))
    ensures r.Ok? ==> (TracesOf(picks, telemetry).Ok?
      && var ts := TracesOf(picks, telemetry).value;
         Segments(ts[0].samples, ts, r.value.total, driverLibrary) == Ok(r.value.segments))
    ensures telemetry(picks[0].lap.driver) == Some([]) ==> r.Err?
  {
    match TracesOf(picks, telemetry)
    case Err(e) => Err(e)
    case Ok(ts) =>
      var ref := ts[0].samples;
      if |ref| == 0 then Err(EmptyMaxArg)
      else
        var total := MaxOf(Distances(ref));
        match Segments(ref, ts, total, driverLibrary)
        case Err(e) => Err(e)
        case Ok(segments) => Ok(DominanceMap(picks, total, segments, Dedup(Drivers(segments))))
  }

  /** The map fails exactly when a telemetry lookup raises (see TracesOf), when the
      reference lap is empty and max raises on its distances, or when the colour lookup of
      some mini-sector's winner raises; the three cases together cover every input. */
  lemma MapOfFails(picks: seq<Pick>, telemetry: string -> Option<seq<Sample>>,
                   driverLibrary: string -> Option<string>)
    requires |picks| == TeamsNeeded
    ensures TracesOf(picks, telemetry).Err? ==>
      MapOf(picks, telemetry, driverLibrary) == Err(TracesOf(picks, telemetry).message)
    ensures TracesOf(picks, telemetry).Ok? && TracesOf(picks, telemetry).value[0].samples == [] ==>
      MapOf(picks, telemetry, driverLibrary) == Err(EmptyMaxArg)
    ensures TracesOf(picks, telemetry).Ok? && TracesOf(picks, telemetry).value[0].samples != [] ==>
      (MapOf(picks, telemetry, driverLibrary).Err? <==> WinnerColourFails(TracesOf(picks, telemetry).value, driverLibrary))
  {
    var t := TracesOf(picks, telemetry);
    if t.Ok? && t.value[0].samples != [] {
      var ts := t.value;
      var ref := ts[0].samples;
      var total := MaxOf(Distances(ref));
      assert MapOf(picks, telemetry, driverLibrary).Err? <==> Segments(ref, ts, total, driverLibrary).Err?;
    }
  }

  /** Some mini-sector's winner, measured against the first trace as reference, has no colour. */
  ghost predicate WinnerColourFails(ts: seq<Trace>, driverLibrary: string -> Option<string>)
    requires |ts| > 0 && ts[0].samples != []
  {
    var ref := ts[0].samples;
    exists j :: 0 <= j < MiniSectors && SectorSegment(ref, ts, MaxOf(Distances(ref)), j, driverLibrary).Err?
  }

  /** The whole analysis. */
  function TrackDominance(laps: seq<Option<FastestLap>>, telemetry: string -> Option<seq<Sample>>,
                          driverLibrary: string -> Option<string>): (r: Result<DominanceMap>)
    ensures TopThree(laps).Err? ==> r == Err(TopThree(laps).message)
    ensures TopThree(laps).Ok? ==> r == MapOf(TopThree(laps).value, telemetry, driverLibrary)
    ensures r.Ok? ==> TopThree(laps).Ok? && r.value.picks == TopThree(laps).value
  {
    match TopThree(laps)
    case Err(e) => Err(e)
    case Ok(picks) => MapOf(picks, telemetry, driverLibrary)
  }

  const DominanceSuffix := "DominanceMap.png"

  function DominancePath(year: int, event: string, session: string): string
  {
    Naming.SavePath(Naming.DominancePhotos, Naming.ChartFileName(year, event, session, DominanceSuffix))
  }
}
