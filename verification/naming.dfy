/** Names of the charts the analyses save. */
module Naming {
  import Decimal

  /** The directory the lap-time, long-run and downforce charts go to. */
  const SavedPhotos := "Saved_photos"
  /** The directory the dominance map goes to (the source spells it in lower case). */
  const DominancePhotos := "saved_photos"

  /** `str.replace(' ', '_')`. */
  function ReplaceSpaces(s: string): (r: string)
    ensures |r| == |s|
    ensures ' ' !in r
    ensures forall i :: 0 <= i < |s| && s[i] != ' ' ==> r[i] == s[i]
    ensures forall i :: 0 <= i < |s| && s[i] == ' ' ==> r[i] == '_'
  {
    if |s| == 0 then ""
    else [if s[0] == ' ' then '_' else s[0]] + ReplaceSpaces(s[1..])
  }

  /** `{year}_{event with spaces as underscores}_{session}_{suffix}`. */
  function ChartFileName(year: int, event: string, session: string, suffix: string): string
  {
    Decimal.IntToString(year) + "_" + ReplaceSpaces(event) + "_" + session + "_" + suffix
  }

  /** The file name starts with the year, carries the event without any space, then the
      session name, and ends with the analysis suffix. */
  lemma {:induction false} ChartFileNameParts(year: int, event: string, session: string, suffix: string)
    ensures var name := ChartFileName(year, event, session, suffix);
      var y := Decimal.IntToString(year);
      var e := ReplaceSpaces(event);
      && name[..|y|] == y
      && name[|y|] == '_'
      && name[|y| + 1..|y| + 1 + |e|] == e
      && ' ' !in name[|y| + 1..|y| + 1 + |e|]
      && name[|y| + 1 + |e|] == '_'
      && name[|y| + 2 + |e|..|y| + 2 + |e| + |session|] == session
      && name[|y| + 2 + |e| + |session|] == '_'
      && name[|name| - |suffix|..] == suffix
      && |name| == |y| + |event| + |session| + |suffix| + 3
  {
    Layout(Decimal.IntToString(year), ReplaceSpaces(event), session, suffix);
  }

  /** Where each part of `y_e_s_x` sits. */
  lemma Layout(y: string, e: string, session: string, suffix: string)
    ensures var name := y + "_" + e + "_" + session + "_" + suffix;
      && name[..|y|] == y
      && name[|y|] == '_'
      && name[|y| + 1..|y| + 1 + |e|] == e
      && name[|y| + 1 + |e|] == '_'
      && name[|y| + 2 + |e|..|y| + 2 + |e| + |session|] == session
      && name[|y| + 2 + |e| + |session|] == '_'
      && name[|name| - |suffix|..] == suffix
      && |name| == |y| + |e| + |session| + |suffix| + 3
  {
    var name := y + "_" + e + "_" + session + "_" + suffix;
    var p1 := y + "_";
    var p2 := p1 + e;
    var p3 := p2 + "_";
    var p4 := p3 + session;
    var p5 := p4 + "_";
    assert name == p5 + suffix;
    assert name[..|p5|] == p5;
    assert name[..|p4|] == p4 by { assert p5[..|p4|] == p4; }
    assert name[..|p2|] == p2 by { assert p4[..|p2|] == p2; }
    assert name[|p3|..|p4|] == session by { assert p4[|p3|..] == session; }
    assert name[|p1|..|p2|] == e by { assert p2[|p1|..] == e; }
    assert name[..|y|] == y by { assert p2[..|y|] == y; }
  }

  /** `os.path.join(directory, name)` on a POSIX system. */
  function SavePath(directory: string, name: string): (p: string)
    ensures |p| == |directory| + 1 + |name|
    ensures p[..|directory|] == directory && p[|directory|] == '/' && p[|directory| + 1..] == name
  {
    directory + "/" + name
  }
}
