/** The fixed 2025 colour table and the fall-back chain the analyses colour drivers and
    teams with. The plotting library's own lookup is a parameter: `None` when it raises. */
module Colors {
  import opened Results

  const Gray := "gray"

  /** The 2025 season colours, keyed on driver abbreviation. */
  const CustomColors: map<string, string> := map[
    "VER" := "#0600EF", "TSU" := "#0600EF",
    "LEC" := "#E8002D", "HAM" := "#E8002D",
    "NOR" := "#FF8000", "PIA" := "#FF8000",
    "RUS" := "#00D2BE", "ANT" := "#00D2BE",
    "ALO" := "#229971", "STR" := "#229971",
    "GAS" := "#0093CC", "DOO" := "#0093CC", "COL" := "#0093CC",
    "ALB" := "#64C4FF", "SAI" := "#64C4FF",
    "LAW" := "#6692FF", "HAD" := "#6692FF",
    "HUL" := "#52E252", "BOR" := "#52E252",
    "OCO" := "#B6BABD", "BEA" := "#B6BABD"
  ]

  /** The custom colour when there is one, else the library's answer, else gray. */
  function Fallback(key: string, library: Option<string>): string
  {
    if key in CustomColors then CustomColors[key]
    else if library.Some? then library.value
    else Gray
  }

  /** `get_driver_color_safe`: the library is asked for the driver's own colour. */
  function DriverColor(abbreviation: string, driverLibrary: string -> Option<string>): (c: string)
    ensures abbreviation in CustomColors ==> c == CustomColors[abbreviation]
    ensures abbreviation !in CustomColors && driverLibrary(abbreviation).Some?
      ==> c == driverLibrary(abbreviation).value
    ensures abbreviation !in CustomColors && driverLibrary(abbreviation).None? ==> c == Gray
  {
    Fallback(abbreviation, driverLibrary(abbreviation))
  }

  /** `get_team_color_safe`: keyed on the driver for the custom table, on the team for the library. */
  function TeamColor(team: string, driver: string, teamLibrary: string -> Option<string>): (c: string)
    ensures driver in CustomColors ==> c == CustomColors[driver]
    ensures driver !in CustomColors && teamLibrary(team).Some? ==> c == teamLibrary(team).value
    ensures driver !in CustomColors && teamLibrary(team).None? ==> c == Gray
  {
    Fallback(driver, teamLibrary(team))
  }

  /** A driver in the custom table never depends on the library: any two libraries agree. */
  lemma CustomDriverIgnoresLibrary(abbreviation: string, lib1: string -> Option<string>, lib2: string -> Option<string>)
    requires abbreviation in CustomColors
    ensures DriverColor(abbreviation, lib1) == DriverColor(abbreviation, lib2)
  {
  }

  /** The team colour of a driver in the custom table is the same whatever the team is called. */
  lemma CustomTeamColorKeyedOnDriver(team1: string, team2: string, driver: string, teamLibrary: string -> Option<string>)
    requires driver in CustomColors
    ensures TeamColor(team1, driver, teamLibrary) == TeamColor(team2, driver, teamLibrary)
  {
  }

  predicate IsHexDigit(c: char)
  {
    '0' <= c <= '9' || 'A' <= c <= 'F'
  }

  /** Every custom colour is a `#RRGGBB` string. */
  lemma CustomColorsAreHex()
    ensures forall k :: k in CustomColors ==>
      var v := CustomColors[k];
      |v| == 7 && v[0] == '#' && forall i :: 1 <= i < 7 ==> IsHexDigit(v[i])
  {
  }
}
