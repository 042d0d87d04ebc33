/** Lap and sector times as whole microseconds, with the normalised fields a pandas
    `Timedelta` exposes (`days`, `seconds`, `microseconds`). */
module Times {

  type Micros = int

  const MicrosPerMilli: int := 1000
  const MicrosPerSecond: int := 1_000_000
  const SecondsPerDay: int := 86_400
  const SecondsPerMinute: int := 60

  /** `Timedelta.days`: whole days, rounded towards negative infinity. */
  function DaysField(t: Micros): int
  {
    (t / MicrosPerSecond) / SecondsPerDay
  }

  /** `Timedelta.seconds`: the seconds within the day. */
  function SecondsField(t: Micros): (s: nat)
    ensures s < SecondsPerDay
  {
    (t / MicrosPerSecond) % SecondsPerDay
  }

  /** `Timedelta.microseconds`: the microseconds within the second. */
  function MicrosecondsField(t: Micros): (us: nat)
    ensures us < MicrosPerSecond
  {
    t % MicrosPerSecond
  }

  /** The three fields are a normal form: together they give back the duration. */
  lemma FieldsRecompose(t: Micros)
    ensures (DaysField(t) * SecondsPerDay + SecondsField(t)) * MicrosPerSecond + MicrosecondsField(t) == t
  {
  }
}
