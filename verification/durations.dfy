/** Durations as the formatter receives them, and their reduction to one canonical
    total: a whole number of seconds. Two carriers exist: a calendar-unit object with
    named fields (luxon's Duration.fromObject) and a plain millisecond count (a moment
    duration). The formatter only ever looks at the resolved total. */
module Durations {

  /** Days counted in one year when a total is split into units. Nothing in the
      test table fixes this number: 365 is an assumption of the model (a common year,
      leap days ignored). */
  const DaysPerYear: nat := 365

  const SecondsPerMinute: nat := 60
  const SecondsPerHour: nat := 3600
  const SecondsPerDay: nat := 86400
  const SecondsPerWeek: nat := 604800
  const SecondsPerYear: nat := 31536000
  const MillisPerSecond: nat := 1000

  /** The constants agree with each other: a week is seven days, a year DaysPerYear days. */
  lemma ConstantsAgree()
    ensures SecondsPerHour == 60 * SecondsPerMinute
    ensures SecondsPerDay == 24 * SecondsPerHour
    ensures SecondsPerWeek == 7 * SecondsPerDay
    ensures SecondsPerYear == DaysPerYear * SecondsPerDay
  {
  }

  /** A duration written with named calendar units; a unit left out of the object is zero. */
  datatype UnitDuration = UnitDuration(
    years: nat := 0,
    weeks: nat := 0,
    days: nat := 0,
    hours: nat := 0,
    minutes: nat := 0,
    seconds: nat := 0)

  /** The two duration carriers the formatter accepts. */
  datatype Duration =
    | Luxon(units: UnitDuration)
    | Moment(millis: nat)

  /** Seconds in a unit-field duration; weeks become seven days each, years DaysPerYear days. */
  function UnitSeconds(u: UnitDuration): (t: nat)
    ensures t >= u.seconds
    ensures t >= u.minutes * SecondsPerMinute
    ensures t >= u.weeks * SecondsPerWeek
  {
    u.years * SecondsPerYear + u.weeks * SecondsPerWeek + u.days * SecondsPerDay
      + u.hours * SecondsPerHour + u.minutes * SecondsPerMinute + u.seconds
  }

  /** The length in milliseconds of the same span as a unit-field duration, a year counted
      as DaysPerYear days. */
  function UnitMillis(u: UnitDuration): (ms: nat)
    ensures ms / MillisPerSecond == UnitSeconds(u)
    ensures ms % MillisPerSecond == 0
  {
    UnitSeconds(u) * MillisPerSecond
  }

  /** The canonical total: whole seconds. A sub-second remainder of a millisecond count
      is dropped, which cannot change the output, because only whole minutes are shown. */
  function TotalSeconds(d: Duration): nat
  {
    match d
    case Luxon(u) => UnitSeconds(u)
    case Moment(ms) => ms / MillisPerSecond
  }

  /** Carrying the same length as a unit object or as a millisecond count gives the same total. */
  lemma CarriersAgree(u: UnitDuration)
    ensures TotalSeconds(Moment(UnitMillis(u))) == TotalSeconds(Luxon(u))
  {
  }

  /** Weeks have no unit of their own: a week adds exactly seven days' worth of seconds. */
  lemma {:induction false} WeeksAreSevenDays(u: UnitDuration)
    ensures UnitSeconds(u.(weeks := u.weeks + 1)) == UnitSeconds(u.(days := u.days + 7))
    ensures UnitSeconds(u) == UnitSeconds(u.(weeks := 0, days := u.days + 7 * u.weeks))
  {
  }
}
