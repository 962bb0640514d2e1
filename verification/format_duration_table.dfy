/** The cases of the formatter's test table, each proved in narrow style (the default)
    and in long style, and the moment-duration case. A unit left out of the duration
    object is zero, as in the table. Each case is split in three: the terms of the
    split and their labels, the joined text, and the case itself. */
module FormatDurationTable {
  import opened Durations
  import opened Decomposition
  import opened Text
  import opened Rendering
  import opened FormattedDuration

  /** From one minute on, the text is that of the one normal split of the total. */
  lemma FormatsAsSplit(d: Duration, p: Parts, style: Style)
    requires Normal(p) && PartsSeconds(p) <= TotalSeconds(d) < PartsSeconds(p) + SecondsPerMinute
    requires TotalSeconds(d) >= SecondsPerMinute
    ensures FormatDuration(d, style) == Render(p, style)
  {
    DecomposeUnique(TotalSeconds(d), p);
  }

  /** A split renders as the given labels of its terms, joined by single spaces. */
  lemma RendersAs(p: Parts, style: Style, ls: seq<string>)
    requires |ls| == |Terms(p)| && forall i | 0 <= i < |ls| :: Label(Terms(p)[i], style) == ls[i]
    ensures Render(p, style) == Join(ls)
  {
    RenderJoinsLabels(Terms(p), style, ls);
  }

  /** {seconds: 0} */
  lemma ZeroSeconds(d: Duration)
    requires d == Luxon(UnitDuration(seconds := 0))
    ensures FormatDuration(d) == "< 1m"
    ensures FormatDuration(d, Long) == "less than 1 minute"
  {
  }

  /** {seconds: 59} */
  lemma FiftyNineSeconds(d: Duration)
    requires d == Luxon(UnitDuration(seconds := 59))
    ensures FormatDuration(d) == "< 1m"
    ensures FormatDuration(d, Long) == "less than 1 minute"
  {
  }

  /** The terms of the split of {minutes: 1} and their labels in both styles. */
  lemma OneMinuteLabels()
    ensures Terms(Parts(0, 0, 0, 1)) == [Term(1, Minute)]
    ensures Label(Term(1, Minute), Narrow) == "1m"
    ensures Label(Term(1, Minute), Long) == "1 minute"
  {
  }

  lemma OneMinuteJoined()
    ensures Join(["1m"]) == "1m"
    ensures Join(["1 minute"]) == "1 minute"
  {
  }

  /** {minutes: 1} */
  lemma OneMinute(d: Duration)
    requires d == Luxon(UnitDuration(minutes := 1))
    ensures FormatDuration(d) == "1m"
    ensures FormatDuration(d, Long) == "1 minute"
  {
    var p := Parts(0, 0, 0, 1);
    OneMinuteLabels();
    OneMinuteJoined();
    RendersAs(p, Narrow, ["1m"]);
    RendersAs(p, Long, ["1 minute"]);
    FormatsAsSplit(d, p, Narrow);
    FormatsAsSplit(d, p, Long);
  }

  /** {minutes: 1, seconds: 30} */
  lemma OneMinuteThirtySeconds(d: Duration)
    requires d == Luxon(UnitDuration(minutes := 1, seconds := 30))
    ensures FormatDuration(d) == "1m"
    ensures FormatDuration(d, Long) == "1 minute"
  {
    var p := Parts(0, 0, 0, 1);
    OneMinuteLabels();
    OneMinuteJoined();
    RendersAs(p, Narrow, ["1m"]);
    RendersAs(p, Long, ["1 minute"]);
    FormatsAsSplit(d, p, Narrow);
    FormatsAsSplit(d, p, Long);
  }

  /** The terms of the split of {minutes: 59} and their labels in both styles. */
  lemma FiftyNineMinutesLabels()
    ensures Terms(Parts(0, 0, 0, 59)) == [Term(59, Minute)]
    ensures Label(Term(59, Minute), Narrow) == "59m"
    ensures Label(Term(59, Minute), Long) == "59 minutes"
  {
  }

  lemma FiftyNineMinutesJoined()
    ensures Join(["59m"]) == "59m"
    ensures Join(["59 minutes"]) == "59 minutes"
  {
  }

  /** {minutes: 59} */
  lemma FiftyNineMinutes(d: Duration)
    requires d == Luxon(UnitDuration(minutes := 59))
    ensures FormatDuration(d) == "59m"
    ensures FormatDuration(d, Long) == "59 minutes"
  {
    var p := Parts(0, 0, 0, 59);
    FiftyNineMinutesLabels();
    FiftyNineMinutesJoined();
    RendersAs(p, Narrow, ["59m"]);
    RendersAs(p, Long, ["59 minutes"]);
    FormatsAsSplit(d, p, Narrow);
    FormatsAsSplit(d, p, Long);
  }

  /** The terms of the split of {hours: 1} and their labels in both styles. */
  lemma OneHourLabels()
    ensures Terms(Parts(0, 0, 1, 0)) == [Term(1, Hour)]
    ensures Label(Term(1, Hour), Narrow) == "1h"
    ensures Label(Term(1, Hour), Long) == "1 hour"
  {
  }

  lemma OneHourJoined()
    ensures Join(["1h"]) == "1h"
    ensures Join(["1 hour"]) == "1 hour"
  {
  }

  /** {hours: 1} */
  lemma OneHour(d: Duration)
    requires d == Luxon(UnitDuration(hours := 1))
    ensures FormatDuration(d) == "1h"
    ensures FormatDuration(d, Long) == "1 hour"
  {
    var p := Parts(0, 0, 1, 0);
    OneHourLabels();
    OneHourJoined();
    RendersAs(p, Narrow, ["1h"]);
    RendersAs(p, Long, ["1 hour"]);
    FormatsAsSplit(d, p, Narrow);
    FormatsAsSplit(d, p, Long);
  }

  /** The terms of the split of {hours: 1, minutes: 30} and their labels in both styles. */
  lemma OneHourThirtyMinutesLabels()
    ensures Terms(Parts(0, 0, 1, 30)) == [Term(1, Hour), Term(30, Minute)]
    ensures Label(Term(1, Hour), Narrow) == "1h"
    ensures Label(Term(30, Minute), Narrow) == "30m"
    ensures Label(Term(1, Hour), Long) == "1 hour"
    ensures Label(Term(30, Minute), Long) == "30 minutes"
  {
  }

  lemma OneHourThirtyMinutesJoined()
    ensures Join(["1h", "30m"]) == "1h 30m"
    ensures Join(["1 hour", "30 minutes"]) == "1 hour 30 minutes"
  {
  }

  /** {hours: 1, minutes: 30} */
  lemma OneHourThirtyMinutes(d: Duration)
    requires d == Luxon(UnitDuration(hours := 1, minutes := 30))
    ensures FormatDuration(d) == "1h 30m"
    ensures FormatDuration(d, Long) == "1 hour 30 minutes"
  {
    var p := Parts(0, 0, 1, 30);
    OneHourThirtyMinutesLabels();
    OneHourThirtyMinutesJoined();
    RendersAs(p, Narrow, ["1h", "30m"]);
    RendersAs(p, Long, ["1 hour", "30 minutes"]);
    FormatsAsSplit(d, p, Narrow);
    FormatsAsSplit(d, p, Long);
  }

  /** The terms of the split of {hours: 23} and their labels in both styles. */
  lemma TwentyThreeHoursLabels()
    ensures Terms(Parts(0, 0, 23, 0)) == [Term(23, Hour)]
    ensures Label(Term(23, Hour), Narrow) == "23h"
    ensures Label(Term(23, Hour), Long) == "23 hours"
  {
  }

  lemma TwentyThreeHoursJoined()
    ensures Join(["23h"]) == "23h"
    ensures Join(["23 hours"]) == "23 hours"
  {
  }

  /** {hours: 23} */
  lemma TwentyThreeHours(d: Duration)
    requires d == Luxon(UnitDuration(hours := 23))
    ensures FormatDuration(d) == "23h"
    ensures FormatDuration(d, Long) == "23 hours"
  {
    var p := Parts(0, 0, 23, 0);
    TwentyThreeHoursLabels();
    TwentyThreeHoursJoined();
    RendersAs(p, Narrow, ["23h"]);
    RendersAs(p, Long, ["23 hours"]);
    FormatsAsSplit(d, p, Narrow);
    FormatsAsSplit(d, p, Long);
  }

  /** The terms of the split of {days: 1} and their labels in both styles. */
  lemma OneDayLabels()
    ensures Terms(Parts(0, 1, 0, 0)) == [Term(1, Day)]
    ensures Label(Term(1, Day), Narrow) == "1d"
    ensures Label(Term(1, Day), Long) == "1 day"
  {
  }

  lemma OneDayJoined()
    ensures Join(["1d"]) == "1d"
    ensures Join(["1 day"]) == "1 day"
  {
  }

  /** {days: 1} */
  lemma OneDay(d: Duration)
    requires d == Luxon(UnitDuration(days := 1))
    ensures FormatDuration(d) == "1d"
    ensures FormatDuration(d, Long) == "1 day"
  {
    var p := Parts(0, 1, 0, 0);
    OneDayLabels();
    OneDayJoined();
    RendersAs(p, Narrow, ["1d"]);
    RendersAs(p, Long, ["1 day"]);
    FormatsAsSplit(d, p, Narrow);
    FormatsAsSplit(d, p, Long);
  }

  /** The terms of the split of {days: 1, minutes: 5} and their labels in both styles. */
  lemma OneDayFiveMinutesLabels()
    ensures Terms(Parts(0, 1, 0, 5)) == [Term(1, Day), Term(5, Minute)]
    ensures Label(Term(1, Day), Narrow) == "1d"
    ensures Label(Term(5, Minute), Narrow) == "5m"
    ensures Label(Term(1, Day), Long) == "1 day"
    ensures Label(Term(5, Minute), Long) == "5 minutes"
  {
  }

  lemma OneDayFiveMinutesJoined()
    ensures Join(["1d", "5m"]) == "1d 5m"
    ensures Join(["1 day", "5 minutes"]) == "1 day 5 minutes"
  {
  }

  /** {days: 1, minutes: 5} */
  lemma OneDayFiveMinutes(d: Duration)
    requires d == Luxon(UnitDuration(days := 1, minutes := 5))
    ensures FormatDuration(d) == "1d 5m"
    ensures FormatDuration(d, Long) == "1 day 5 minutes"
  {
    var p := Parts(0, 1, 0, 5);
    OneDayFiveMinutesLabels();
    OneDayFiveMinutesJoined();
    RendersAs(p, Narrow, ["1d", "5m"]);
    RendersAs(p, Long, ["1 day", "5 minutes"]);
    FormatsAsSplit(d, p, Narrow);
    FormatsAsSplit(d, p, Long);
  }

  /** The terms of the split of {days: 1, hours: 2, minutes: 5} and their labels in both styles. */
  lemma OneDayTwoHoursFiveMinutesLabels()
    ensures Terms(Parts(0, 1, 2, 5)) == [Term(1, Day), Term(2, Hour), Term(5, Minute)]
    ensures Label(Term(1, Day), Narrow) == "1d"
    ensures Label(Term(2, Hour), Narrow) == "2h"
    ensures Label(Term(5, Minute), Narrow) == "5m"
    ensures Label(Term(1, Day), Long) == "1 day"
    ensures Label(Term(2, Hour), Long) == "2 hours"
    ensures Label(Term(5, Minute), Long) == "5 minutes"
  {
  }

  lemma OneDayTwoHoursFiveMinutesJoined()
    ensures Join(["1d", "2h", "5m"]) == "1d 2h 5m"
    ensures Join(["1 day", "2 hours", "5 minutes"]) == "1 day 2 hours 5 minutes"
  {
  }

  /** {days: 1, hours: 2, minutes: 5} */
  lemma OneDayTwoHoursFiveMinutes(d: Duration)
    requires d == Luxon(UnitDuration(days := 1, hours := 2, minutes := 5))
    ensures FormatDuration(d) == "1d 2h 5m"
    ensures FormatDuration(d, Long) == "1 day 2 hours 5 minutes"
  {
    var p := Parts(0, 1, 2, 5);
    OneDayTwoHoursFiveMinutesLabels();
    OneDayTwoHoursFiveMinutesJoined();
    RendersAs(p, Narrow, ["1d", "2h", "5m"]);
    RendersAs(p, Long, ["1 day", "2 hours", "5 minutes"]);
    FormatsAsSplit(d, p, Narrow);
    FormatsAsSplit(d, p, Long);
  }

  /** {days: 1, hours: 2, minutes: 5, seconds: 30} */
  lemma OneDayTwoHoursFiveMinutesThirtySeconds(d: Duration)
    requires d == Luxon(UnitDuration(days := 1, hours := 2, minutes := 5, seconds := 30))
    ensures FormatDuration(d) == "1d 2h 5m"
    ensures FormatDuration(d, Long) == "1 day 2 hours 5 minutes"
  {
    var p := Parts(0, 1, 2, 5);
    OneDayTwoHoursFiveMinutesLabels();
    OneDayTwoHoursFiveMinutesJoined();
    RendersAs(p, Narrow, ["1d", "2h", "5m"]);
    RendersAs(p, Long, ["1 day", "2 hours", "5 minutes"]);
    FormatsAsSplit(d, p, Narrow);
    FormatsAsSplit(d, p, Long);
  }

  /** The terms of the split of {days: 36} and their labels in both styles. */
  lemma ThirtySixDaysLabels()
    ensures Terms(Parts(0, 36, 0, 0)) == [Term(36, Day)]
    ensures Label(Term(36, Day), Narrow) == "36d"
    ensures Label(Term(36, Day), Long) == "36 days"
  {
  }

  lemma ThirtySixDaysJoined()
    ensures Join(["36d"]) == "36d"
    ensures Join(["36 days"]) == "36 days"
  {
  }

  /** {days: 36} */
  lemma ThirtySixDays(d: Duration)
    requires d == Luxon(UnitDuration(days := 36))
    ensures FormatDuration(d) == "36d"
    ensures FormatDuration(d, Long) == "36 days"
  {
    var p := Parts(0, 36, 0, 0);
    ThirtySixDaysLabels();
    ThirtySixDaysJoined();
    RendersAs(p, Narrow, ["36d"]);
    RendersAs(p, Long, ["36 days"]);
    FormatsAsSplit(d, p, Narrow);
    FormatsAsSplit(d, p, Long);
  }

  /** The terms of the split of {days: 99, hours: 10, minutes: 45} and their labels in both styles. */
  lemma NinetyNineDaysTenHoursFortyFiveMinutesLabels()
    ensures Terms(Parts(0, 99, 10, 45)) == [Term(99, Day), Term(10, Hour), Term(45, Minute)]
    ensures Label(Term(99, Day), Narrow) == "99d"
    ensures Label(Term(10, Hour), Narrow) == "10h"
    ensures Label(Term(45, Minute), Narrow) == "45m"
    ensures Label(Term(99, Day), Long) == "99 days"
    ensures Label(Term(10, Hour), Long) == "10 hours"
    ensures Label(Term(45, Minute), Long) == "45 minutes"
  {
  }

  lemma NinetyNineDaysTenHoursFortyFiveMinutesJoined()
    ensures Join(["99d", "10h", "45m"]) == "99d 10h 45m"
    ensures Join(["99 days", "10 hours", "45 minutes"]) == "99 days 10 hours 45 minutes"
  {
  }

  /** {days: 99, hours: 10, minutes: 45} */
  lemma NinetyNineDaysTenHoursFortyFiveMinutes(d: Duration)
    requires d == Luxon(UnitDuration(days := 99, hours := 10, minutes := 45))
    ensures FormatDuration(d) == "99d 10h 45m"
    ensures FormatDuration(d, Long) == "99 days 10 hours 45 minutes"
  {
    var p := Parts(0, 99, 10, 45);
    NinetyNineDaysTenHoursFortyFiveMinutesLabels();
    NinetyNineDaysTenHoursFortyFiveMinutesJoined();
    RendersAs(p, Narrow, ["99d", "10h", "45m"]);
    RendersAs(p, Long, ["99 days", "10 hours", "45 minutes"]);
    FormatsAsSplit(d, p, Narrow);
    FormatsAsSplit(d, p, Long);
  }

  /** The terms of the split of {weeks: 6} and their labels in both styles. */
  lemma SixWeeksLabels()
    ensures Terms(Parts(0, 42, 0, 0)) == [Term(42, Day)]
    ensures Label(Term(42, Day), Narrow) == "42d"
    ensures Label(Term(42, Day), Long) == "42 days"
  {
  }

  lemma SixWeeksJoined()
    ensures Join(["42d"]) == "42d"
    ensures Join(["42 days"]) == "42 days"
  {
  }

  /** {weeks: 6} */
  lemma SixWeeks(d: Duration)
    requires d == Luxon(UnitDuration(weeks := 6))
    ensures FormatDuration(d) == "42d"
    ensures FormatDuration(d, Long) == "42 days"
  {
    var p := Parts(0, 42, 0, 0);
    SixWeeksLabels();
    SixWeeksJoined();
    RendersAs(p, Narrow, ["42d"]);
    RendersAs(p, Long, ["42 days"]);
    FormatsAsSplit(d, p, Narrow);
    FormatsAsSplit(d, p, Long);
  }

  /** The terms of the split of {weeks: 2, days: 6, minutes: 12} and their labels in both styles. */
  lemma TwoWeeksSixDaysTwelveMinutesLabels()
    ensures Terms(Parts(0, 20, 0, 12)) == [Term(20, Day), Term(12, Minute)]
    ensures Label(Term(20, Day), Narrow) == "20d"
    ensures Label(Term(12, Minute), Narrow) == "12m"
    ensures Label(Term(20, Day), Long) == "20 days"
    ensures Label(Term(12, Minute), Long) == "12 minutes"
  {
  }

  lemma TwoWeeksSixDaysTwelveMinutesJoined()
    ensures Join(["20d", "12m"]) == "20d 12m"
    ensures Join(["20 days", "12 minutes"]) == "20 days 12 minutes"
  {
  }

  /** {weeks: 2, days: 6, minutes: 12} */
  lemma TwoWeeksSixDaysTwelveMinutes(d: Duration)
    requires d == Luxon(UnitDuration(weeks := 2, days := 6, minutes := 12))
    ensures FormatDuration(d) == "20d 12m"
    ensures FormatDuration(d, Long) == "20 days 12 minutes"
  {
    var p := Parts(0, 20, 0, 12);
    TwoWeeksSixDaysTwelveMinutesLabels();
    TwoWeeksSixDaysTwelveMinutesJoined();
    RendersAs(p, Narrow, ["20d", "12m"]);
    RendersAs(p, Long, ["20 days", "12 minutes"]);
    FormatsAsSplit(d, p, Narrow);
    FormatsAsSplit(d, p, Long);
  }

  /** The terms of the split of {years: 2, days: 6, minutes: 12} and their labels in both styles. */
  lemma TwoYearsSixDaysTwelveMinutesLabels()
    ensures Terms(Parts(2, 6, 0, 12)) == [Term(2, Year), Term(6, Day), Term(12, Minute)]
    ensures Label(Term(2, Year), Narrow) == "2y"
    ensures Label(Term(6, Day), Narrow) == "6d"
    ensures Label(Term(12, Minute), Narrow) == "12m"
    ensures Label(Term(2, Year), Long) == "2 years"
    ensures Label(Term(6, Day), Long) == "6 days"
    ensures Label(Term(12, Minute), Long) == "12 minutes"
  {
  }

  lemma TwoYearsSixDaysTwelveMinutesJoined()
    ensures Join(["2y", "6d", "12m"]) == "2y 6d 12m"
    ensures Join(["2 years", "6 days", "12 minutes"]) == "2 years 6 days 12 minutes"
  {
  }

  /** {years: 2, days: 6, minutes: 12} */
  lemma TwoYearsSixDaysTwelveMinutes(d: Duration)
    requires d == Luxon(UnitDuration(years := 2, days := 6, minutes := 12))
    ensures FormatDuration(d) == "2y 6d 12m"
    ensures FormatDuration(d, Long) == "2 years 6 days 12 minutes"
  {
    var p := Parts(2, 6, 0, 12);
    TwoYearsSixDaysTwelveMinutesLabels();
    TwoYearsSixDaysTwelveMinutesJoined();
    RendersAs(p, Narrow, ["2y", "6d", "12m"]);
    RendersAs(p, Long, ["2 years", "6 days", "12 minutes"]);
    FormatsAsSplit(d, p, Narrow);
    FormatsAsSplit(d, p, Long);
  }

  /** The moment duration of one day, two hours and five minutes, held as milliseconds,
      formats as the unit-object one does. */
  lemma MomentOneDayTwoHoursFiveMinutes(d: Duration)
    requires d == Moment(UnitMillis(UnitDuration(days := 1, hours := 2, minutes := 5)))
    ensures FormatDuration(d) == "1d 2h 5m"
  {
    var p := Parts(0, 1, 2, 5);
    OneDayTwoHoursFiveMinutesLabels();
    OneDayTwoHoursFiveMinutesJoined();
    RendersAs(p, Narrow, ["1d", "2h", "5m"]);
    FormatsAsSplit(d, p, Narrow);
  }
}
