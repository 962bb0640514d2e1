/** formatDuration: a duration and a style (narrow by default) to display text. Under a
    minute gives fixed text; otherwise the whole years, days, hours and minutes of the
    total, zero units left out, largest first. */
module FormattedDuration {
  import opened Durations
  import opened Decomposition
  import opened Rendering
  import opened Reading
  import opened Text

  function FormatDuration(d: Duration, style: Style := Narrow): string
  {
    var total := TotalSeconds(d);
    if total < SecondsPerMinute then Sentinel(style) else Render(Decompose(total), style)
  }

  /** The fixed text appears exactly for durations under one minute (0 and 59 seconds
      included); from one minute on the text starts with a digit. */
  lemma {:induction false} SentinelExactlyUnderAMinute(d: Duration, style: Style)
    ensures FormatDuration(d, style) == Sentinel(style) <==> TotalSeconds(d) < SecondsPerMinute
    ensures TotalSeconds(d) >= SecondsPerMinute ==>
      |FormatDuration(d, style)| > 0 && IsDigit(FormatDuration(d, style)[0])
  {
    var total := TotalSeconds(d);
    if total >= SecondsPerMinute {
      SomeUnitFromAMinute(total);
      RenderNotSentinel(Decompose(total), style);
    }
  }

  /** A count fits its unit: below the next larger unit (years have none above them). */
  predicate FitsUnit(t: Term)
  {
    match t.unit
    case Year => true
    case Day => t.value < DaysPerYear
    case Hour => t.value < 24
    case Minute => t.value < 60
  }

  /** From one minute on, the text spells out non-empty terms, each non-zero and fitting
      its unit, largest unit first, that add up to the total with its seconds dropped. */
  lemma {:induction false} FormatSpellsTerms(d: Duration, style: Style)
    requires TotalSeconds(d) >= SecondsPerMinute
    ensures var r := ReadTerms(FormatDuration(d, style), style);
      && r.Some?
      && |r.value| > 0
      && (forall i | 0 <= i < |r.value| :: r.value[i].value > 0 && FitsUnit(r.value[i]))
      && LargestFirst(r.value)
      && TermsSeconds(r.value) == TotalSeconds(d) / SecondsPerMinute * SecondsPerMinute
  {
    var total := TotalSeconds(d);
    var p := Decompose(total);
    SomeUnitFromAMinute(total);
    ReadRender(p, style);
    TermsAddUp(p);
    RecombineTruncates(total);
    RenderNotSentinel(p, style);
    TermsShowNonZeroLargestFirst(p);
    var ts := Terms(p);
    assert Render(p, style) != "";
    assert |ts| > 0;
  }

  /** Reading the text back gives the total with its seconds dropped (truncated, never
      rounded up); the under-a-minute text reads as zero. */
  lemma {:induction false} FormatReadsBack(d: Duration, style: Style)
    ensures ReadDuration(FormatDuration(d, style), style) == Some(TotalSeconds(d) / 60 * 60)
  {
    var total := TotalSeconds(d);
    if total >= SecondsPerMinute {
      FormatSpellsTerms(d, style);
    }
  }

  /** Two durations format alike exactly when they hold the same number of whole minutes,
      whichever carrier (unit object or millisecond count) holds them. */
  lemma {:induction false} FormatSameExactlyForSameMinutes(a: Duration, b: Duration, style: Style)
    ensures FormatDuration(a, style) == FormatDuration(b, style)
      <==> TotalSeconds(a) / 60 == TotalSeconds(b) / 60
  {
    var ta, tb := TotalSeconds(a), TotalSeconds(b);
    var ma, mb := ta / 60, tb / 60;
    if ma == mb {
      assert ta < 60 <==> tb < 60;
      DecomposeWholeMinutes(ta, tb);
    }
    if FormatDuration(a, style) == FormatDuration(b, style) {
      FormatReadsBack(a, style);
      FormatReadsBack(b, style);
      assert ma * 60 == mb * 60;
    }
  }

  /** A moment duration of the same length as a unit object formats the same. */
  lemma {:induction false} CarriersFormatAlike(u: UnitDuration, style: Style)
    ensures FormatDuration(Moment(UnitMillis(u)), style) == FormatDuration(Luxon(u), style)
  {
    CarriersAgree(u);
  }

  /** Weeks are folded into days before splitting: w weeks and d days format like 7w + d days. */
  lemma {:induction false} WeeksFoldIntoDays(u: UnitDuration, style: Style)
    ensures FormatDuration(Luxon(u), style)
      == FormatDuration(Luxon(u.(weeks := 0, days := u.days + 7 * u.weeks)), style)
  {
    WeeksAreSevenDays(u);
  }

  /** A unit object without weeks whose days, hours, minutes and seconds each stay below
      the next larger unit formats as its own years, days, hours and minutes: the seconds
      are dropped and nothing is regrouped. */
  lemma {:induction false} NormalUnitsFormatAsFields(u: UnitDuration, style: Style)
    requires u.weeks == 0 && u.seconds < 60
    requires u.days < DaysPerYear && u.hours < 24 && u.minutes < 60
    requires TotalSeconds(Luxon(u)) >= SecondsPerMinute
    ensures FormatDuration(Luxon(u), style) == Render(Parts(u.years, u.days, u.hours, u.minutes), style)
  {
    var p := Parts(u.years, u.days, u.hours, u.minutes);
    assert Durations.UnitSeconds(u) == PartsSeconds(p) + u.seconds;
    DecomposeUnique(Durations.UnitSeconds(u), p);
  }

  /** Between one minute and one year the text is the days, hours and minutes of the
      total; no year (or month) term appears. */
  lemma {:induction false} BelowAYearNoYears(d: Duration, style: Style)
    requires SecondsPerMinute <= TotalSeconds(d) < SecondsPerYear
    ensures var r := ReadTerms(FormatDuration(d, style), style);
      r.Some? && forall i | 0 <= i < |r.value| :: r.value[i].unit != Year
  {
    var p := Decompose(TotalSeconds(d));
    DaysBelowAYear(TotalSeconds(d));
    SomeUnitFromAMinute(TotalSeconds(d));
    ReadRender(p, style);
    TermsShowNonZeroLargestFirst(p);
  }
}
