/** Rendering a split duration: only the non-zero units, largest first, separated by
    single spaces; narrow style as a number with a one-letter suffix, long style as a
    number and a word that agrees with it in number. */
module Rendering {
  import opened Durations
  import opened Text
  import opened Decomposition

  /** The two output vocabularies; narrow is the default wherever a style is optional. */
  datatype Style = Narrow | Long

  /** Units that can appear in the output. There is no week unit and no month unit. */
  datatype Unit = Year | Day | Hour | Minute

  /** The units in the order they are shown. */
  const ShownUnits: seq<Unit> := [Year, Day, Hour, Minute]

  /** Position of a unit in the output order: smaller rank, larger unit, shown earlier. */
  function Rank(u: Unit): nat
  {
    match u
    case Year => 0
    case Day => 1
    case Hour => 2
    case Minute => 3
  }

  /** Every unit has its place in the output order. */
  lemma UnitIsShowable(u: Unit)
    ensures u in ShownUnits
  {
    assert ShownUnits[Rank(u)] == u;
  }

  function UnitLength(u: Unit): (n: nat)
    ensures n >= SecondsPerMinute
  {
    match u
    case Year => SecondsPerYear
    case Day => SecondsPerDay
    case Hour => SecondsPerHour
    case Minute => SecondsPerMinute
  }

  /** How many of unit u a split holds. */
  function Value(p: Parts, u: Unit): nat
  {
    match u
    case Year => p.years
    case Day => p.days
    case Hour => p.hours
    case Minute => p.minutes
  }

  /** The narrow-style suffix of each unit. */
  function Suffix(u: Unit): char
  {
    match u
    case Year => 'y'
    case Day => 'd'
    case Hour => 'h'
    case Minute => 'm'
  }

  /** The long-style word for a count of one. */
  function Singular(u: Unit): string
  {
    match u
    case Year => "year"
    case Day => "day"
    case Hour => "hour"
    case Minute => "minute"
  }

  /** The long-style word for any other count. */
  function Plural(u: Unit): string
  {
    Singular(u) + "s"
  }

  /** The long-style word that agrees with count n. */
  function WordFor(u: Unit, n: nat): string
  {
    if n == 1 then Singular(u) else Plural(u)
  }

  /** The fixed text shown for anything shorter than a minute. */
  function Sentinel(style: Style): string
  {
    match style
    case Narrow => "< 1m"
    case Long => "less than 1 minute"
  }

  /** One shown unit and its count. */
  datatype Term = Term(value: nat, unit: Unit)

  /** Whether unit u is among the terms. */
  predicate Shows(ts: seq<Term>, u: Unit)
  {
    exists i | 0 <= i < |ts| :: ts[i].unit == u
  }

  predicate RankIncreasing(us: seq<Unit>)
  {
    forall i, j | 0 <= i < j < |us| :: Rank(us[i]) < Rank(us[j])
  }

  /** Terms in output order: each unit strictly smaller than the one before it. */
  predicate LargestFirst(ts: seq<Term>)
  {
    forall i, j | 0 <= i < j < |ts| :: Rank(ts[i].unit) < Rank(ts[j].unit)
  }

  /** The units of us whose value in p is not zero, each with its value, in the order of us. */
  function TermsOver(p: Parts, us: seq<Unit>): seq<Term>
    decreases |us|
  {
    if us == [] then []
    else
      var rest := TermsOver(p, us[1..]);
      if Value(p, us[0]) > 0 then [Term(Value(p, us[0]), us[0])] + rest else rest
  }

  /** Every term kept is a unit of us, with its non-zero value in p. */
  lemma {:induction false} TermsOverValues(p: Parts, us: seq<Unit>)
    ensures forall i | 0 <= i < |TermsOver(p, us)| ::
      0 < TermsOver(p, us)[i].value == Value(p, TermsOver(p, us)[i].unit) && TermsOver(p, us)[i].unit in us
    decreases |us|
  {
    if us != [] {
      TermsOverValues(p, us[1..]);
    }
  }

  /** Filtering keeps the order of us. */
  lemma {:induction false} TermsOverOrdered(p: Parts, us: seq<Unit>)
    requires RankIncreasing(us)
    ensures LargestFirst(TermsOver(p, us))
    decreases |us|
  {
    if us != [] {
      TermsOverOrdered(p, us[1..]);
      TermsOverValues(p, us[1..]);
    }
  }

  /** A unit of us is shown exactly when its value is not zero. */
  lemma {:induction false} TermsOverShows(p: Parts, us: seq<Unit>, u: Unit)
    requires RankIncreasing(us) && u in us
    ensures Value(p, u) > 0 <==> Shows(TermsOver(p, us), u)
    decreases |us|
  {
    var ts, rest := TermsOver(p, us), TermsOver(p, us[1..]);
    TermsOverValues(p, us[1..]);
    if us[0] == u {
      if Value(p, u) > 0 {
        assert ts[0].unit == u;
      } else {
        assert u !in us[1..];
      }
    } else {
      TermsOverShows(p, us[1..], u);
      if Value(p, us[0]) > 0 {
        if Shows(rest, u) {
          var i :| 0 <= i < |rest| && rest[i].unit == u;
          assert ts[i + 1].unit == u;
        }
      }
    }
  }

  /** The terms shown for a split. */
  function Terms(p: Parts): seq<Term>
  {
    TermsOver(p, ShownUnits)
  }

  /** The shown terms are every non-zero unit and nothing else, each with its value,
      largest unit first. */
  lemma TermsShowNonZeroLargestFirst(p: Parts)
    ensures forall i | 0 <= i < |Terms(p)| :: 0 < Terms(p)[i].value == Value(p, Terms(p)[i].unit)
    ensures forall u :: Value(p, u) > 0 <==> Shows(Terms(p), u)
    ensures LargestFirst(Terms(p))
  {
    TermsOverValues(p, ShownUnits);
    TermsOverOrdered(p, ShownUnits);
    forall u ensures Value(p, u) > 0 <==> Shows(Terms(p), u) {
      UnitIsShowable(u);
      TermsOverShows(p, ShownUnits, u);
    }
  }

  /** The text of one term: "5m" in narrow style, "5 minutes" (or "1 minute") in long style. */
  function Label(t: Term, style: Style): string
  {
    match style
    case Narrow => NatToString(t.value) + [Suffix(t.unit)]
    case Long => NatToString(t.value) + " " + WordFor(t.unit, t.value)
  }

  /** The labels of the terms, separated by single spaces. */
  function RenderTerms(ts: seq<Term>, style: Style): string
    decreases |ts|
  {
    if |ts| == 0 then ""
    else if |ts| == 1 then Label(ts[0], style)
    else Label(ts[0], style) + " " + RenderTerms(ts[1..], style)
  }

  /** The text of a split: the labels of its shown terms. */
  function Render(p: Parts, style: Style): string
  {
    RenderTerms(Terms(p), style)
  }

  /** The rendered text is the labels of the terms, given in order, joined by single spaces. */
  lemma {:induction false} RenderJoinsLabels(ts: seq<Term>, style: Style, ls: seq<string>)
    requires |ls| == |ts|
    requires forall i | 0 <= i < |ts| :: Label(ts[i], style) == ls[i]
    ensures RenderTerms(ts, style) == Join(ls)
    decreases |ts|
  {
    if |ts| > 1 {
      RenderJoinsLabels(ts[1..], style, ls[1..]);
    }
  }

  /** The words of one term: one word in narrow style, a number and a word in long style. */
  function TermWords(t: Term, style: Style): seq<string>
  {
    match style
    case Narrow => [NatToString(t.value) + [Suffix(t.unit)]]
    case Long => [NatToString(t.value), WordFor(t.unit, t.value)]
  }

  function RenderWords(ts: seq<Term>, style: Style): seq<string>
    decreases |ts|
  {
    if ts == [] then [] else TermWords(ts[0], style) + RenderWords(ts[1..], style)
  }

  /** The words of a term make up its label; none holds a space, and the first begins
      with a digit. */
  lemma TermWordsMakeLabel(t: Term, style: Style)
    ensures Label(t, style) == Join(TermWords(t, style))
    ensures forall i | 0 <= i < |TermWords(t, style)| :: NoSpace(TermWords(t, style)[i])
    ensures |TermWords(t, style)| > 0 && |TermWords(t, style)[0]| > 0 && IsDigit(TermWords(t, style)[0][0])
  {
    var ws := TermWords(t, style);
    assert NatToString(t.value)[0] == ws[0][0];
  }

  /** Rendered text is its words joined by single spaces; no word holds a space, and the
      text of a non-empty list of terms begins with a digit. */
  lemma {:induction false} RenderTermsWords(ts: seq<Term>, style: Style)
    ensures RenderTerms(ts, style) == Join(RenderWords(ts, style))
    ensures forall i | 0 <= i < |RenderWords(ts, style)| :: NoSpace(RenderWords(ts, style)[i])
    ensures |ts| > 0 ==>
      |RenderWords(ts, style)| > 0 && |RenderWords(ts, style)[0]| > 0 && IsDigit(RenderWords(ts, style)[0][0])
    decreases |ts|
  {
    if ts != [] {
      var ws, rest := TermWords(ts[0], style), RenderWords(ts[1..], style);
      RenderTermsWords(ts[1..], style);
      TermWordsMakeLabel(ts[0], style);
      assert RenderWords(ts, style) == ws + rest;
      if |ts| > 1 {
        JoinAppend(ws, rest);
      } else {
        assert rest == [];
      }
    }
  }

  /** Long style: the word is the singular exactly when the count is one. */
  lemma LongWordAgrees(t: Term)
    ensures |TermWords(t, Long)| == 2
    ensures TermWords(t, Long)[1] == Singular(t.unit) <==> t.value == 1
    ensures TermWords(t, Long)[1] == Plural(t.unit) <==> t.value != 1
  {
    assert |Plural(t.unit)| != |Singular(t.unit)|;
  }

  /** A split with a non-zero unit never renders as the under-a-minute text. */
  lemma {:induction false} RenderNotSentinel(p: Parts, style: Style)
    requires p != Parts(0, 0, 0, 0)
    ensures |Render(p, style)| > 0 && IsDigit(Render(p, style)[0])
    ensures Render(p, style) != Sentinel(style)
  {
    var ts := Terms(p);
    TermsShowNonZeroLargestFirst(p);
    if p.years > 0 {
      assert Value(p, Year) > 0;
    } else if p.days > 0 {
      assert Value(p, Day) > 0;
    } else if p.hours > 0 {
      assert Value(p, Hour) > 0;
    } else {
      assert Value(p, Minute) > 0;
    }
    RenderTermsWords(ts, style);
    JoinStartsWith(RenderWords(ts, style));
    assert !IsDigit(Sentinel(style)[0]);
  }
}
