/** Reading a formatted duration back: the inverse of rendering, used to state what a
    formatted string tells its reader. It accepts the narrow form ("1d 2h 5m") and the
    long form ("1 day 2 hours 5 minutes", with the word agreeing with its number). */
module Reading {
  import opened Text
  import opened Decomposition
  import opened Rendering

  datatype Option<T> = None | Some(value: T)

  /** Seconds a list of terms stands for. */
  function TermsSeconds(ts: seq<Term>): nat
    decreases |ts|
  {
    if ts == [] then 0 else ts[0].value * UnitLength(ts[0].unit) + TermsSeconds(ts[1..])
  }

  function UnitOfSuffix(c: char): (r: Option<Unit>)
    ensures r.Some? ==> Suffix(r.value) == c
  {
    if c == 'y' then Some(Year)
    else if c == 'd' then Some(Day)
    else if c == 'h' then Some(Hour)
    else if c == 'm' then Some(Minute)
    else None
  }

  /** The unit whose long-style word for count n is w. */
  function UnitOfWord(w: string, n: nat): (r: Option<Unit>)
    ensures r.Some? ==> WordFor(r.value, n) == w
  {
    if w == WordFor(Year, n) then Some(Year)
    else if w == WordFor(Day, n) then Some(Day)
    else if w == WordFor(Hour, n) then Some(Hour)
    else if w == WordFor(Minute, n) then Some(Minute)
    else None
  }

  /** One narrow word: a numeral followed by a unit suffix. */
  function ReadNarrowWord(w: string): Option<Term>
  {
    if |w| < 2 || !AllDigits(w[..|w| - 1]) then None
    else
      match UnitOfSuffix(w[|w| - 1])
      case None => None
      case Some(u) => Some(Term(DigitsValue(w[..|w| - 1]), u))
  }

  function ReadNarrow(ws: seq<string>): Option<seq<Term>>
    decreases |ws|
  {
    if ws == [] then Some([])
    else
      match (ReadNarrowWord(ws[0]), ReadNarrow(ws[1..]))
      case (Some(t), Some(ts)) => Some([t] + ts)
      case _ => None
  }

  /** One long term: a numeral word followed by the unit word that agrees with it. */
  function ReadLongPair(number: string, word: string): Option<Term>
  {
    if |number| == 0 || !AllDigits(number) then None
    else
      var n := DigitsValue(number);
      match UnitOfWord(word, n)
      case None => None
      case Some(u) => Some(Term(n, u))
  }

  function ReadLong(ws: seq<string>): Option<seq<Term>>
    decreases |ws|
  {
    if ws == [] then Some([])
    else if |ws| < 2 then None
    else
      match (ReadLongPair(ws[0], ws[1]), ReadLong(ws[2..]))
      case (Some(t), Some(ts)) => Some([t] + ts)
      case _ => None
  }

  /** The terms a rendered string spells out, or None for a string not in the given style. */
  function ReadTerms(s: string, style: Style): Option<seq<Term>>
  {
    var ws := Split(s);
    match style
    case Narrow => ReadNarrow(ws)
    case Long => ReadLong(ws)
  }

  /** The seconds a formatted string shows: zero for the under-a-minute text. */
  function ReadDuration(s: string, style: Style): Option<nat>
  {
    if s == Sentinel(style) then Some(0)
    else
      match ReadTerms(s, style)
      case None => None
      case Some(ts) => Some(TermsSeconds(ts))
  }

  /** The long-style words of different units differ, for any count. */
  lemma LongWordsDistinct(u: Unit, n: nat)
    ensures UnitOfWord(WordFor(u, n), n) == Some(u)
  {
    assert WordFor(Year, n)[0] == 'y' && WordFor(Day, n)[0] == 'd';
    assert WordFor(Hour, n)[0] == 'h' && WordFor(Minute, n)[0] == 'm';
  }

  /** Each term's words read back as that term. */
  lemma {:induction false} ReadTermWords(t: Term, style: Style)
    ensures style == Narrow ==> ReadNarrowWord(TermWords(t, style)[0]) == Some(t)
    ensures style == Long ==> ReadLongPair(TermWords(t, style)[0], TermWords(t, style)[1]) == Some(t)
  {
    var digits := NatToString(t.value);
    NatToStringRoundTrip(t.value);
    if style == Narrow {
      var w := digits + [Suffix(t.unit)];
      assert w[..|w| - 1] == digits;
    } else {
      LongWordsDistinct(t.unit, t.value);
    }
  }

  /** The words of a list of terms read back as that list, in either style. */
  lemma {:induction false} ReadRenderWords(ts: seq<Term>, style: Style)
    ensures style == Narrow ==> ReadNarrow(RenderWords(ts, style)) == Some(ts)
    ensures style == Long ==> ReadLong(RenderWords(ts, style)) == Some(ts)
    decreases |ts|
  {
    if ts != [] {
      var ws, rest := RenderWords(ts, style), RenderWords(ts[1..], style);
      ReadTermWords(ts[0], style);
      ReadRenderWords(ts[1..], style);
      assert ts == [ts[0]] + ts[1..];
      if style == Narrow {
        assert ws[1..] == rest;
      } else {
        assert ws[2..] == rest;
      }
    }
  }

  /** A split with a non-zero unit reads back as exactly its shown terms. */
  lemma {:induction false} ReadRender(p: Parts, style: Style)
    requires p != Parts(0, 0, 0, 0)
    ensures ReadTerms(Render(p, style), style) == Some(Terms(p))
  {
    RenderNotSentinel(p, style);
    var ws := RenderWords(Terms(p), style);
    RenderTermsWords(Terms(p), style);
    SplitJoin(ws);
    ReadRenderWords(Terms(p), style);
  }

  /** Seconds of the units of us in p. */
  function UnitsSeconds(p: Parts, us: seq<Unit>): nat
    decreases |us|
  {
    if us == [] then 0 else Value(p, us[0]) * UnitLength(us[0]) + UnitsSeconds(p, us[1..])
  }

  lemma {:induction false} TermsOverSeconds(p: Parts, us: seq<Unit>)
    ensures TermsSeconds(TermsOver(p, us)) == UnitsSeconds(p, us)
    decreases |us|
  {
    if us != [] {
      TermsOverSeconds(p, us[1..]);
      var ts := TermsOver(p, us);
      if Value(p, us[0]) > 0 {
        assert ts[1..] == TermsOver(p, us[1..]);
      }
    }
  }

  /** Leaving out zero units loses nothing: the shown terms add up to the whole split. */
  lemma {:induction false} TermsAddUp(p: Parts)
    ensures TermsSeconds(Terms(p)) == PartsSeconds(p)
  {
    TermsOverSeconds(p, ShownUnits);
    assert ShownUnits[1..][1..][1..][1..] == [];
  }
}
