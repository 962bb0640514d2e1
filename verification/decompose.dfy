/** Splitting a total number of seconds into years, days, hours and minutes, largest
    unit first, with the seconds left over dropped. */
module Decomposition {
  import opened Durations

  /** Whole-unit counts of a duration, in the order they are shown. */
  datatype Parts = Parts(years: nat, days: nat, hours: nat, minutes: nat)

  /** Each unit below the largest holds less than one of the unit above it. */
  predicate Normal(p: Parts)
  {
    p.days < DaysPerYear && p.hours < 24 && p.minutes < 60
  }

  /** Seconds the parts stand for. */
  function PartsSeconds(p: Parts): nat
  {
    p.years * SecondsPerYear + p.days * SecondsPerDay + p.hours * SecondsPerHour + p.minutes * SecondsPerMinute
  }

  /** Repeatedly take the largest whole unit out of what is left; seconds under a
      minute are truncated, never rounded up. */
  function Decompose(total: nat): (p: Parts)
    ensures Normal(p)
    ensures PartsSeconds(p) <= total < PartsSeconds(p) + SecondsPerMinute
  {
    var years := total / SecondsPerYear;
    var afterYears := total % SecondsPerYear;
    var days := afterYears / SecondsPerDay;
    var afterDays := afterYears % SecondsPerDay;
    var hours := afterDays / SecondsPerHour;
    var afterHours := afterDays % SecondsPerHour;
    var minutes := afterHours / SecondsPerMinute;
    assert afterHours == minutes * 60 + afterHours % 60;
    assert afterDays == hours * 3600 + afterHours;
    assert afterYears == days * 86400 + afterDays;
    assert total == years * 31536000 + afterYears;
    Parts(years, days, hours, minutes)
  }

  /** Euclidean division has one quotient and one remainder. */
  lemma {:induction false} DivModUnique(a: nat, b: nat, q: nat, r: nat)
    requires 0 < b && r < b && a == q * b + r
    ensures a / b == q && a % b == r
  {
    var q', r' := a / b, a % b;
    if q' < q {
      MulAtLeast(q - q', b);
    } else if q < q' {
      MulAtLeast(q' - q, b);
    }
  }

  /** A positive multiple of b is at least b. */
  lemma {:induction false} MulAtLeast(k: nat, b: nat)
    requires k >= 1
    ensures k * b >= b
  {
    assert k * b == (k - 1) * b + b;
  }

  /** Decompose is the only normal split of the total that leaves less than a minute over:
      the reference definition of "years, days, hours, minutes, seconds dropped". */
  lemma {:induction false} DecomposeUnique(total: nat, p: Parts)
    requires Normal(p)
    requires PartsSeconds(p) <= total < PartsSeconds(p) + SecondsPerMinute
    ensures Decompose(total) == p
  {
    var s := total - PartsSeconds(p);
    var afterDays := p.hours * 3600 + p.minutes * 60 + s;
    var afterYears := p.days * 86400 + afterDays;
    assert afterDays < 86400;
    assert afterYears < 31536000;
    DivModUnique(total, 31536000, p.years, afterYears);
    DivModUnique(afterYears, 86400, p.days, afterDays);
    DivModUnique(afterDays, 3600, p.hours, p.minutes * 60 + s);
    DivModUnique(p.minutes * 60 + s, 60, p.minutes, s);
  }

  /** The split depends on whole minutes only: leftover seconds never change it. */
  lemma {:induction false} DecomposeWholeMinutes(a: nat, b: nat)
    requires a / 60 == b / 60
    ensures Decompose(a) == Decompose(b)
  {
    var p := Decompose(a);
    assert PartsSeconds(p) % 60 == 0;
    DecomposeUnique(b, p);
  }

  /** The parts recombine to the total with its seconds dropped. */
  lemma {:induction false} RecombineTruncates(total: nat)
    ensures PartsSeconds(Decompose(total)) == total / 60 * 60
  {
    var p := Decompose(total);
    assert PartsSeconds(p) == (p.years * 525600 + p.days * 1440 + p.hours * 60 + p.minutes) * 60;
  }

  /** Splitting the seconds of a normal split gives it back. */
  lemma {:induction false} DecomposeRoundTrip(p: Parts)
    requires Normal(p)
    ensures Decompose(PartsSeconds(p)) == p
  {
    DecomposeUnique(PartsSeconds(p), p);
  }

  /** Below one year the count stays in days: no year (and no month) unit appears. */
  lemma {:induction false} DaysBelowAYear(total: nat)
    requires total < SecondsPerYear
    ensures Decompose(total).years == 0
    ensures Decompose(total).days == total / SecondsPerDay
  {
  }

  /** From one minute on, at least one unit is non-zero. */
  lemma {:induction false} SomeUnitFromAMinute(total: nat)
    requires total >= SecondsPerMinute
    ensures Decompose(total) != Parts(0, 0, 0, 0)
  {
  }

  /** Lexicographic order on parts, largest unit first. */
  predicate LexLess(p: Parts, q: Parts)
  {
    p.years < q.years
    || (p.years == q.years && p.days < q.days)
    || (p.years == q.years && p.days == q.days && p.hours < q.hours)
    || (p.years == q.years && p.days == q.days && p.hours == q.hours && p.minutes < q.minutes)
  }

  /** A longer duration reads as a larger split, compared unit by unit from the largest:
      more whole minutes if and only if lexicographically larger parts. */
  lemma {:induction false} DecomposeMonotone(a: nat, b: nat)
    ensures a / 60 < b / 60 <==> LexLess(Decompose(a), Decompose(b))
  {
    var p, q := Decompose(a), Decompose(b);
    RecombineTruncates(a);
    RecombineTruncates(b);
    var mp := p.years * 525600 + p.days * 1440 + p.hours * 60 + p.minutes;
    var mq := q.years * 525600 + q.days * 1440 + q.hours * 60 + q.minutes;
    assert PartsSeconds(p) == mp * 60 && PartsSeconds(q) == mq * 60;
    assert mp == a / 60 && mq == b / 60;
    if p.years < q.years {
      assert mp < (p.years + 1) * 525600;
    } else if p.years == q.years && p.days < q.days {
      assert mp < p.years * 525600 + (p.days + 1) * 1440;
    } else if p.years == q.years && p.days == q.days && p.hours < q.hours {
      assert mp < p.years * 525600 + p.days * 1440 + (p.hours + 1) * 60;
    } else if q.years < p.years {
      assert mq < (q.years + 1) * 525600;
    } else if q.years == p.years && q.days < p.days {
      assert mq < q.years * 525600 + (q.days + 1) * 1440;
    } else if q.years == p.years && q.days == p.days && q.hours < p.hours {
      assert mq < q.years * 525600 + q.days * 1440 + (q.hours + 1) * 60;
    }
  }
}
