/** Small helpers (src/util.ts): reading configuration from the environment,
    and the batch sequence that stamps every record written in one run. */
module Util {
  import opened Strings
  import opened Js

  // ---------------------------------------------------------------------------
  // Environment
  // ---------------------------------------------------------------------------

  function UnsetMessage(name: string): string
  {
    "Environment variable " + name + " is not set and no default value was provided."
  }

  /** `getEnv(name, defaultValue)` against the process environment `env`. */
  function GetEnv(env: map<string, string>, name: string, defaultValue: Option<string>): (r: Completion<string>)
    ensures name in env ==> r == Normal(env[name])
    ensures name !in env && defaultValue.Some? ==> r == Normal(defaultValue.value)
    ensures r.Throw? <==> name !in env && defaultValue.None?
  {
    if name in env then Normal(env[name])
    else if defaultValue.Some? then Normal(defaultValue.value)
    else Throw(Error(UnsetMessage(name)))
  }

  /** A set variable always wins over the default, and the error names the
      variable that is missing. */
  lemma GetEnvPrefersEnvironment(env: map<string, string>, name: string, d: string)
    ensures name in env ==> GetEnv(env, name, Some(d)) == GetEnv(env, name, None)
    ensures name !in env ==> GetEnv(env, name, None) == Throw(Error(UnsetMessage(name)))
  {
  }

  // ---------------------------------------------------------------------------
  // Batch sequence
  // ---------------------------------------------------------------------------

  /** The reading of the local clock `getBatchSequence` takes: the year, the
      zero-based month, the day of the month and the milliseconds passed since
      local midnight. */
  datatype LocalClock = LocalClock(fullYear: nat, monthIndex: nat, date: nat, msSinceMidnight: nat)
  {
    /** What a JavaScript `Date` can report: a month index below 12, a day
        from 1 to 31, and no day longer than 25 hours (the longest one a
        daylight-saving change makes). */
    predicate Valid()
    {
      monthIndex < 12 && 1 <= date <= 31 && msSinceMidnight < 25 * 3600 * 1000
    }

    function SecondsPassed(): nat
    {
      msSinceMidnight / 1000
    }

    /** The date as the number YYYYMMDD. */
    function DateNumber(): nat
    {
      (fullYear * 100 + (monthIndex + 1)) * 100 + date
    }
  }

  /** `${year}${month}${day}`: the year, then the month and the day padded to
      two digits. */
  function DateDigits(c: LocalClock): string
  {
    NatToString(c.fullYear) + PadStart(NatToString(c.monthIndex + 1), 2, '0')
      + PadStart(NatToString(c.date), 2, '0')
  }

  /** `getBatchSequence` at clock reading `c`: `parseFloat` of the date
      digits, shifted by five decimal places, plus the seconds passed today,
      shifted back (NaN would stay NaN). On any clock reading a `Date` can
      report, the result is the date YYYYMMDD plus the seconds passed today
      over 10^5. */
  function GetBatchSequence(c: LocalClock): Num
  {
    ShiftedBack(ParseFloat(DateDigits(c)), c.SecondsPassed())
  }

  /** On any clock reading a `Date` can report, the batch sequence is the
      date YYYYMMDD plus the seconds passed today over 10^5. */
  lemma BatchSequenceValue(c: LocalClock)
    requires c.Valid()
    ensures GetBatchSequence(c) == Fin(c.DateNumber() as real + c.SecondsPassed() as real / 100000.0)
  {
    DateNumberParsed(c);
  }

  /** `(x * 1e5 + seconds) / 1e5`: the seconds land in the fraction. */
  function ShiftedBack(x: Num, seconds: nat): (r: Num)
    ensures x.NaN? <==> r.NaN?
    ensures x.Fin? ==> r.value == x.value + seconds as real / 100000.0
  {
    match x
    case Fin(v) => Fin((v * 100000.0 + seconds as real) / 100000.0)
    case NaN => NaN
  }

  /** A padded month or day is two digits spelling its value. */
  lemma PadTwoDigits(n: nat)
    requires n < 100
    ensures var p := PadStart(NatToString(n), 2, '0');
      |p| == 2 && AllDigits(p) && DigitsValue(p) == n
  {
    var s := NatToString(n);
    var p := PadStart(s, 2, '0');
    if n < 10 {
      assert p == ['0'] + s;
      assert p[..1] == ['0'];
      assert DigitsValue(['0']) == 0;
    } else {
      assert |NatToString(n / 10)| == 1;
      assert p == s;
    }
  }

  lemma DigitsOfDate(c: LocalClock)
    ensures DateDigits(c) != [] && AllDigits(DateDigits(c))
  {
    var y := NatToString(c.fullYear);
    var m := PadStart(NatToString(c.monthIndex + 1), 2, '0');
    var d := PadStart(NatToString(c.date), 2, '0');
    assert AllDigits(m) by {
      if |NatToString(c.monthIndex + 1)| < 2 {
        assert m == ['0'] + NatToString(c.monthIndex + 1);
      }
    }
    assert AllDigits(d) by {
      if |NatToString(c.date)| < 2 {
        assert d == ['0'] + NatToString(c.date);
      }
    }
    DigitsValueAppend(y, m);
    DigitsValueAppend(y + m, d);
  }

  /** The date digits spell YYYYMMDD: the month and the day, not the day and
      the month. */
  lemma DateDigitsValue(c: LocalClock)
    requires c.Valid()
    ensures AllDigits(DateDigits(c))
    ensures DigitsValue(DateDigits(c)) == c.DateNumber()
  {
    var y := NatToString(c.fullYear);
    var m := PadStart(NatToString(c.monthIndex + 1), 2, '0');
    var d := PadStart(NatToString(c.date), 2, '0');
    PadTwoDigits(c.monthIndex + 1);
    PadTwoDigits(c.date);
    DigitsValueAppend(y, m);
    DigitsValueAppend(y + m, d);
    assert Pow10(2) == 100;
  }

  /** The date digits are never empty, so the batch sequence is never NaN. */
  lemma BatchSequenceFinite(c: LocalClock)
    ensures GetBatchSequence(c).Fin?
  {
    DigitsOfDate(c);
    ParseFloatDigits(DateDigits(c));
  }

  lemma DateNumberParsed(c: LocalClock)
    requires c.Valid()
    ensures ParseFloat(DateDigits(c)) == Fin(c.DateNumber() as real)
  {
    DateDigitsValue(c);
    DigitsOfDate(c);
    ParseFloatDigits(DateDigits(c));
  }

  /** No day has 10^5 seconds, so the integer part of the batch sequence is
      the date and its fraction the seconds passed today. */
  lemma BatchSequenceParts(c: LocalClock)
    requires c.Valid()
    ensures c.SecondsPassed() < 100000
    ensures GetBatchSequence(c).Fin?
    ensures GetBatchSequence(c).value.Floor == c.DateNumber()
    ensures GetBatchSequence(c).value - c.DateNumber() as real == c.SecondsPassed() as real / 100000.0
  {
    ShortDay(c);
    BatchSequenceValue(c);
    StampParts(c.DateNumber(), c.SecondsPassed());
  }

  /** A day of at most 25 hours has fewer than 10^5 seconds. */
  lemma ShortDay(c: LocalClock)
    requires c.Valid()
    ensures c.SecondsPassed() < 100000
  {
    assert c.msSinceMidnight < 100000 * 1000;
  }

  /** A date number plus a count of seconds below 10^5, shifted into the
      fraction. */
  lemma StampParts(date: nat, seconds: nat)
    requires seconds < 100000
    ensures (date as real + seconds as real / 100000.0).Floor == date
  {
    var f := seconds as real / 100000.0;
    assert 0.0 <= f < 1.0;
  }

  lemma StampOrder(d1: nat, s1: nat, d2: nat, s2: nat)
    requires s1 < 100000 && s2 < 100000
    requires d1 < d2 || (d1 == d2 && s1 < s2)
    ensures d1 as real + s1 as real / 100000.0 < d2 as real + s2 as real / 100000.0
  {
    assert s1 as real / 100000.0 < 1.0;
  }

  /** A clock reading is earlier than another when its date comes first, or
      on the same date its second comes first. */
  predicate Earlier(a: LocalClock, b: LocalClock)
  {
    a.fullYear < b.fullYear
    || (a.fullYear == b.fullYear && a.monthIndex < b.monthIndex)
    || (a.fullYear == b.fullYear && a.monthIndex == b.monthIndex && a.date < b.date)
    || (a.fullYear == b.fullYear && a.monthIndex == b.monthIndex && a.date == b.date
        && a.SecondsPassed() < b.SecondsPassed())
  }

  /** The batch sequence is sortable: a later second of the local clock always
      gives a strictly larger number. */
  lemma BatchSequenceSortable(a: LocalClock, b: LocalClock)
    requires a.Valid() && b.Valid()
    requires Earlier(a, b)
    ensures GetBatchSequence(a).Fin? && GetBatchSequence(b).Fin?
    ensures GetBatchSequence(a).value < GetBatchSequence(b).value
  {
    ShortDay(a);
    ShortDay(b);
    BatchSequenceValue(a);
    BatchSequenceValue(b);
    DateNumberOrder(a, b);
    StampOrder(a.DateNumber(), a.SecondsPassed(), b.DateNumber(), b.SecondsPassed());
  }

  lemma DateNumberOrder(a: LocalClock, b: LocalClock)
    requires a.Valid() && b.Valid()
    requires Earlier(a, b)
    ensures a.DateNumber() <= b.DateNumber()
    ensures a.DateNumber() == b.DateNumber() ==> a.SecondsPassed() < b.SecondsPassed()
  {
    var ma, mb := a.monthIndex + 1, b.monthIndex + 1;
    if a.fullYear < b.fullYear {
      assert a.fullYear * 100 + ma < b.fullYear * 100 + mb;
    }
  }
}
