/** Type conversion between values (`DoCoerce`): the coercion matrix as a
    specification function, the in-place conversion as a method proved
    against it, and the round trips the renderings and parsers complete. */
module Coerce {
  import opened Errors
  import opened Chars
  import opened CInt
  import opened Values
  import opened Literals

  /** `sprintf("%04d%c%02d%c%02d", ...)` of the day `FromJulian` gives. */
  function DateText(cfg: Config, jul: int): string {
    var (y, m, d) := cfg.cal.fromJulian(jul);
    FormatInt(y, 4) + [cfg.dateSep] + FormatInt(m + 1, 2) + [cfg.dateSep] + FormatInt(d, 2)
  }

  /** `sprintf("%02d%c%02d", ...)` of hours and minutes, with C's truncating
      division and remainder by 60. */
  function ClockText(cfg: Config, minutes: int): string {
    FormatInt(CDiv(minutes, 60), 2) + [cfg.timeSep] + FormatInt(CRem(minutes, 60), 2)
  }

  /** The date, the date-time separator and the clock of a date-time. */
  function DateTimeText(cfg: Config, n: int): string {
    DateText(cfg, CDiv(n, MINUTES_PER_DAY)) + [cfg.dateTimeSep] + ClockText(cfg, CRem(n, MINUTES_PER_DAY))
  }

  /** The string form of a value: `%d` for an integer, the clock for a time,
      the calendar date, and both for a date-time. */
  function Render(cfg: Config, v: Value): (r: Result<string>)
    ensures r.Ok? <==> v.IntV? || v.TimeV? || v.DateV? || v.DateTimeV?
  {
    match v
    case IntV(n) => Ok(FormatInt(n, 0))
    case TimeV(n) => Ok(ClockText(cfg, n))
    case DateV(n) => Ok(DateText(cfg, n))
    case DateTimeV(n) => Ok(DateTimeText(cfg, n))
    case _ => Err(CantCoerce)
  }

  /** A string read as an integer: an optional `-` and then digits only (no
      digits reads as 0).  The 32-bit accumulator of the original program
      wraps; its final value is the exact value wrapped once. */
  function StrToInt(s: string): (r: Result<Value>)
    ensures r.Ok? ==> r.value.IntV? && Fits(r.value.n)
    ensures r.Err? ==> r.error == CantCoerce
  {
    var start := if At(s, 0) == '-' then 1 else 0;
    var e := DigitsEnd(s, start);
    if At(s, e) != NUL then Err(CantCoerce)
    else Ok(IntV(Wrap32((if start == 1 then -1 else 1) * RunValue(s, start, e))))
  }

  /** A string read as a whole date or date-time: the day and the minutes
      (0 when no time is given), failing unless the string is used up. */
  function StrToDate(cfg: Config, s: string): (r: Result<(int, int)>)
    ensures r.Err? ==> r.error == CantCoerce
  {
    match LiteralDate(s, 0, cfg)
    case Err(_) => Err(CantCoerce)
    case Ok(ds) =>
      if At(s, ds.next) != NUL then Err(CantCoerce)
      else Ok((ds.jul, if ds.time.None? then 0 else ds.time.value))
  }

  /** Conversion to a string: the rendering of a number, time or date. */
  function ToStr(cfg: Config, v: Value): (r: Result<Value>)
    ensures r.Ok? ==> r.value.KindOf() == StrType
    ensures r.Err? ==> r.error == CantCoerce
  {
    match Render(cfg, v)
    case Ok(t) => Ok(StrV(t))
    case Err(x) => Err(x)
  }

  /** Conversion to a date-time: an int is retagged, a date scaled to its
      first minute, a string read as a date with an optional time. */
  function ToDateTime(cfg: Config, v: Value): (r: Result<Value>)
    requires !v.DateTimeV?
    ensures r.Ok? ==> r.value.KindOf() == DateTimeType
    ensures r.Err? ==> r.error == CantCoerce
  {
    match v
    case IntV(n) => Ok(DateTimeV(n))
    case DateV(n) => Ok(DateTimeV(n * MINUTES_PER_DAY))
    case StrV(s) =>
      (match StrToDate(cfg, s)
       case Ok((jul, tim)) => Ok(DateTimeV(jul * MINUTES_PER_DAY + tim))
       case Err(x) => Err(x))
    case _ => Err(CantCoerce)
  }

  /** Conversion to an int: a string is read as digits, dates and times
      are retagged. */
  function ToInt(v: Value): (r: Result<Value>)
    requires !v.IntV?
    ensures r.Ok? ==> r.value.KindOf() == IntType
    ensures r.Err? ==> r.error == CantCoerce
  {
    match v
    case StrV(s) => StrToInt(s)
    case DateV(n) => Ok(IntV(n))
    case TimeV(n) => Ok(IntV(n))
    case DateTimeV(n) => Ok(IntV(n))
    case _ => Err(CantCoerce)
  }

  /** Conversion to a date: a non-negative int is retagged (a negative one
      is too low), a string is read as a date whose time part is dropped, a
      date-time loses its minutes by truncating division. */
  function ToDate(cfg: Config, v: Value): (r: Result<Value>)
    requires !v.DateV?
    ensures r.Ok? ==> r.value.KindOf() == DateType
    ensures r.Err? ==> r.error == CantCoerce || (r.error == TooLow && v.IntV? && v.n < 0)
  {
    match v
    case IntV(n) => if n >= 0 then Ok(DateV(n)) else Err(TooLow)
    case StrV(s) =>
      (match StrToDate(cfg, s)
       case Ok((jul, _)) => Ok(DateV(jul))
       case Err(x) => Err(x))
    case DateTimeV(n) => Ok(DateV(CDiv(n, MINUTES_PER_DAY)))
    case _ => Err(CantCoerce)
  }

  /** Conversion to a time: an int or date-time is reduced into the day, a
      string is read as a whole time literal. */
  function ToTime(cfg: Config, v: Value): (r: Result<Value>)
    requires !v.TimeV?
    ensures r.Ok? ==> r.value.KindOf() == TimeType && 0 <= r.value.n < MINUTES_PER_DAY
    ensures r.Err? ==> r.error == CantCoerce
  {
    match v
    case IntV(n) => Ok(TimeV(DayMinutes(n)))
    case DateTimeV(n) => Ok(TimeV(DayMinutes(n)))
    case StrV(s) =>
      (match LiteralTime(s, 0, cfg.timeSep)
       case Ok(ts) => if At(s, ts.next) != NUL then Err(CantCoerce) else Ok(TimeV(ts.minutes))
       case Err(_) => Err(CantCoerce))
    case _ => Err(CantCoerce)
  }

  /** `DoCoerce(target, v)`: the value converted to kind `target`; a value
      already of that kind is itself. */
  function Coerce(cfg: Config, target: Kind, v: Value): (r: Result<Value>)
    ensures v.KindOf() == target ==> r == Ok(v)
    ensures r.Ok? ==> r.value.KindOf() == target
    ensures r.Err? ==> r.error == CantCoerce || (r.error == TooLow && target == DateType && v.IntV? && v.n < 0)
  {
    if v.KindOf() == target then Ok(v)
    else if target == DateTimeType then ToDateTime(cfg, v)
    else if target == StrType then ToStr(cfg, v)
    else if target == IntType then ToInt(v)
    else if target == DateType then ToDate(cfg, v)
    else if target == TimeType then ToTime(cfg, v)
    else Err(CantCoerce)
  }

  /** What `DoCoerce` leaves in `*v` when it fails: a string that does not
      read as an integer is freed and the value becomes an error value;
      every other failure leaves the value alone. */
  function AfterFailure(target: Kind, v: Value): Value {
    if target == IntType && v.StrV? then ErrV else v
  }

  /** The string-to-int branch of `DoCoerce`, with its digit loop. */
  method StringToInt(s: string) returns (r: Outcome, w: Value)
    ensures r.Pass? <==> StrToInt(s).Ok?
    ensures r.Pass? ==> w == StrToInt(s).value
    ensures r.Fail? ==> r.error == CantCoerce && w == ErrV
  {
    var i, m, k := 0, 1, 0;
    if At(s, 0) == '-' {
      m, k := -1, 1;
    }
    ghost var start := k;
    while k < |s| && IsDigit(s[k])
      invariant start <= k <= |s| && DigitsIn(s, start, k)
      invariant DigitsEnd(s, k) == DigitsEnd(s, start)
      invariant i == RunValue(s, start, k)
      decreases |s| - k
    {
      i := i * 10 + DigitValue(s[k]);
      k := k + 1;
    }
    if At(s, k) != NUL {
      return Fail(CantCoerce), ErrV;
    }
    return Pass, IntV(Wrap32(i * m));
  }

  /** A string read in full by the date scanner, for the date and date-time
      branches of `DoCoerce`. */
  method StringToDate(cfg: Config, s: string) returns (r: Result<(int, int)>)
    ensures r == StrToDate(cfg, s)
  {
    var ds := ParseLiteralDate(s, 0, cfg);
    if ds.Err? || At(s, ds.value.next) != NUL { return Err(CantCoerce); }
    r := Ok((ds.value.jul, if ds.value.time.None? then 0 else ds.value.time.value));
  }

  /** `DoCoerce`: converts `v` in place; `w` is the new content of `*v`. */
  method DoCoerce(cfg: Config, target: Kind, v: Value) returns (r: Outcome, w: Value)
    ensures r.Pass? <==> Coerce(cfg, target, v).Ok?
    ensures r.Pass? ==> w == Coerce(cfg, target, v).value
    ensures r.Fail? ==> r.error == Coerce(cfg, target, v).error && w == AfterFailure(target, v)
  {
    if v.KindOf() == target { return Pass, v; }
    r, w := Fail(CantCoerce), v;
    match target {
      case DateTimeType =>
        match v {
          case IntV(n) => r, w := Pass, DateTimeV(n);
          case DateV(n) => r, w := Pass, DateTimeV(n * MINUTES_PER_DAY);
          case StrV(s) =>
            var d := StringToDate(cfg, s);
            if d.Ok? {
              r, w := Pass, DateTimeV(d.value.0 * MINUTES_PER_DAY + d.value.1);
            }
          case _ =>
        }
      case StrType =>
        match v {
          case IntV(n) => r, w := Pass, StrV(FormatInt(n, 0));
          case TimeV(n) => r, w := Pass, StrV(ClockText(cfg, n));
          case DateV(n) => r, w := Pass, StrV(DateText(cfg, n));
          case DateTimeV(n) =>
            var day, k := CDiv(n, MINUTES_PER_DAY), CRem(n, MINUTES_PER_DAY);
            r, w := Pass, StrV(DateText(cfg, day) + [cfg.dateTimeSep] + ClockText(cfg, k));
          case _ =>
        }
      case IntType =>
        match v {
          case StrV(s) => r, w := StringToInt(s);
          case DateV(n) => r, w := Pass, IntV(n);
          case TimeV(n) => r, w := Pass, IntV(n);
          case DateTimeV(n) => r, w := Pass, IntV(n);
          case _ =>
        }
      case DateType =>
        match v {
          case IntV(n) =>
            if n >= 0 { r, w := Pass, DateV(n); } else { r := Fail(TooLow); }
          case StrV(s) =>
            var d := StringToDate(cfg, s);
            if d.Ok? { r, w := Pass, DateV(d.value.0); }
          case DateTimeV(n) => r, w := Pass, DateV(CDiv(n, MINUTES_PER_DAY));
          case _ =>
        }
      case TimeType =>
        match v {
          case IntV(n) =>
            var t := CRem(n, MINUTES_PER_DAY);
            if t < 0 { t := t + MINUTES_PER_DAY; }
            r, w := Pass, TimeV(t);
          case DateTimeV(n) =>
            var t := CRem(n, MINUTES_PER_DAY);
            if t < 0 { t := t + MINUTES_PER_DAY; }
            r, w := Pass, TimeV(t);
          case StrV(s) =>
            var ts := ParseLiteralTime(s, 0, cfg.timeSep);
            if ts.Ok? && At(s, ts.value.next) == NUL { r, w := Pass, TimeV(ts.value.minutes); }
          case _ =>
        }
      case _ =>
    }
  }

  /** An integer written by `%d` reads back as itself. */
  lemma IntStringRoundTrip(cfg: Config, n: int)
    requires Fits(n)
    ensures Coerce(cfg, StrType, IntV(n)) == Ok(StrV(FormatInt(n, 0)))
    ensures Coerce(cfg, IntType, StrV(FormatInt(n, 0))) == Ok(IntV(n))
  {
    var t := FormatInt(n, 0);
    assert Render(cfg, IntV(n)) == Ok(t);
    assert ToStr(cfg, IntV(n)) == Ok(StrV(t));
    ReadsBack(n);
    assert ToInt(StrV(t)) == StrToInt(t);
  }

  lemma ReadsBack(n: int)
    requires Fits(n)
    ensures StrToInt(FormatInt(n, 0)) == Ok(IntV(n))
  {
    var t := FormatInt(n, 0);
    FormatIntDigits(n, 0);
    if n >= 0 {
      DigitRun([], t, []);
      assert [] + t + [] == t;
      assert At(t, 0) != '-';
      assert DigitsEnd(t, 0) == |t|;
      assert RunValue(t, 0, |t|) == n;
    } else {
      var u := t[1..];
      assert t == [t[0]] + u + [];
      DigitRun([t[0]], u, []);
      assert At(t, 0) == '-';
      assert DigitsEnd(t, 1) == |t|;
      assert t[1..|t|] == u;
      RunValueSlice(t, 1, |t|);
    }
  }

  // The round trips between rendering and scanning are proved run by run:
  // where the scanner finds each digit run of the rendered text, then what
  // the scanner returns for those runs.

  /** The character at a cursor and the rest after it. */
  lemma DropOne(s: string, i: nat, c: char, rest: string)
    requires i <= |s| && s[i..] == [c] + rest
    ensures i < |s| && At(s, i) == c && s[i + 1..] == rest
  {
    assert s[i + 1..] == s[i..][1..];
  }

  /** A digit run `d` after `p` and before `q`, as the scanners see it. */
  lemma RunAt(p: string, d: string, q: string)
    requires AllDigits(d) && |d| > 0 && !IsDigit(At(q, 0))
    ensures IsDigit(At(p + d + q, |p|))
    ensures DigitsEnd(p + d + q, |p|) == |p| + |d|
    ensures (p + d + q)[|p|..|p| + |d|] == d
    ensures At(p + d + q, |p| + |d|) == At(q, 0)
  {
    DigitRun(p, d, q);
    assert (p + d + q)[|p|] == d[0];
  }

  /** A digit run `d` at offset `o` of `s`, followed by `q`. */
  lemma RunFrom(s: string, o: nat, e: nat, d: string, q: string)
    requires o <= |s| && s[o..] == d + q && e == o + |d|
    requires AllDigits(d) && |d| > 0 && !IsDigit(At(q, 0))
    ensures IsDigit(At(s, o))
    ensures e <= |s| && DigitsEnd(s, o) == e
    ensures s[o..e] == d
    ensures At(s, e) == At(q, 0)
  {
    var p := s[..o];
    assert s == p + d + q by { assert s == p + s[o..]; }
    RunAt(p, d, q);
  }

  /** A digit run followed by a non-digit separator and the rest. */
  lemma FieldAt(s: string, o: nat, e: nat, d: string, sep: char, rest: string)
    requires o <= |s| && s[o..] == d + ([sep] + rest) && e == o + |d|
    requires AllDigits(d) && |d| > 0 && !IsDigit(sep)
    ensures IsDigit(At(s, o))
    ensures e < |s| && DigitsEnd(s, o) == e
    ensures s[o..e] == d
    ensures At(s, e) == sep && s[e + 1..] == rest
  {
    RunFrom(s, o, e, d, [sep] + rest);
    assert s[e..] == [sep] + rest by { assert s[e..] == s[o..][|d|..]; }
    DropOne(s, e, sep, rest);
  }

  /** The clock text as its three parts. */
  lemma ClockTextParts(cfg: Config, k: int)
    requires 0 <= k < MINUTES_PER_DAY
    ensures ClockText(cfg, k) == FormatInt(k / 60, 2) + ([cfg.timeSep] + FormatInt(k % 60, 2))
  {
    assert CDiv(k, 60) == k / 60 && CRem(k, 60) == k % 60;
  }

  /** Two digit runs around a non-digit, ending the string. */
  lemma ClockRuns(s: string, i: nat, hh: string, mm: string, sep: char, j: nat)
    requires i <= |s| && s[i..] == hh + ([sep] + mm) && j == i + |hh|
    requires AllDigits(hh) && AllDigits(mm) && |hh| > 0 && |mm| > 0 && !IsDigit(sep)
    ensures j < |s| && IsDigit(At(s, i)) && DigitsEnd(s, i) == j && At(s, j) == sep
    ensures IsDigit(At(s, j + 1)) && DigitsEnd(s, j + 1) == |s|
    ensures RunValue(s, i, j) == DecValue(hh) && RunValue(s, j + 1, |s|) == DecValue(mm)
  {
    FieldAt(s, i, j, hh, sep, mm);
    RunFrom(s, j + 1, |s|, mm, []);
    RunValueSlice(s, i, j);
    RunValueSlice(s, j + 1, |s|);
  }

  /** Hours, a time separator and minutes, ending the string, are the time
      the time scanner reads. */
  lemma TimeAt(s: string, i: nat, j: nat, e: nat, timeSep: Separator, h: int, m: int)
    requires i < j < e == |s|
    requires IsDigit(At(s, i)) && DigitsEnd(s, i) == j && IsTimeSep(At(s, j), timeSep)
    requires IsDigit(At(s, j + 1)) && DigitsEnd(s, j + 1) == e
    requires RunValue(s, i, j) == h && RunValue(s, j + 1, e) == m && 0 <= h <= 23 && 0 <= m <= 59
    ensures LiteralTime(s, i, timeSep) == Ok(TimeScan(h * 60 + m, e))
  {
    assert Meridian(s, e) == (NUL, e);
  }

  /** The clock text of a time of day, ending a string, reads back as that
      time, when the time separator is not a digit. */
  lemma ClockScan(cfg: Config, i: nat, k: int, s: string)
    requires 0 <= k < MINUTES_PER_DAY && !IsDigit(cfg.timeSep)
    requires i <= |s| && s[i..] == ClockText(cfg, k)
    ensures LiteralTime(s, i, cfg.timeSep) == Ok(TimeScan(k, |s|))
  {
    var h, m := k / 60, k % 60;
    assert h * 60 + m == k;
    var hh, mm := FormatInt(h, 2), FormatInt(m, 2);
    FormatIntDigits(h, 2);
    FormatIntDigits(m, 2);
    ClockTextParts(cfg, k);
    var j := i + |hh|;
    ClockRuns(s, i, hh, mm, cfg.timeSep, j);
    TimeAt(s, i, j, |s|, cfg.timeSep, h, m);
  }

  lemma ClockReads(cfg: Config, k: int)
    requires 0 <= k < MINUTES_PER_DAY && !IsDigit(cfg.timeSep)
    ensures ToTime(cfg, StrV(ClockText(cfg, k))) == Ok(TimeV(k))
  {
    var t := ClockText(cfg, k);
    assert t[0..] == t;
    ClockScan(cfg, 0, k, t);
  }

  /** A time of day rendered by the string coercion reads back as the same
      time, when the time separator is not a digit. */
  lemma TimeStringRoundTrip(cfg: Config, k: int)
    requires 0 <= k < MINUTES_PER_DAY && !IsDigit(cfg.timeSep)
    ensures Coerce(cfg, StrType, TimeV(k)) == Ok(StrV(ClockText(cfg, k)))
    ensures Coerce(cfg, TimeType, StrV(ClockText(cfg, k))) == Ok(TimeV(k))
  {
    ClockReads(cfg, k);
  }

  /** The date text as its five parts, followed by `q`. */
  lemma DateTextParts(cfg: Config, jul: int, q: string)
    ensures var (y, m, d) := cfg.cal.fromJulian(jul);
      DateText(cfg, jul) + q ==
      FormatInt(y, 4) + ([cfg.dateSep] + (FormatInt(m + 1, 2) + ([cfg.dateSep] + (FormatInt(d, 2) + q))))
  {
  }

  /** Three digit runs with separators between them, before a non-digit:
      where the date scanner finds each run. */
  lemma ThreeRuns(s: string, yy: string, mm: string, dd: string, sep: char, q: string, dateSep: Separator, j: nat, k: nat, e: nat)
    requires AllDigits(yy) && AllDigits(mm) && AllDigits(dd) && |yy| > 0 && |mm| > 0 && |dd| > 0
    requires IsDateSep(sep, dateSep) && !IsDigit(sep) && !IsDigit(At(q, 0))
    requires s == yy + ([sep] + (mm + ([sep] + (dd + q))))
    requires j == |yy| && k == j + 1 + |mm| && e == k + 1 + |dd|
    ensures e <= |s| &&
      IsDigit(At(s, 0)) && DigitsEnd(s, 0) == j && IsDateSep(At(s, j), dateSep) &&
      IsDigit(At(s, j + 1)) && DigitsEnd(s, j + 1) == k && IsDateSep(At(s, k), dateSep) &&
      IsDigit(At(s, k + 1)) && DigitsEnd(s, k + 1) == e &&
      s[0..j] == yy && s[j + 1..k] == mm && s[k + 1..e] == dd
  {
    FieldAt(s, 0, j, yy, sep, mm + ([sep] + (dd + q)));
    FieldAt(s, j + 1, k, mm, sep, dd + q);
    RunFrom(s, k + 1, e, dd, q);
  }

  /** Three digit runs as the fields the date scanner returns. */
  lemma FieldsAt(s: string, j: nat, k: nat, e: nat, dateSep: Separator, y: int, m: int, d: int)
    requires j < k < e <= |s|
    requires IsDigit(At(s, 0)) && DigitsEnd(s, 0) == j && IsDateSep(At(s, j), dateSep)
    requires IsDigit(At(s, j + 1)) && DigitsEnd(s, j + 1) == k && IsDateSep(At(s, k), dateSep)
    requires IsDigit(At(s, k + 1)) && DigitsEnd(s, k + 1) == e
    requires RunValue(s, 0, j) == y && RunValue(s, j + 1, k) == m && RunValue(s, k + 1, e) == d
    ensures ScanFields(s, 0, dateSep) == Ok(DateFields(y, m - 1, d, e))
  {
  }

  /** The calendar date of a day reads back as the same fields, when the
      date separator is not a digit and whatever follows does not start
      with one. */
  lemma DateFieldsScan(cfg: Config, jul: int, q: string, s: string, e: nat)
    requires cfg.cal.RoundTrips(jul) && !IsDigit(cfg.dateSep) && !IsDigit(At(q, 0))
    requires s == DateText(cfg, jul) + q && e == |DateText(cfg, jul)|
    ensures var (y, m, d) := cfg.cal.fromJulian(jul);
      ScanFields(s, 0, cfg.dateSep) == Ok(DateFields(y, m, d, e))
  {
    var (y, m, d) := cfg.cal.fromJulian(jul);
    var yy, mm, dd := FormatInt(y, 4), FormatInt(m + 1, 2), FormatInt(d, 2);
    var j, k := |yy|, |yy| + 1 + |mm|;
    assert e == k + 1 + |dd|;
    DateTextParts(cfg, jul, q);
    DateRuns(s, y, m + 1, d, cfg.dateSep, q, j, k, e);
    FieldsAt(s, j, k, e, cfg.dateSep, y, m + 1, d);
  }

  /** Where the date scanner finds the three fields of a rendered date. */
  lemma DateRuns(s: string, y: nat, m1: nat, d: nat, sep: Separator, q: string, j: nat, k: nat, e: nat)
    requires !IsDigit(sep) && !IsDigit(At(q, 0))
    requires s == FormatInt(y, 4) + ([sep] + (FormatInt(m1, 2) + ([sep] + (FormatInt(d, 2) + q))))
    requires j == |FormatInt(y, 4)| && k == j + 1 + |FormatInt(m1, 2)| && e == k + 1 + |FormatInt(d, 2)|
    ensures j < k < e <= |s|
    ensures IsDigit(At(s, 0)) && DigitsEnd(s, 0) == j && IsDateSep(At(s, j), sep)
    ensures IsDigit(At(s, j + 1)) && DigitsEnd(s, j + 1) == k && IsDateSep(At(s, k), sep)
    ensures IsDigit(At(s, k + 1)) && DigitsEnd(s, k + 1) == e
    ensures RunValue(s, 0, j) == y && RunValue(s, j + 1, k) == m1 && RunValue(s, k + 1, e) == d
  {
    var yy, mm, dd := FormatInt(y, 4), FormatInt(m1, 2), FormatInt(d, 2);
    FormatIntDigits(y, 4);
    FormatIntDigits(m1, 2);
    FormatIntDigits(d, 2);
    ThreeRuns(s, yy, mm, dd, sep, q, sep, j, k, e);
    RunValueSlice(s, 0, j);
    RunValueSlice(s, j + 1, k);
    RunValueSlice(s, k + 1, e);
  }

  /** A date with nothing after it, read in full. */
  lemma DateOnlyAt(cfg: Config, s: string, f: DateFields)
    requires ScanFields(s, 0, cfg.dateSep) == Ok(f) && cfg.cal.dateOK(f.y, f.m, f.d)
    requires At(s, f.next) == NUL
    ensures StrToDate(cfg, s) == Ok((cfg.cal.julian(f.y, f.m, f.d), 0))
  {
  }

  /** A date, a date-time separator and a time, read in full. */
  lemma DateTimeAt(cfg: Config, s: string, f: DateFields, t: TimeScan)
    requires ScanFields(s, 0, cfg.dateSep) == Ok(f) && cfg.cal.dateOK(f.y, f.m, f.d)
    requires IsDateTimeSep(At(s, f.next)) && LiteralTime(s, f.next + 1, cfg.timeSep) == Ok(t)
    requires At(s, t.next) == NUL
    ensures StrToDate(cfg, s) == Ok((cfg.cal.julian(f.y, f.m, f.d), t.minutes))
  {
  }

  lemma DateReads(cfg: Config, jul: int)
    requires cfg.cal.RoundTrips(jul) && !IsDigit(cfg.dateSep)
    ensures ToDate(cfg, StrV(DateText(cfg, jul))) == Ok(DateV(jul))
  {
    var t := DateText(cfg, jul);
    assert t == t + [];
    DateFieldsScan(cfg, jul, [], t, |t|);
    var (y, m, d) := cfg.cal.fromJulian(jul);
    DateOnlyAt(cfg, t, DateFields(y, m, d, |t|));
  }

  /** A date rendered by the string coercion reads back as the same day,
      when the calendar converts it back and forth and the date separator
      is not a digit. */
  lemma DateStringRoundTrip(cfg: Config, jul: int)
    requires cfg.cal.RoundTrips(jul) && !IsDigit(cfg.dateSep)
    ensures Coerce(cfg, StrType, DateV(jul)) == Ok(StrV(DateText(cfg, jul)))
    ensures Coerce(cfg, DateType, StrV(DateText(cfg, jul))) == Ok(DateV(jul))
  {
    DateReads(cfg, jul);
  }

  /** A date, the date-time separator and the clock, read in full. */
  lemma DateTimeScan(cfg: Config, jul: int, k: int, s: string, e: nat)
    requires cfg.cal.RoundTrips(jul) && 0 <= k < MINUTES_PER_DAY
    requires !IsDigit(cfg.dateSep) && !IsDigit(cfg.timeSep) && IsDateTimeSep(cfg.dateTimeSep)
    requires s == DateText(cfg, jul) + ([cfg.dateTimeSep] + ClockText(cfg, k))
    requires e == |DateText(cfg, jul)|
    ensures StrToDate(cfg, s) == Ok((jul, k))
  {
    var q := [cfg.dateTimeSep] + ClockText(cfg, k);
    DateFieldsScan(cfg, jul, q, s, e);
    SplitAfter(s, DateText(cfg, jul), q);
    ClockAfter(cfg, s, e, k);
    DateTimeFieldsRead(cfg, jul, k, s, e);
  }

  /** The scanned date fields of a day, the separator and a clock ending
      the string, read in full as that day and time. */
  lemma DateTimeFieldsRead(cfg: Config, jul: int, k: int, s: string, e: nat)
    requires cfg.cal.RoundTrips(jul) && IsDateTimeSep(cfg.dateTimeSep)
    requires var (y, m, d) := cfg.cal.fromJulian(jul);
      ScanFields(s, 0, cfg.dateSep) == Ok(DateFields(y, m, d, e))
    requires e < |s| && At(s, e) == cfg.dateTimeSep
    requires LiteralTime(s, e + 1, cfg.timeSep) == Ok(TimeScan(k, |s|))
    ensures StrToDate(cfg, s) == Ok((jul, k))
  {
    var (y, m, d) := cfg.cal.fromJulian(jul);
    DateTimeAt(cfg, s, DateFields(y, m, d, e), TimeScan(k, |s|));
  }

  lemma SplitAfter(s: string, a: string, b: string)
    requires s == a + b
    ensures s[|a|..] == b
  {
  }

  /** The date-time separator and the clock text, ending a string. */
  lemma ClockAfter(cfg: Config, s: string, e: nat, k: int)
    requires 0 <= k < MINUTES_PER_DAY && !IsDigit(cfg.timeSep)
    requires e <= |s| && s[e..] == [cfg.dateTimeSep] + ClockText(cfg, k)
    ensures e < |s| && At(s, e) == cfg.dateTimeSep
    ensures LiteralTime(s, e + 1, cfg.timeSep) == Ok(TimeScan(k, |s|))
  {
    DropOne(s, e, cfg.dateTimeSep, ClockText(cfg, k));
    ClockScan(cfg, e + 1, k, s);
  }

  lemma DateTimeReads(cfg: Config, n: int)
    requires n >= 0 && cfg.cal.RoundTrips(n / MINUTES_PER_DAY)
    requires !IsDigit(cfg.dateSep) && !IsDigit(cfg.timeSep) && IsDateTimeSep(cfg.dateTimeSep)
    ensures ToDateTime(cfg, StrV(DateTimeText(cfg, n))) == Ok(DateTimeV(n))
  {
    var jul, k := n / MINUTES_PER_DAY, n % MINUTES_PER_DAY;
    assert jul * MINUTES_PER_DAY + k == n;
    assert CDiv(n, MINUTES_PER_DAY) == jul && CRem(n, MINUTES_PER_DAY) == k;
    var s := DateTimeText(cfg, n);
    assert s == DateText(cfg, jul) + ([cfg.dateTimeSep] + ClockText(cfg, k));
    DateTimeScan(cfg, jul, k, s, |DateText(cfg, jul)|);
  }

  /** A non-negative date-time rendered by the string coercion reads back
      as itself, when the date-time separator is one the date scanner
      accepts before a time and neither other separator is a digit. */
  lemma DateTimeStringRoundTrip(cfg: Config, n: int)
    requires n >= 0 && cfg.cal.RoundTrips(n / MINUTES_PER_DAY)
    requires !IsDigit(cfg.dateSep) && !IsDigit(cfg.timeSep) && IsDateTimeSep(cfg.dateTimeSep)
    ensures Coerce(cfg, StrType, DateTimeV(n)) == Ok(StrV(DateTimeText(cfg, n)))
    ensures Coerce(cfg, DateTimeType, StrV(DateTimeText(cfg, n))) == Ok(DateTimeV(n))
  {
    DateTimeReads(cfg, n);
  }

  /** A date widened to a date-time and narrowed back is the same date. */
  lemma DateDateTimeRoundTrip(cfg: Config, n: int)
    ensures Coerce(cfg, DateTimeType, DateV(n)) == Ok(DateTimeV(n * MINUTES_PER_DAY))
    ensures Coerce(cfg, DateType, DateTimeV(n * MINUTES_PER_DAY)) == Ok(DateV(n))
  {
    assert Abs(n * MINUTES_PER_DAY) == Abs(n) * MINUTES_PER_DAY;
  }

  /** An int becomes a date exactly when it is not negative, and such a
      date converts back to the same int. */
  lemma IntDateRoundTrip(cfg: Config, n: int)
    ensures Coerce(cfg, DateType, IntV(n)) == if n >= 0 then Ok(DateV(n)) else Err(TooLow)
    ensures n >= 0 ==> Coerce(cfg, IntType, DateV(n)) == Ok(IntV(n))
  {
  }

  /** Converting a number to a time lands within the day and keeps the
      value modulo 1440. */
  lemma TimeReduction(cfg: Config, v: Value)
    requires v.IntV? || v.DateTimeV?
    ensures Coerce(cfg, TimeType, v).Ok?
    ensures var t := Coerce(cfg, TimeType, v).value.n;
      0 <= t < MINUTES_PER_DAY && (t - v.n) % MINUTES_PER_DAY == 0
  {
  }

  /** A string converts to an int exactly when it is an optional minus sign
      followed by digits up to its end. */
  lemma StrToIntAccepts(s: string)
    requires NulFree(s)
    ensures StrToInt(s).Ok? <==> DigitsIn(s, if At(s, 0) == '-' then 1 else 0, |s|)
  {
    var start := if At(s, 0) == '-' then 1 else 0;
    var e := DigitsEnd(s, start);
    DigitsEndRun(s, start);
    if e < |s| {
      assert !IsDigit(At(s, e));
    }
  }
}
