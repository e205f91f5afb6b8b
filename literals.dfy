/** Literal values: the time and date scanners `ParseLiteralTime` and
    `ParseLiteralDate`, and `MakeValue`, which turns one token into a value
    (a string, date, number or time literal, or the value of a variable).
    Each scanner is a method with its accumulator loops, proved equal to a
    specification function that the rest of the model uses. */
module Literals {
  import opened Errors
  import opened Chars
  import opened CInt
  import opened Values

  /** A scanned time: minutes past midnight and the cursor after it. */
  datatype TimeScan = TimeScan(minutes: int, next: nat)

  /** A scanned date: the Julian day, the time when one follows (`NO_TIME`
      otherwise) and the cursor after it. */
  datatype DateScan = DateScan(jul: int, time: Option<int>, next: nat)

  /** The characters accepted between hours and minutes. */
  predicate IsTimeSep(c: char, timeSep: Separator) {
    c == ':' || c == '.' || c == timeSep
  }

  /** The characters accepted between year, month and day. */
  predicate IsDateSep(c: char, dateSep: Separator) {
    c == '/' || c == '-' || c == dateSep
  }

  /** The characters that introduce the time part of a date-time. */
  predicate IsDateTimeSep(c: char) {
    c == ' ' || c == '@' || c == 'T' || c == 't'
  }

  /** The optional `a`, `am`, `p` or `pm` suffix (any case): the lower-case
      letter, or NUL when absent, and the cursor after the suffix. */
  function Meridian(s: string, i: nat): (r: (char, nat))
    requires i <= |s|
    ensures r.0 == NUL || r.0 == 'a' || r.0 == 'p'
    ensures i <= r.1 <= |s|
    ensures r.0 == NUL <==> r.1 == i
  {
    var c := At(s, i);
    if c == 'A' || c == 'a' || c == 'P' || c == 'p' then
      var c2 := At(s, i + 1);
      (Lower(c), if c2 == 'm' || c2 == 'M' then i + 2 else i + 1)
    else (NUL, i)
  }

  /** Hours, minutes and meridian to minutes past midnight, with the range
      checks of the original program: hours at most 23, minutes at most 59,
      and with a meridian hours from 1 to 12 (12am is midnight, 12pm noon,
      other pm hours gain 12). */
  function ClockValue(h: int, m: int, ampm: char): (r: Result<int>)
    ensures r.Ok? <==> h <= 23 && m <= 59 && (ampm == NUL || 1 <= h <= 12)
    ensures r.Err? ==> r.error == BadTime
    ensures r.Ok? && h >= 0 && m >= 0 ==> 0 <= r.value < MINUTES_PER_DAY && r.value % 60 == m
    ensures r.Ok? && ampm == NUL ==> r.value == h * 60 + m
  {
    if h > 23 || m > 59 then Err(BadTime)
    else if ampm != NUL && (h < 1 || h > 12) then Err(BadTime)
    else
      var hour := if ampm == 'a' && h == 12 then 0 else if ampm == 'p' && h < 12 then h + 12 else h;
      Ok(hour * 60 + m)
  }

  /** The 12-hour reading of a meridian: the hour modulo 12, plus 12 after
      noon. */
  lemma ClockValueTwelveHour(h: int, m: int, ampm: char)
    requires 1 <= h <= 12 && 0 <= m <= 59 && (ampm == 'a' || ampm == 'p')
    ensures ClockValue(h, m, ampm) == Ok(((h % 12) + (if ampm == 'p' then 12 else 0)) * 60 + m)
  {
  }

  /** The part of a time from the first minute digit on, given the hours. */
  function Minutes(s: string, k: nat, h: int): (r: Result<TimeScan>)
    requires k <= |s| && h >= 0
    ensures r.Err? ==> r.error == BadTime
    ensures r.Ok? ==> 0 <= r.value.minutes < MINUTES_PER_DAY && k < r.value.next <= |s|
  {
    if !IsDigit(At(s, k)) then Err(BadTime)
    else
      var l := DigitsEnd(s, k);
      RunNonneg(s, k);
      var (ampm, e) := Meridian(s, l);
      match ClockValue(h, RunValue(s, k, l), ampm)
      case Ok(t) => Ok(TimeScan(t, e))
      case Err(x) => Err(x)
  }

  /** `ParseLiteralTime`: hours, a separator, minutes, an optional meridian. */
  function LiteralTime(s: string, i: nat, timeSep: Separator): (r: Result<TimeScan>)
    requires i <= |s|
    ensures r.Err? ==> r.error == BadTime
    ensures r.Ok? ==> 0 <= r.value.minutes < MINUTES_PER_DAY && i < r.value.next <= |s|
  {
    if !IsDigit(At(s, i)) then Err(BadTime)
    else
      var j := DigitsEnd(s, i);
      RunNonneg(s, i);
      if !IsTimeSep(At(s, j), timeSep) then Err(BadTime)
      else Minutes(s, j + 1, RunValue(s, i, j))
  }

  /** Year, month (from 0) and day with the cursor after the day: the
      three digit runs of a date and their separators. */
  datatype DateFields = DateFields(y: int, m: int, d: int, next: nat)

  function ScanFields(s: string, i: nat, dateSep: Separator): (r: Result<DateFields>)
    requires i <= |s|
    ensures r.Err? ==> r.error == BadDate
    ensures r.Ok? ==> i < r.value.next <= |s|
  {
    if !IsDigit(At(s, i)) then Err(BadDate)
    else
      var j := DigitsEnd(s, i);
      if !IsDateSep(At(s, j), dateSep) || !IsDigit(At(s, j + 1)) then Err(BadDate)
      else
        var k := DigitsEnd(s, j + 1);
        if !IsDateSep(At(s, k), dateSep) || !IsDigit(At(s, k + 1)) then Err(BadDate)
        else
          var e := DigitsEnd(s, k + 1);
          Ok(DateFields(RunValue(s, i, j), RunValue(s, j + 1, k) - 1, RunValue(s, k + 1, e), e))
  }

  /** `ParseLiteralDate`: year, month and day separated by `/`, `-` or the
      date separator, checked by `DateOK`, then an optional time after a
      blank, `@`, `T` or `t`. */
  function LiteralDate(s: string, i: nat, cfg: Config): (r: Result<DateScan>)
    requires i <= |s|
    ensures r.Err? ==> r.error == BadDate || r.error == BadTime
    ensures r.Ok? ==> i < r.value.next <= |s|
    ensures r.Ok? && r.value.time.Some? ==> 0 <= r.value.time.value < MINUTES_PER_DAY
  {
    match ScanFields(s, i, cfg.dateSep)
    case Err(x) => Err(x)
    case Ok(f) =>
      if !cfg.cal.dateOK(f.y, f.m, f.d) then Err(BadDate)
      else
        var jul := cfg.cal.julian(f.y, f.m, f.d);
        if IsDateTimeSep(At(s, f.next)) then
          match LiteralTime(s, f.next + 1, cfg.timeSep)
          case Ok(t) => Ok(DateScan(jul, Some(t.minutes), t.next))
          case Err(x) => Err(x)
        else Ok(DateScan(jul, None, f.next))
  }

  /** What `MakeValue` accepts: a non-empty token, and a string token
      carries both quotes, as the tokenizer guarantees. */
  predicate ValueToken(tok: string) {
    |tok| > 0 && (tok[0] == '"' ==> |tok| >= 2)
  }

  /** `MakeValue`: a quoted string, a quoted date or date-time, an integer
      (a digit run above INT_MAX: E_2HIGH, whatever follows it; followed by
      anything but a time separator or the end: E_BAD_NUMBER), a time written
      as hours, separator and minutes, a system variable `$name`, or a
      variable.  The integer check is the exact one, see `Findings.NumberAsWritten`. */
  function MakeLiteral(tok: string, cfg: Config, env: Env): (r: Result<Value>)
    requires ValueToken(tok)
    ensures tok[0] == '"' ==> r == Ok(StrV(tok[1..|tok| - 1]))
    ensures IsDigit(tok[0]) && r.Ok? ==> r.value.IntV? || r.value.TimeV?
    ensures IsDigit(tok[0]) && r.Ok? && r.value.TimeV? ==> 0 <= r.value.n < MINUTES_PER_DAY
    ensures r.Ok? && r.value.IntV? && IsDigit(tok[0]) ==> 0 <= r.value.n <= INT_MAX
    ensures IsDigit(tok[0]) && RunValue(tok, 0, DigitsEnd(tok, 0)) > INT_MAX ==> r == Err(TooHigh)
    ensures (IsDigit(tok[0]) && RunValue(tok, 0, DigitsEnd(tok, 0)) <= INT_MAX &&
             !IsTimeSep(At(tok, DigitsEnd(tok, 0)), cfg.timeSep) && At(tok, DigitsEnd(tok, 0)) != NUL) ==>
            r == Err(BadNumber)
    ensures (IsDigit(tok[0]) && RunValue(tok, 0, DigitsEnd(tok, 0)) <= INT_MAX && At(tok, DigitsEnd(tok, 0)) == NUL) ==>
            r == Ok(IntV(RunValue(tok, 0, DigitsEnd(tok, 0))))
  {
    if tok[0] == '"' then Ok(StrV(tok[1..|tok| - 1]))
    else if tok[0] == '\'' then
      match LiteralDate(tok, 1, cfg)
      case Err(x) => Err(x)
      case Ok(ds) =>
        if At(tok, ds.next) != '\'' then Err(BadDate)
        else if ds.time.None? then Ok(DateV(ds.jul))
        else Ok(DateTimeV(ds.jul * MINUTES_PER_DAY + ds.time.value))
    else if IsDigit(tok[0]) then
      var j := DigitsEnd(tok, 0);
      var n := RunValue(tok, 0, j);
      RunNonneg(tok, 0);
      if n > INT_MAX then Err(TooHigh)
      else if IsTimeSep(At(tok, j), cfg.timeSep) then
        match Minutes(tok, j + 1, n)
        case Err(x) => Err(x)
        case Ok(ts) => if At(tok, ts.next) != NUL then Err(BadTime) else Ok(TimeV(ts.minutes))
      else if At(tok, j) != NUL then Err(BadNumber)
      else Ok(IntV(n))
    else if tok[0] == '$' then env.getSysVar(tok[1..])
    else env.getVar(tok)
  }

  /** A token of digits alone is the integer it spells, or E_2HIGH when
      that exceeds INT_MAX. */
  lemma IntegerLiteral(d: string, cfg: Config, env: Env)
    requires |d| > 0 && AllDigits(d)
    ensures MakeLiteral(d, cfg, env) == if DecValue(d) > INT_MAX then Err(TooHigh) else Ok(IntV(DecValue(d)))
  {
    DigitRun([], d, []);
    assert [] + d + [] == d;
  }

  /** Whether evaluating the token makes the expression non-constant: a
      system variable does. */
  predicate MarksNonConst(tok: string) {
    |tok| > 0 && tok[0] == '$'
  }

  /** `ParseLiteralTime`. */
  method ParseLiteralTime(s: string, i: nat, timeSep: Separator) returns (r: Result<TimeScan>)
    requires i <= |s|
    ensures r == LiteralTime(s, i, timeSep)
  {
    if !IsDigit(At(s, i)) { return Err(BadTime); }
    var j, h := ReadDigits(s, i);
    if !IsTimeSep(At(s, j), timeSep) { return Err(BadTime); }
    r := ScanMinutes(s, j + 1, h);
  }

  /** The minutes, meridian and range checks shared by `ParseLiteralTime`
      and the time branch of `MakeValue`. */
  method ScanMinutes(s: string, k: nat, h: int) returns (r: Result<TimeScan>)
    requires k <= |s| && h >= 0
    ensures r == Minutes(s, k, h)
  {
    if !IsDigit(At(s, k)) { return Err(BadTime); }
    var l, m := ReadDigits(s, k);
    var ampm: char, e := NUL, l;
    var c := At(s, l);
    if c == 'A' || c == 'a' || c == 'P' || c == 'p' {
      ampm, e := Lower(c), l + 1;
      var c2 := At(s, e);
      if c2 == 'm' || c2 == 'M' { e := e + 1; }
    }
    if h > 23 || m > 59 { return Err(BadTime); }
    var hour := h;
    if ampm != NUL {
      if h < 1 || h > 12 { return Err(BadTime); }
      if ampm == 'a' {
        if h == 12 { hour := 0; }
      } else if ampm == 'p' {
        if h < 12 { hour := h + 12; }
      }
    }
    r := Ok(TimeScan(hour * 60 + m, e));
  }

  /** The three digit-run loops of `ParseLiteralDate`. */
  method ReadFields(s: string, i: nat, dateSep: Separator) returns (r: Result<DateFields>)
    requires i <= |s|
    ensures r == ScanFields(s, i, dateSep)
  {
    if !IsDigit(At(s, i)) { return Err(BadDate); }
    var j, y := ReadDigits(s, i);
    if !IsDateSep(At(s, j), dateSep) { return Err(BadDate); }
    if !IsDigit(At(s, j + 1)) { return Err(BadDate); }
    var k, m := ReadDigits(s, j + 1);
    m := m - 1;
    if !IsDateSep(At(s, k), dateSep) { return Err(BadDate); }
    if !IsDigit(At(s, k + 1)) { return Err(BadDate); }
    var e, d := ReadDigits(s, k + 1);
    r := Ok(DateFields(y, m, d, e));
  }

  /** `ParseLiteralDate`. */
  method ParseLiteralDate(s: string, i: nat, cfg: Config) returns (r: Result<DateScan>)
    requires i <= |s|
    ensures r == LiteralDate(s, i, cfg)
  {
    var f := ReadFields(s, i, cfg.dateSep);
    if f.Err? { return Err(f.error); }
    var y, m, d, e := f.value.y, f.value.m, f.value.d, f.value.next;
    if !cfg.cal.dateOK(y, m, d) { return Err(BadDate); }
    var jul := cfg.cal.julian(y, m, d);
    if IsDateTimeSep(At(s, e)) {
      var t := ParseLiteralTime(s, e + 1, cfg.timeSep);
      match t
      case Ok(ts) => r := Ok(DateScan(jul, Some(ts.minutes), ts.next));
      case Err(x) => r := Err(x);
    } else {
      r := Ok(DateScan(jul, None, e));
    }
  }

  /** `MakeValue`; also reports whether the token makes the expression
      non-constant (`p->nonconst_expr = 1`). */
  method MakeValue(tok: string, cfg: Config, env: Env) returns (r: Result<Value>, nonconst: bool)
    requires ValueToken(tok)
    ensures r == MakeLiteral(tok, cfg, env)
    ensures nonconst == MarksNonConst(tok)
  {
    nonconst := false;
    if tok[0] == '"' {
      return Ok(StrV(tok[1..|tok| - 1])), false;
    } else if tok[0] == '\'' {
      var ds := ParseLiteralDate(tok, 1, cfg);
      if ds.Err? { return Err(ds.error), false; }
      if At(tok, ds.value.next) != '\'' { return Err(BadDate), false; }
      if ds.value.time.None? {
        r := Ok(DateV(ds.value.jul));
      } else {
        r := Ok(DateTimeV(ds.value.jul * MINUTES_PER_DAY + ds.value.time.value));
      }
      return;
    } else if IsDigit(tok[0]) {
      var j, n := 0, 0;
      while j < |tok| && IsDigit(tok[j])
        invariant 0 <= j <= |tok| && DigitsIn(tok, 0, j)
        invariant DigitsEnd(tok, j) == DigitsEnd(tok, 0)
        invariant n == RunValue(tok, 0, j) && 0 <= n <= INT_MAX
        decreases |tok| - j
      {
        n := n * 10 + DigitValue(tok[j]);
        j := j + 1;
        if n > INT_MAX {
          DigitsEndRun(tok, 0);
          RunValuePrefix(tok, 0, j, DigitsEnd(tok, 0));
          return Err(TooHigh), false;
        }
      }
      if IsTimeSep(At(tok, j), cfg.timeSep) {
        var ts := ScanMinutes(tok, j + 1, n);
        if ts.Err? { return Err(ts.error), false; }
        if At(tok, ts.value.next) != NUL { return Err(BadTime), false; }
        return Ok(TimeV(ts.value.minutes)), false;
      }
      if At(tok, j) != NUL { return Err(BadNumber), false; }
      return Ok(IntV(n)), false;
    } else if tok[0] == '$' {
      return env.getSysVar(tok[1..]), true;
    }
    r := env.getVar(tok);
  }
}
