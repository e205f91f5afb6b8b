/** Places where the original program, read as written, does something its
    authors evidently did not mean.  Each is modelled twice: the code as
    written, with the input that shows the discrepancy, and the corrected
    definition that the rest of the model uses (`Literals.MakeLiteral`,
    `Literals.Minutes`, `Ops.Mod`, `Ops.Subtract`).  Signed overflow, which
    C leaves undefined, is read as two's-complement wrap-around (`Wrap32`). */
module Findings {
  import opened Errors
  import opened Chars
  import opened CInt
  import opened Values
  import opened Literals
  import opened Ops

  /** The integer loop of `MakeValue` as written: each digit is added to
      `len * 10` in 32 bits, and only a result below the previous one is
      taken as an overflow (E_2HIGH). */
  function GuardedRun(s: string, i: int, j: int): (r: Result<int>)
    ensures r.Ok? ==> 0 <= r.value <= INT_MAX
    ensures r.Err? ==> r.error == TooHigh
    decreases j - i
  {
    if j <= i then Ok(0)
    else
      match GuardedRun(s, i, j - 1)
      case Err(e) => Err(e)
      case Ok(prev) =>
        var len := Wrap32(prev * 10 + DigitValue(At(s, j - 1)));
        if len < prev then Err(TooHigh) else Ok(len)
  }

  /** The minute loops of `MakeValue` and `ParseLiteralTime` as written:
      the digits accumulate in 32 bits with no check at all. */
  function WrappedRun(s: string, i: int, j: int): (r: int)
    ensures Fits(r)
    decreases j - i
  {
    if j <= i then 0 else Wrap32(WrappedRun(s, i, j - 1) * 10 + DigitValue(At(s, j - 1)))
  }

  /** The minutes of a time as written: `ClockValue`'s checks applied to the
      wrapped minutes, so that a wrapped negative count passes `m > 59`. */
  function MinutesAsWritten(s: string, k: nat, h: int): (r: Result<TimeScan>)
    requires k <= |s|
    ensures r.Err? ==> r.error == BadTime
    ensures r.Ok? ==> k < r.value.next <= |s| && r.value.minutes < MINUTES_PER_DAY
  {
    if !IsDigit(At(s, k)) then Err(BadTime)
    else
      var l := DigitsEnd(s, k);
      var (ampm, e) := Meridian(s, l);
      match ClockValue(h, WrappedRun(s, k, l), ampm)
      case Ok(t) => Ok(TimeScan(t, e))
      case Err(x) => Err(x)
  }

  /** The number branch of `MakeValue` as written: the guarded integer
      loop, then a time or the end of the token. */
  function NumberAsWritten(tok: string, cfg: Config): (r: Result<Value>)
    requires |tok| > 0 && IsDigit(tok[0])
    ensures r.Ok? ==> r.value.IntV? || r.value.TimeV?
    ensures r.Ok? && r.value.IntV? ==> 0 <= r.value.n <= INT_MAX
  {
    var j := DigitsEnd(tok, 0);
    match GuardedRun(tok, 0, j)
    case Err(e) => Err(e)
    case Ok(n) =>
      if IsTimeSep(At(tok, j), cfg.timeSep) then
        match MinutesAsWritten(tok, j + 1, n)
        case Err(x) => Err(x)
        case Ok(ts) => if At(tok, ts.next) != NUL then Err(BadTime) else Ok(TimeV(ts.minutes))
      else if At(tok, j) != NUL then Err(BadNumber)
      else Ok(IntV(n))
  }

  /** The guarded loop is exact while the value fits in 32 bits. */
  lemma {:induction false} GuardedRunExact(s: string, i: int, j: int)
    requires i <= j && DigitsIn(s, i, j) && RunValue(s, i, j) <= INT_MAX
    ensures GuardedRun(s, i, j) == Ok(RunValue(s, i, j))
    decreases j - i
  {
    if j > i {
      assert i >= 0 ==> RunValue(s, i, j - 1) <= RunValue(s, i, j) by {
        if i >= 0 { RunValuePrefix(s, i, j - 1, j); }
      }
      RunValueLower(s, i, j);
      GuardedRunExact(s, i, j - 1);
    }
  }

  /** The unchecked loop is exact while the value fits in 32 bits. */
  lemma {:induction false} WrappedRunExact(s: string, i: int, j: int)
    requires i <= j && DigitsIn(s, i, j) && RunValue(s, i, j) <= INT_MAX
    ensures WrappedRun(s, i, j) == RunValue(s, i, j)
    decreases j - i
  {
    if j > i {
      RunValueLower(s, i, j);
      WrappedRunExact(s, i, j - 1);
    }
  }

  /** One digit more never makes a run smaller. */
  lemma {:induction false} RunValueLower(s: string, i: int, j: int)
    requires i < j && DigitsIn(s, i, j)
    ensures 0 <= RunValue(s, i, j - 1) <= RunValue(s, i, j)
    decreases j - i
  {
    if i < j - 1 {
      RunValueLower(s, i, j - 1);
    }
  }

  /** "4772185890" under the guarded loop: the last digit takes
      477218589 * 10 past INT_MAX, and the wrapped result 477218594 is
      larger than its predecessor, so the guard does not fire. */
  lemma GuardedRunMisses(t: string)
    requires t == "4772185890"
    ensures GuardedRun(t, 0, 10) == Ok(477218594)
  {
    DigitsNine(t);
    GuardedRunExact(t, 0, 9);
    assert DigitValue(At(t, 9)) == 0;
    WrapAbove(4772185890);
    GuardedLast(t, 0, 10, 477218589, 4772185890);
  }

  /** The last step of the guarded loop, given the value before it and the
      exact value after it. */
  lemma GuardedLast(s: string, i: int, j: int, prev: int, exact: int)
    requires i < j && GuardedRun(s, i, j - 1) == Ok(prev)
    requires exact == prev * 10 + DigitValue(At(s, j - 1)) && Wrap32(exact) >= prev
    ensures GuardedRun(s, i, j) == Ok(Wrap32(exact))
  {
  }

  lemma DigitsNine(t: string)
    requires t == "4772185890"
    ensures DigitsIn(t, 0, 9) && RunValue(t, 0, 9) == 477218589
  {
    assert RunValue(t, 0, 1) == 4;
    assert RunValue(t, 0, 2) == 47;
    assert RunValue(t, 0, 3) == 477;
    assert RunValue(t, 0, 4) == 4772;
    assert RunValue(t, 0, 5) == 47721;
    assert RunValue(t, 0, 6) == 477218;
    assert RunValue(t, 0, 7) == 4772185;
    assert RunValue(t, 0, 8) == 47721858;
    assert RunValue(t, 0, 9) == 477218589;
  }

  /** Finding: "4772185890" is accepted as the integer 477218594, where the
      exact check rejects it with E_2HIGH. */
  lemma IntegerOverflowAccepted(cfg: Config, env: Env)
    ensures NumberAsWritten("4772185890", cfg) == Ok(IntV(477218594))
    ensures MakeLiteral("4772185890", cfg, env) == Err(TooHigh)
  {
    var t := "4772185890";
    IntegerToken(t);
    GuardedRunMisses(t);
    DigitsTen(t);
    IntegerLiteral(t, cfg, env);
  }

  /** Where the digit run of "4772185890" ends. */
  lemma IntegerToken(t: string)
    requires t == "4772185890"
    ensures AllDigits(t) && DigitsEnd(t, 0) == 10 && At(t, 10) == NUL
  {
    assert AllDigits(t);
    DigitRun([], t, []);
    assert [] + t + [] == t;
  }

  /** The exact value of the ten digits of "4772185890". */
  lemma DigitsTen(t: string)
    requires t == "4772185890"
    ensures DecValue(t) == 4772185890
  {
    assert RunValue(t, 0, 1) == 4;
    assert RunValue(t, 0, 2) == 47;
    assert RunValue(t, 0, 3) == 477;
    assert RunValue(t, 0, 4) == 4772;
    assert RunValue(t, 0, 5) == 47721;
    assert RunValue(t, 0, 6) == 477218;
    assert RunValue(t, 0, 7) == 4772185;
    assert RunValue(t, 0, 8) == 47721858;
    assert RunValue(t, 0, 9) == 477218589;
    assert RunValue(t, 0, 10) == 4772185890;
  }

  /** The minute digits of "0:4294967291" wrap to -5. */
  lemma MinuteDigitsWrap(t: string)
    requires t == "0:4294967291"
    ensures WrappedRun(t, 2, 12) == -5 && RunValue(t, 2, 12) > 59
  {
    assert RunValue(t, 2, 3) == 4;
    assert RunValue(t, 2, 4) == 42;
    assert RunValue(t, 2, 5) == 429;
    assert RunValue(t, 2, 6) == 4294;
    assert RunValue(t, 2, 7) == 42949;
    assert RunValue(t, 2, 8) == 429496;
    assert RunValue(t, 2, 9) == 4294967;
    assert RunValue(t, 2, 10) == 42949672;
    assert RunValue(t, 2, 11) == 429496729;
    assert DigitsIn(t, 2, 11);
    WrappedRunExact(t, 2, 11);
    WrapAbove(4294967291);
    assert RunValue(t, 2, 12) == 4294967291;
  }

  /** Finding: "0:4294967291" is accepted as the time -5, five minutes
      before midnight of no day, where the exact minutes are rejected with
      E_BAD_TIME. */
  lemma MinutesWrapAccepted(cfg: Config)
    ensures MinutesAsWritten("0:4294967291", 2, 0) == Ok(TimeScan(-5, 12))
    ensures NumberAsWritten("0:4294967291", cfg) == Ok(TimeV(-5))
    ensures Minutes("0:4294967291", 2, 0) == Err(BadTime)
  {
    var t := "0:4294967291";
    TimeToken(t);
    MinutesScan(t);
    assert GuardedRun(t, 0, 1) == Ok(0);
  }

  /** The minute digits of "0:4294967291" as written and exactly. */
  lemma MinutesScan(t: string)
    requires t == "0:4294967291"
    ensures MinutesAsWritten(t, 2, 0) == Ok(TimeScan(-5, 12))
    ensures Minutes(t, 2, 0) == Err(BadTime)
  {
    TimeToken(t);
    assert Meridian(t, 12) == (NUL, 12);
    MinuteDigitsWrap(t);
  }

  /** Where the digit runs of "0:4294967291" end. */
  lemma TimeToken(t: string)
    requires t == "0:4294967291"
    ensures DigitsEnd(t, 0) == 1 && At(t, 1) == ':' && IsDigit(At(t, 2))
    ensures DigitsIn(t, 2, 12) && DigitsEnd(t, 2) == 12 && At(t, 12) == NUL
  {
    forall k | 2 <= k < 12
      ensures IsDigit(At(t, k))
    {
    }
    assert DigitsEnd(t, 1) == 1;
    assert DigitsEnd(t, 12) == 12;
    assert DigitsEnd(t, 11) == 12;
    assert DigitsEnd(t, 10) == 12;
    assert DigitsEnd(t, 9) == 12;
    assert DigitsEnd(t, 8) == 12;
    assert DigitsEnd(t, 7) == 12;
    assert DigitsEnd(t, 6) == 12;
    assert DigitsEnd(t, 5) == 12;
    assert DigitsEnd(t, 4) == 12;
    assert DigitsEnd(t, 3) == 12;
  }

  /** A C result: defined, or undefined behaviour. */
  datatype CResult = Defined(result: Result<Value>) | Undefined

  /** `Mod` as written: the only guard is the zero divisor, so INT_MIN % -1,
      whose quotient overflows, is undefined in C (it traps on common
      hardware). */
  function ModAsWritten(a: Value, b: Value): (r: CResult)
    ensures r.Undefined? <==> a.IntV? && b.IntV? && a.n == INT_MIN && b.n == -1
  {
    if a.IntV? && b.IntV? then
      if b.n == 0 then Defined(Err(DivZero))
      else if a.n == INT_MIN && b.n == -1 then Undefined
      else Defined(Ok(IntV(CRem(a.n, b.n))))
    else Defined(Err(BadType))
  }

  /** Finding: INT_MIN % -1 is undefined as written; the corrected `Mod`
      gives the remainder 0, and apart from that one pair the two agree. */
  lemma ModMinByMinusOne(a: Value, b: Value)
    ensures ModAsWritten(IntV(INT_MIN), IntV(-1)) == Undefined
    ensures Mod(IntV(INT_MIN), IntV(-1)) == Ok(IntV(0))
    ensures !(a.IntV? && b.IntV? && a.n == INT_MIN && b.n == -1) ==> ModAsWritten(a, b) == Defined(Mod(a, b))
  {
    assert CDiv(INT_MIN, -1) == -INT_MIN;
  }

  /** A time minus an integer in `Subtract` as written: the difference is
      taken in 32 bits, with no overflow check, before it is reduced into
      one day. */
  function TimeMinusIntAsWritten(t: int, n: int): (r: Value)
    ensures r.TimeV? && DayTime(r.n)
  {
    TimeV(DayMinutes(Wrap32(t - n)))
  }

  /** Whenever the difference fits in 32 bits the written code agrees with
      the corrected `Subtract`. */
  lemma TimeMinusIntAgrees(t: int, n: int)
    requires Fits(t - n)
    ensures Subtract(TimeV(t), IntV(n)) == Ok(TimeMinusIntAsWritten(t, n))
  {
  }

  /** Finding: midnight minus INT_MIN gives 21:52 as written, where the
      exact difference 2^31 minutes is 02:08 past a day boundary. */
  lemma TimeMinusIntMin()
    ensures TimeMinusIntAsWritten(0, INT_MIN) == TimeV(1312)
    ensures Subtract(TimeV(0), IntV(INT_MIN)) == Ok(TimeV(128))
  {
    assert Wrap32(0 - INT_MIN) == INT_MIN;
    assert CDiv(INT_MIN, 1440) == -1491308;
    assert CDiv(-INT_MIN, 1440) == 1491308;
  }
}
