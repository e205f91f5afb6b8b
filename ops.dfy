/** The operators of the expression language (`Add` ... `LogNot`): what
    each computes from the two operands it pops (or the one it rewrites in
    place), as a specification function over values.  Integer arithmetic
    never wraps: a result outside 32 bits is an error.  The stack effect of
    the operators is modelled by the evaluator machine. */
module Ops {
  import opened Errors
  import opened Chars
  import opened CInt
  import opened Values
  import opened Coerce

  /** A value the evaluator can hold: the integer member of every
      non-string value is a 32-bit int. */
  predicate Sound(v: Value) {
    v.StrV? || Fits(v.Num())
  }

  /** A time of day: minutes past midnight. */
  predicate DayTime(n: int) {
    0 <= n < MINUTES_PER_DAY
  }

  /** The kind pairs `Add` handles without converting to strings. */
  predicate AddKinds(a: Kind, b: Kind) {
    (a == IntType && b == IntType) ||
    (a == DateType && b == IntType) || (a == IntType && b == DateType) ||
    (a == DateTimeType && (b == IntType || b == TimeType)) ||
    ((a == IntType || a == TimeType) && b == DateTimeType) ||
    (a == TimeType && (b == IntType || b == TimeType)) || (a == IntType && b == TimeType)
  }

  /** `Add`: integers add exactly; a date or date-time plus an integer (or a
      time) moves it, and may not go below day 0; times add modulo a day;
      with a string on either side both are converted to strings and
      joined, within `MaxStringLen`. */
  function Add(cfg: Config, a: Value, b: Value): (r: Result<Value>)
    ensures r.Ok? && r.value.IntV? ==> a.IntV? && b.IntV? && r.value.n == a.n + b.n
    ensures r.Ok? && (r.value.DateV? || r.value.DateTimeV?) ==> 0 <= r.value.n == a.Num() + b.Num()
    ensures r.Ok? && r.value.TimeV? ==> DayTime(r.value.n) && (r.value.n - (a.Num() + b.Num())) % MINUTES_PER_DAY == 0
    ensures r.Ok? && r.value.StrV? ==> cfg.maxStringLen > 0 ==> |r.value.s| <= cfg.maxStringLen
    ensures r.Ok? ==> Fits(r.value.Num())
    ensures r.Err? ==> r.error in {TooHigh, DateOver, StringTooLong, BadType, CantCoerce}
    ensures a.IntV? && b.IntV? ==> (r.Ok? <==> Fits(a.n + b.n)) && (r.Err? ==> r.error == TooHigh)
    ensures (a.DateV? && b.IntV?) || (a.IntV? && b.DateV?) ==>
      (r.Ok? <==> Fits(a.n + b.n) && a.n + b.n >= 0) && (r.Ok? ==> r.value.DateV?) && (r.Err? ==> r.error == DateOver)
    ensures (a.DateTimeV? && (b.IntV? || b.TimeV?)) || ((a.IntV? || a.TimeV?) && b.DateTimeV?) ==>
      (r.Ok? <==> Fits(a.n + b.n) && a.n + b.n >= 0) && (r.Ok? ==> r.value.DateTimeV?) && (r.Err? ==> r.error == DateOver)
    ensures (a.TimeV? && b.IntV?) || (a.IntV? && b.TimeV?) || (a.TimeV? && b.TimeV?) ==>
      (r.Ok? <==> Fits(a.n + b.n)) && (r.Ok? ==> r.value.TimeV?) && (r.Err? ==> r.error == DateOver)
  {
    var ka, kb := a.KindOf(), b.KindOf();
    var sum := a.Num() + b.Num();
    if ka == IntType && kb == IntType then
      if AddOverflows(a.Num(), b.Num()) then Err(TooHigh) else Ok(IntV(sum))
    else if (ka == DateType && kb == IntType) || (ka == IntType && kb == DateType) then
      if AddOverflows(a.Num(), b.Num()) || sum < 0 then Err(DateOver) else Ok(DateV(sum))
    else if (ka == DateTimeType && (kb == IntType || kb == TimeType)) ||
            ((ka == IntType || ka == TimeType) && kb == DateTimeType) then
      if AddOverflows(a.Num(), b.Num()) || sum < 0 then Err(DateOver) else Ok(DateTimeV(sum))
    else if (ka == TimeType && kb == IntType) || (ka == IntType && kb == TimeType) ||
            (ka == TimeType && kb == TimeType) then
      if AddOverflows(a.Num(), b.Num()) then Err(DateOver) else Ok(TimeV(DayMinutes(sum)))
    else if ka == StrType || kb == StrType then
      match Coerce.Coerce(cfg, StrType, a)
      case Err(x) => Err(x)
      case Ok(sa) =>
        match Coerce.Coerce(cfg, StrType, b)
        case Err(x) => Err(x)
        case Ok(sb) =>
          if cfg.maxStringLen > 0 && |sa.s| + |sb.s| > cfg.maxStringLen then Err(StringTooLong)
          else Ok(StrV(sa.s + sb.s))
    else Err(BadType)
  }

  /** `Subtract`: integers subtract exactly; a date or date-time minus an
      integer (or a time) may not go below day 0; a time minus an integer
      is reduced into one day; the difference of two times, two dates or
      two date-times is an integer. */
  function Subtract(a: Value, b: Value): (r: Result<Value>)
    ensures r.Ok? && r.value.IntV? ==> a.KindOf() == b.KindOf() && r.value.n == a.Num() - b.Num()
    ensures r.Ok? && (r.value.DateV? || r.value.DateTimeV?) ==> 0 <= r.value.n == a.Num() - b.Num()
    ensures r.Ok? && r.value.TimeV? ==> DayTime(r.value.n) && (r.value.n - (a.Num() - b.Num())) % MINUTES_PER_DAY == 0
    ensures r.Ok? ==> r.value.KindOf() == (if a.KindOf() == b.KindOf() then IntType else a.KindOf())
    ensures r.Ok? ==> Fits(r.value.Num())
    ensures r.Err? ==> r.error in {TooHigh, DateOver, BadType}
    ensures a.IntV? && b.IntV? ==> (r.Ok? <==> Fits(a.n - b.n)) && (r.Err? ==> r.error == TooHigh)
    ensures a.DateV? && b.IntV? ==>
      (r.Ok? <==> Fits(a.n - b.n) && a.n - b.n >= 0) && (r.Ok? ==> r.value.DateV?) && (r.Err? ==> r.error == DateOver)
    ensures a.DateTimeV? && (b.IntV? || b.TimeV?) ==>
      (r.Ok? <==> Fits(a.n - b.n) && a.n - b.n >= 0) && (r.Ok? ==> r.value.DateTimeV?) && (r.Err? ==> r.error == DateOver)
    ensures a.TimeV? && b.IntV? ==> r.Ok? && r.value.TimeV?
    ensures (a.TimeV? && b.TimeV?) || (a.DateV? && b.DateV?) || (a.DateTimeV? && b.DateTimeV?) ==>
      (r.Ok? <==> Fits(a.n - b.n)) && (r.Ok? ==> r.value.IntV?) && (r.Err? ==> r.error == DateOver)
  {
    var ka, kb := a.KindOf(), b.KindOf();
    var diff := a.Num() - b.Num();
    if ka == IntType && kb == IntType then
      if SubOverflows(a.Num(), b.Num()) then Err(TooHigh) else Ok(IntV(diff))
    else if ka == DateType && kb == IntType then
      if SubOverflows(a.Num(), b.Num()) || diff < 0 then Err(DateOver) else Ok(DateV(diff))
    else if ka == DateTimeType && (kb == IntType || kb == TimeType) then
      if SubOverflows(a.Num(), b.Num()) || diff < 0 then Err(DateOver) else Ok(DateTimeV(diff))
    else if ka == TimeType && kb == IntType then
      Ok(TimeV(DayMinutes(diff)))
    else if ka == kb && (ka == TimeType || ka == DateTimeType || ka == DateType) then
      if SubOverflows(a.Num(), b.Num()) then Err(DateOver) else Ok(IntV(diff))
    else Err(BadType)
  }

  /** `Multiply`: integers only, exact or E_2HIGH. */
  function Multiply(a: Value, b: Value): (r: Result<Value>)
    ensures r.Ok? ==> a.IntV? && b.IntV? && r.value.IntV? && Fits(r.value.n)
    ensures r.Err? ==> r.error == TooHigh || r.error == BadType
  {
    if a.IntV? && b.IntV? then
      if (b.n == -1 && a.n == INT_MIN) || (a.n == -1 && b.n == INT_MIN) then Err(TooHigh)
      else if MulOverflows(a.n, b.n) then Err(TooHigh)
      else Ok(IntV(a.n * b.n))
    else Err(BadType)
  }

  /** `Divide`: integers only; the quotient is C's, truncated toward zero. */
  function Divide(a: Value, b: Value): (r: Result<Value>)
    ensures r.Ok? ==> a.IntV? && b.IntV? && b.n != 0 && r.value.IntV?
    ensures r.Ok? ==> Abs(a.n - b.n * r.value.n) < Abs(b.n)
    ensures r.Ok? ==> (a.n >= 0 ==> a.n - b.n * r.value.n >= 0) && (a.n < 0 ==> a.n - b.n * r.value.n <= 0)
    ensures r.Ok? && Sound(a) && Sound(b) ==> Fits(r.value.n)
    ensures r.Err? ==> r.error in {DivZero, TooHigh, BadType}
  {
    if a.IntV? && b.IntV? then
      if b.n == 0 then Err(DivZero)
      else if b.n == -1 && a.n == INT_MIN then Err(TooHigh)
      else
        CRemBounds(a.n, b.n);
        QuotientFits(a.n, b.n);
        Ok(IntV(CDiv(a.n, b.n)))
    else Err(BadType)
  }

  /** `Mod`: integers only; C's remainder, which has the sign of the
      dividend and is smaller than the divisor in magnitude.  The original
      program has no guard for INT_MIN % -1, whose C behaviour is undefined;
      this is the remainder the operator evidently means (0), see
      `Findings.ModAsWritten`. */
  function Mod(a: Value, b: Value): (r: Result<Value>)
    ensures r.Ok? ==> a.IntV? && b.IntV? && b.n != 0 && r.value.IntV?
    ensures r.Ok? ==> Abs(r.value.n) < Abs(b.n) && a.n - r.value.n == b.n * CDiv(a.n, b.n)
    ensures r.Ok? ==> (a.n >= 0 ==> r.value.n >= 0) && (a.n < 0 ==> r.value.n <= 0)
    ensures r.Ok? && Sound(b) ==> Fits(r.value.n)
    ensures r.Err? ==> r.error in {DivZero, BadType}
  {
    if a.IntV? && b.IntV? then
      if b.n == 0 then Err(DivZero)
      else
        CRemBounds(a.n, b.n);
        Ok(IntV(CRem(a.n, b.n)))
    else Err(BadType)
  }

  lemma QuotientFits(a: int, b: int)
    requires b != 0 && !(a == INT_MIN && b == -1)
    ensures Fits(a) && Fits(b) ==> Fits(CDiv(a, b))
  {
    if Fits(a) && Fits(b) {
      CDivFits(a, b);
    }
  }

  /** The six comparisons of `Compare`. */
  datatype How = EQ | GT | LT | GE | LE | NE

  /** The C truth value 1 or 0. */
  function Truth(b: bool): Value {
    IntV(if b then 1 else 0)
  }

  /** Whether the sign of a three-way comparison satisfies `how`. */
  predicate Holds(how: How, c: int) {
    match how
    case EQ => c == 0
    case NE => c != 0
    case LT => c < 0
    case GT => c > 0
    case LE => c <= 0
    case GE => c >= 0
  }

  /** `Compare(how)`: operands of different kinds are unequal and cannot be
      ordered; operands of one kind compare by `strcmp` or by value. */
  function Compare(how: How, a: Value, b: Value): (r: Result<Value>)
    ensures r.Ok? ==> r.value == IntV(0) || r.value == IntV(1)
    ensures r.Err? <==> a.KindOf() != b.KindOf() && how != EQ && how != NE
    ensures r.Err? ==> r.error == BadType
    ensures a.KindOf() != b.KindOf() && how == EQ ==> r == Ok(IntV(0))
    ensures a.KindOf() != b.KindOf() && how == NE ==> r == Ok(IntV(1))
    ensures a.KindOf() == b.KindOf() && !a.StrV? ==>
      (how == EQ ==> r == Ok(Truth(a.Num() == b.Num()))) && (how == NE ==> r == Ok(Truth(a.Num() != b.Num()))) &&
      (how == LT ==> r == Ok(Truth(a.Num() < b.Num()))) && (how == GT ==> r == Ok(Truth(a.Num() > b.Num()))) &&
      (how == LE ==> r == Ok(Truth(a.Num() <= b.Num()))) && (how == GE ==> r == Ok(Truth(a.Num() >= b.Num())))
  {
    if a.KindOf() != b.KindOf() then
      match how
      case EQ => Ok(IntV(0))
      case NE => Ok(IntV(1))
      case _ => Err(BadType)
    else if a.StrV? then
      Ok(Truth(Holds(how, StrCmp(a.s, b.s))))
    else
      Ok(Truth(Holds(how, a.Num() - b.Num())))
  }

  /** The truth of a non-string value: a non-zero integer member. */
  predicate Truthy(v: Value) {
    v.Num() != 0
  }

  /** `LogAND`: two operands of one non-string kind; the result is the
      first operand when it is false, the second otherwise. */
  function LogAnd(a: Value, b: Value): (r: Result<Value>)
    ensures r.Err? <==> a.KindOf() != b.KindOf() || a.StrV? || b.StrV?
    ensures r.Err? ==> r.error == BadType
    ensures r.Ok? ==> r.value == a || r.value == b
    ensures r.Ok? ==> (Truthy(r.value) <==> Truthy(a) && Truthy(b))
    ensures r.Ok? && !Truthy(a) ==> r.value == a
    ensures r.Ok? && Truthy(a) ==> r.value == b
  {
    if a.KindOf() != b.KindOf() || a.StrV? || b.StrV? then Err(BadType)
    else if a.Num() != 0 then Ok(b)  // the second operand's number, under the common kind
    else Ok(a)
  }

  /** `LogOR`: two operands of one non-string kind; the result is the first
      operand when it is true, the second otherwise. */
  function LogOr(a: Value, b: Value): (r: Result<Value>)
    ensures r.Err? <==> a.KindOf() != b.KindOf() || a.StrV? || b.StrV?
    ensures r.Err? ==> r.error == BadType
    ensures r.Ok? ==> r.value == a || r.value == b
    ensures r.Ok? ==> (Truthy(r.value) <==> Truthy(a) || Truthy(b))
    ensures r.Ok? && Truthy(a) ==> r.value == a
  {
    if a.KindOf() != b.KindOf() || a.StrV? || b.StrV? then Err(BadType)
    else if a.Num() == 0 then Ok(b)  // the second operand's number, under the common kind
    else Ok(a)
  }

  /** `UnMinus`: the negation of an integer; -INT_MIN is E_2HIGH. */
  function UnMinus(v: Value): (r: Result<Value>)
    ensures r.Ok? ==> v.IntV? && r.value.IntV? && r.value.n + v.n == 0
    ensures r.Ok? && Sound(v) ==> Fits(r.value.n)
    ensures r.Err? <==> !v.IntV? || v.n == INT_MIN
    ensures r.Err? ==> r.error == (if v.IntV? then TooHigh else BadType)
  {
    if !v.IntV? then Err(BadType)
    else if v.n == INT_MIN then Err(TooHigh)
    else Ok(IntV(-v.n))
  }

  /** `LogNot`: 1 for a zero integer, 0 for any other. */
  function LogNot(v: Value): (r: Result<Value>)
    ensures r.Ok? <==> v.IntV?
    ensures r.Err? ==> r.error == BadType
    ensures r.Ok? ==> (r.value == IntV(1) <==> v.n == 0) && (r.value == IntV(0) <==> v.n != 0)
  {
    if !v.IntV? then Err(BadType)
    else if v.n != 0 then Ok(IntV(0))
    else Ok(IntV(1))
  }

  // ---------------------------------------------------------------------
  // Properties of the operators
  // ---------------------------------------------------------------------

  /** Integer addition, subtraction and multiplication are exact, and fail
      with E_2HIGH exactly when the exact result leaves 32 bits. */
  lemma IntArithmeticExact(cfg: Config, x: int, y: int)
    ensures Add(cfg, IntV(x), IntV(y)) == if Fits(x + y) then Ok(IntV(x + y)) else Err(TooHigh)
    ensures Subtract(IntV(x), IntV(y)) == if Fits(x - y) then Ok(IntV(x - y)) else Err(TooHigh)
    ensures Multiply(IntV(x), IntV(y)) == if Fits(x * y) then Ok(IntV(x * y)) else Err(TooHigh)
  {
    if (y == -1 && x == INT_MIN) || (x == -1 && y == INT_MIN) {
      assert x * y == 0x8000_0000;
    }
  }

  /** Division and remainder of 32-bit integers: E_DIV_ZERO for a zero
      divisor, E_2HIGH only for INT_MIN / -1, and otherwise a quotient and
      remainder that rebuild the dividend. */
  lemma DivModExact(x: int, y: int)
    requires Fits(x) && Fits(y)
    ensures y == 0 ==> Divide(IntV(x), IntV(y)) == Err(DivZero) && Mod(IntV(x), IntV(y)) == Err(DivZero)
    ensures y != 0 ==> (Divide(IntV(x), IntV(y)).Ok? <==> !(x == INT_MIN && y == -1))
    ensures y != 0 && x == INT_MIN && y == -1 ==> Divide(IntV(x), IntV(y)) == Err(TooHigh)
    ensures y != 0 ==> Mod(IntV(x), IntV(y)).Ok?
    ensures Divide(IntV(x), IntV(y)).Ok? ==>
      x == y * Divide(IntV(x), IntV(y)).value.n + Mod(IntV(x), IntV(y)).value.n
  {
    if y != 0 {
      CRemBounds(x, y);
    }
  }

  /** Every operator result of sound operands is sound: no 32-bit
      wrap-around reaches the value stack. */
  lemma ArithmeticSound(cfg: Config, a: Value, b: Value)
    requires Sound(a) && Sound(b)
    ensures Add(cfg, a, b).Ok? ==> Sound(Add(cfg, a, b).value)
    ensures Subtract(a, b).Ok? ==> Sound(Subtract(a, b).value)
    ensures Multiply(a, b).Ok? ==> Sound(Multiply(a, b).value)
    ensures Divide(a, b).Ok? ==> Sound(Divide(a, b).value)
    ensures Mod(a, b).Ok? ==> Sound(Mod(a, b).value)
  {
  }

  /** The comparison and logical operators, too, keep values sound. */
  lemma LogicSound(a: Value, b: Value, how: How)
    requires Sound(a) && Sound(b)
    ensures Compare(how, a, b).Ok? ==> Sound(Compare(how, a, b).value)
    ensures LogAnd(a, b).Ok? ==> Sound(LogAnd(a, b).value)
    ensures LogOr(a, b).Ok? ==> Sound(LogOr(a, b).value)
    ensures UnMinus(a).Ok? ==> Sound(UnMinus(a).value)
    ensures LogNot(a).Ok? ==> Sound(LogNot(a).value)
  {
  }

  /** Addition of non-strings does not depend on the order of the
      operands. */
  lemma AddCommutes(cfg: Config, a: Value, b: Value)
    requires !a.StrV? && !b.StrV?
    ensures Add(cfg, a, b) == Add(cfg, b, a)
  {
  }

  /** The kinds `Add` rejects with E_BAD_TYPE: every pair without a string
      that is not in its table. */
  lemma AddBadType(cfg: Config, a: Value, b: Value)
    ensures Add(cfg, a, b) == Err(BadType) <==> !a.StrV? && !b.StrV? && !AddKinds(a.KindOf(), b.KindOf())
  {
    if a.StrV? || b.StrV? {
      AddStringsNotBadType(cfg, a, b);
    }
  }

  lemma AddStringsNotBadType(cfg: Config, a: Value, b: Value)
    requires a.StrV? || b.StrV?
    ensures Add(cfg, a, b) != Err(BadType)
  {
    var sa := Coerce.Coerce(cfg, StrType, a);
    assert sa.Err? ==> sa.error == CantCoerce;
  }

  /** Two strings are joined, failing only past `MaxStringLen`. */
  lemma AddStrings(cfg: Config, x: string, y: string)
    ensures Add(cfg, StrV(x), StrV(y)) ==
      if cfg.maxStringLen > 0 && |x| + |y| > cfg.maxStringLen then Err(StringTooLong) else Ok(StrV(x + y))
  {
  }

  /** A string and an integer are joined with the integer written by `%d`. */
  lemma AddStringInt(cfg: Config, x: string, n: int)
    ensures Add(cfg, StrV(x), IntV(n)) == Add(cfg, StrV(x), StrV(FormatInt(n, 0)))
    ensures Add(cfg, IntV(n), StrV(x)) == Add(cfg, StrV(FormatInt(n, 0)), StrV(x))
  {
  }

  /** The kind pairs `Subtract` handles. */
  predicate SubtractKinds(a: Kind, b: Kind) {
    (a == IntType && b == IntType) || (a == DateType && b == IntType) ||
    (a == DateTimeType && (b == IntType || b == TimeType)) || (a == TimeType && b == IntType) ||
    (a == b && (a == TimeType || a == DateTimeType || a == DateType))
  }

  /** The kinds `Subtract` rejects with E_BAD_TYPE: every pair outside its
      table, strings included. */
  lemma SubtractBadType(a: Value, b: Value)
    ensures Subtract(a, b) == Err(BadType) <==> !SubtractKinds(a.KindOf(), b.KindOf())
  {
  }

  /** Two reductions into one day of numbers that differ by a multiple of
      a day are the same time. */
  lemma SameDayTime(r: int, s: int, x: int, y: int)
    requires DayTime(r) && DayTime(s)
    requires (r - x) % MINUTES_PER_DAY == 0 && (s - y) % MINUTES_PER_DAY == 0 && (x - y) % MINUTES_PER_DAY == 0
    ensures r == s
  {
    var p, q, t := (r - x) / MINUTES_PER_DAY, (s - y) / MINUTES_PER_DAY, (x - y) / MINUTES_PER_DAY;
    assert r - s == (p - q + t) * MINUTES_PER_DAY;
  }

  /** Subtracting the integer just added gives back the original date,
      date-time or time of day. */
  lemma SubtractUndoesAdd(cfg: Config, v: Value, k: int)
    requires Sound(v) && Fits(k)
    requires ((v.DateV? || v.DateTimeV?) && v.n >= 0) || (v.TimeV? && DayTime(v.n))
    requires Add(cfg, v, IntV(k)).Ok?
    ensures Subtract(Add(cfg, v, IntV(k)).value, IntV(k)) == Ok(v)
  {
    var w := Add(cfg, v, IntV(k)).value;
    if v.TimeV? {
      var u := Subtract(w, IntV(k)).value;
      SameDayTime(u.n, v.n, w.n - k, v.n);
    }
  }

  /** The difference of two dates (or two date-times) added back to the
      second one gives the first. */
  lemma DifferenceAddsBack(cfg: Config, a: Value, b: Value)
    requires (a.DateV? && b.DateV?) || (a.DateTimeV? && b.DateTimeV?)
    requires a.n >= 0 && Fits(a.n) && Fits(b.n)
    requires Subtract(a, b).Ok?
    ensures Add(cfg, b, Subtract(a, b).value) == Ok(a)
  {
  }

  /** A time of day minus a time of day, added back as an integer, gives
      the first time again. */
  lemma TimeDifferenceAddsBack(cfg: Config, s: int, t: int)
    requires DayTime(s) && DayTime(t)
    ensures Subtract(TimeV(s), TimeV(t)) == Ok(IntV(s - t))
    ensures Add(cfg, TimeV(t), IntV(s - t)) == Ok(TimeV(s))
  {
    var sum := Add(cfg, TimeV(t), IntV(s - t));
    assert Fits(t + (s - t)) && sum.Ok?;
    SameDayTime(sum.value.n, s, s, s);
  }

  /** `!=` is the negation of `==`, `>=` that of `<` and `<=` that of `>`,
      between any two values. */
  lemma CompareComplements(a: Value, b: Value)
    requires a.KindOf() == b.KindOf()
    ensures Compare(NE, a, b).value == Truth(Compare(EQ, a, b) == Ok(IntV(0)))
    ensures Compare(GE, a, b).value == Truth(Compare(LT, a, b) == Ok(IntV(0)))
    ensures Compare(LE, a, b).value == Truth(Compare(GT, a, b) == Ok(IntV(0)))
  {
  }

  /** `==` and `!=` never fail, and are complementary even across kinds. */
  lemma EqualityTotal(a: Value, b: Value)
    ensures Compare(EQ, a, b).Ok? && Compare(NE, a, b).Ok?
    ensures Compare(NE, a, b).value == Truth(Compare(EQ, a, b).value == IntV(0))
  {
  }

  /** Swapping the operands turns `<` into `>` and `<=` into `>=`. */
  lemma CompareSwap(a: Value, b: Value)
    ensures Compare(LT, a, b) == Compare(GT, b, a)
    ensures Compare(LE, a, b) == Compare(GE, b, a)
    ensures Compare(EQ, a, b) == Compare(EQ, b, a)
  {
    if a.StrV? && b.StrV? {
      StrCmpSwap(a.s, b.s, 0);
    }
  }

  /** `==` holds of two values exactly when they are the same value (for
      strings without an embedded NUL, which C strings cannot hold). */
  lemma EqualMeansSame(a: Value, b: Value)
    requires a.StrV? ==> NulFree(a.s)
    requires b.StrV? ==> NulFree(b.s)
    ensures Compare(EQ, a, b) == Ok(IntV(1)) <==> a == b
  {
    if a.StrV? && b.StrV? {
      StrCmpZero(a.s, b.s, 0);
      assert a.s[0..] == a.s && b.s[0..] == b.s;
    }
  }

  /** Strings compare in `strcmp`'s lexicographic order: `<` holds exactly
      when the first is a proper prefix of the second or has the smaller
      character where they first differ, and `==` exactly when they are
      the same string. */
  lemma CompareStrings(x: string, y: string)
    requires NulFree(x) && NulFree(y)
    ensures Compare(EQ, StrV(x), StrV(y)) == Ok(Truth(x == y))
    ensures Compare(NE, StrV(x), StrV(y)) == Ok(Truth(x != y))
    ensures Compare(LT, StrV(x), StrV(y)) == Ok(Truth(LexLess(x, y)))
    ensures Compare(GT, StrV(x), StrV(y)) == Ok(Truth(LexLess(y, x)))
    ensures Compare(LE, StrV(x), StrV(y)) == Ok(Truth(!LexLess(y, x)))
    ensures Compare(GE, StrV(x), StrV(y)) == Ok(Truth(!LexLess(x, y)))
  {
    assert x[..0] == y[..0];
    StrCmpLess(x, y, 0);
    StrCmpLess(y, x, 0);
    StrCmpSwap(x, y, 0);
    StrCmpZero(x, y, 0);
    assert x[0..] == x && y[0..] == y;
  }

  /** `<` is transitive within a kind. */
  lemma LessTransitive(a: Value, b: Value, c: Value)
    requires Compare(LT, a, b) == Ok(IntV(1)) && Compare(LT, b, c) == Ok(IntV(1))
    ensures Compare(LT, a, c) == Ok(IntV(1))
  {
    if a.StrV? {
      StrCmpTrans(a.s, b.s, c.s, 0);
    }
  }

  /** The logical operators pass values through: `0 && 5` is 0, `3 && 5`
      is 5, `0 || 7` is 7 and `4 || 7` is 4. */
  lemma LogicPassesValues()
    ensures LogAnd(IntV(0), IntV(5)) == Ok(IntV(0))
    ensures LogAnd(IntV(3), IntV(5)) == Ok(IntV(5))
    ensures LogOr(IntV(0), IntV(7)) == Ok(IntV(7))
    ensures LogOr(IntV(4), IntV(7)) == Ok(IntV(4))
  {
  }

  /** Negating twice gives back the integer. */
  lemma UnMinusTwice(v: Value)
    requires Sound(v) && UnMinus(v).Ok?
    ensures UnMinus(UnMinus(v).value) == Ok(v)
  {
  }

  /** `!!x` is the truth value of `x`. */
  lemma LogNotTwice(v: Value)
    requires v.IntV?
    ensures LogNot(LogNot(v).value) == Ok(Truth(v.n != 0))
  {
  }
}
