/** The tagged values of the expression language (the `Value` record and the
    type tags of expr.h) and the parts of the surrounding program the
    evaluator consults: configuration, calendar, variables and functions. */
module Values {
  import opened Errors
  import opened Chars

  const MINUTES_PER_DAY: int := 1440

  /** The type tags ERR_TYPE ... SPECIAL_TYPE. */
  datatype Kind = ErrType | IntType | TimeType | DateType | StrType | DateTimeType | SpecialType

  /** A value: the integer member of the C union for every kind but
      strings, which own their text.  A time counts minutes past midnight, a
      date is a Julian day number, a date-time is day * 1440 + minute; a
      special value is the cookie of a system variable.  An error value
      carries no number here; `Num` reads it as 0 where C would read the
      union member left behind. */
  datatype Value =
    | ErrV
    | IntV(n: int)
    | TimeV(n: int)
    | DateV(n: int)
    | StrV(s: string)
    | DateTimeV(n: int)
    | SpecialV(n: int)
  {
    function KindOf(): Kind {
      match this
      case ErrV => ErrType
      case IntV(_) => IntType
      case TimeV(_) => TimeType
      case DateV(_) => DateType
      case StrV(_) => StrType
      case DateTimeV(_) => DateTimeType
      case SpecialV(_) => SpecialType
    }

    /** `v.v.val` for a non-string value. */
    function Num(): int {
      match this
      case ErrV => 0
      case StrV(_) => 0
      case IntV(n) => n
      case TimeV(n) => n
      case DateV(n) => n
      case DateTimeV(n) => n
      case SpecialV(n) => n
    }
  }

  /** A value of kind `k` whose integer member is `n`: what retagging
      (`v->type = k`) does to a non-string value. */
  function WithKind(k: Kind, n: int): (v: Value)
    requires k != StrType
    ensures v.KindOf() == k
    ensures k != ErrType ==> v.Num() == n
  {
    match k
    case ErrType => ErrV
    case IntType => IntV(n)
    case TimeType => TimeV(n)
    case DateType => DateV(n)
    case DateTimeType => DateTimeV(n)
    case SpecialType => SpecialV(n)
  }

  /** A separator character of the configuration; never the terminator. */
  type Separator = c: char | c != NUL witness ':'

  /** The calendar routines `Julian`, `FromJulian` and `DateOK` (months
      counted from 0), which are not part of this model. */
  datatype Calendar = Calendar(
    julian: (int, int, int) -> int,
    fromJulian: int -> (int, int, int),
    dateOK: (int, int, int) -> bool)
  {
    /** The contract the date rendering relies on: a non-negative day
        number converts to a valid, non-negative year/month/day that
        converts back to the same day number. */
    predicate RoundTrips(j: int) {
      var (y, m, d) := fromJulian(j);
      y >= 0 && m >= 0 && d >= 0 && dateOK(y, m, d) && julian(y, m, d) == j
    }
  }

  /** Settings the evaluator reads: `TimeSep`, `DateSep`, `DateTimeSep`,
      `MaxStringLen` (0 or less: no limit), the blank-character test
      `isempty` and the calendar. */
  datatype Config = Config(
    timeSep: Separator,
    dateSep: Separator,
    dateTimeSep: Separator,
    maxStringLen: int,
    isBlank: char -> bool,
    cal: Calendar)

  /** An entry of the built-in function table `Func`. */
  datatype BuiltinFunc = BuiltinFunc(name: string, isConstant: bool)

  /** Variable lookup, system variables, the built-in function table and
      the calls into built-in and user-defined functions (`GetVarValue`,
      `GetSysVar`, `Func`, `CallFunc`, `CallUserFunc`), which are not part of
      this model.  A call receives its arguments in order and yields the
      value that replaces them on the value stack. */
  datatype Env = Env(
    getVar: string -> Result<Value>,
    getSysVar: string -> Result<Value>,
    funcs: seq<BuiltinFunc>,
    callFunc: (BuiltinFunc, seq<Value>) -> Result<Value>,
    callUserFunc: (string, seq<Value>) -> Result<Value>)
}
