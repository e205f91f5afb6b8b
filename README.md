# Remind's expression evaluator, modelled in Dafny

Remind is a calendar and reminder program. Its reminder scripts contain
expressions such as `[trigger(today()+7)]` or `[hour(now()) >= 12 && x]`.
This project models the evaluator of that expression language. It covers:

- the tokenizer `ParseExprToken` and the dynamic token buffer it writes into;
- the literal parsers `MakeValue`, `ParseLiteralTime` and `ParseLiteralDate`;
- the operator tables `BinOp` and `UnOp`, and the binary searches
  `FindOperator` and `FindFunc`;
- the two-stack operator-precedence evaluator `Evaluate` and `EvalExpr`,
  which runs over the global `OpStack` and `ValStack` arrays and their
  bounded push and pop macros;
- the coercion matrix `DoCoerce`;
- the operators `+ - * / %`, the six comparisons, `&&`, `||`, unary `-`
  and `!`.

Each module follows one part of the program:

| module | file | what it holds |
|---|---|---|
| `Errors` | errors.dfy | the `E_*` codes, `Result`, `Outcome`, `Option` |
| `Chars` | chars.dfy | `At` (a string read as a NUL-terminated C string), digit runs and their exact values, `%d`-style formatting, `strcmp` |
| `CInt` | cint.dfy | the 32-bit range, C's truncating `/` and `%`, two's-complement wrap-around |
| `Values` | values.dfy | the tagged `Value`; the configuration and the collaborators (calendar, variables, functions) as parameters |
| `Tables` | tables.dfy | `BinOp`, `UnOp`, `FindOperator`, `strcmp_lcfirst`, `FindFunc` |
| `DynBuf` | dynbuf.dfy | the `DynamicBuffer` class with `DBufInit`, `DBufMakeRoom`, `DBufPutc`, `DBufPuts`, `DBufFree` |
| `Tokens` | tokens.dfy | the token specification `Lex` and the methods of `ParseExprToken` proved against it |
| `Literals` | literals.dfy | time, date and number literals as functions, and the parsing methods proved against them |
| `Coerce` | coerce.dfy | `Coerce` and the method `DoCoerce`, with the string round trips |
| `Ops` | ops.dfy | the operator rules as functions, with their algebraic laws |
| `EvalSpec` | evalspec.dfy | `Evaluate` and `EvalExpr` as functions on the abstract stacks, with the stack-shape invariant |
| `Evaluator` | machine.dfy | the `Machine` class: the stack arrays, the stack pointers, `ExprBuf` and the `nonconst_expr` flag, with every step of `Evaluate` as a method proved against `EvalSpec` |
| `Precedence` | precedence.dfy | precedence and left associativity on concrete stacks |
| `Findings` | findings.dfy | the code as written where it differs from its evident intent |

Three choices run through the model.

- **Integers.** `int` values are unbounded, and the 32-bit range is the
  predicate `CInt.Fits`. The `_private_*_overflow` helpers are exactly
  "the exact result does not fit". Where the C code lets a signed
  accumulator overflow, the model writes the two's-complement wrap out
  (`CInt.Wrap32`).
- **Collaborators.** The calendar (`Julian`, `FromJulian`, `DateOK`),
  variable lookup, system variables, the `Func` table, `CallFunc`,
  `CallUserFunc` and the blank test `isempty` are parameters of the
  model, as fields of `Config` and `Env`.
- **Operator functions.** The evaluator is proved for any operator
  functions (`EvalSpec.OpFns`). `EvalSpec.Standard` holds the functions
  that the table's `func` pointers reach.

The evaluator's central invariant is `EvalSpec.Shape`. Above the bases of
an `Evaluate` call, the value stack holds as many values as there are
binary operators on the operator stack while a value is expected, and one
more while an operator is expected. Three facts follow from it:

- every operator finds its operands;
- every `Evaluate` call leaves exactly one value above its base and
  nothing below it changed (`EvalSpec.Finished`);
- E_STACK_ERR is never raised by the final check, only passed on from an
  operator.

## Model

| member | source | states |
|---|---|---|
| Chars.At | src/expr.c:167-169 | the character at an index, and NUL past the end, as a C string reads |
| Chars.LowerString | src/expr.c:1222 | `tolower` on every character |
| Chars.DigitsEndRun | src/expr.c:548 | every character between the start and the end of a digit run is a digit |
| Chars.ReadDigits | src/expr.c:1383-1386 | the digit-accumulating loop stops at the first non-digit with the exact value of the run |
| Chars.DigitRun | src/expr.c:548-556 | a digit string followed by a non-digit is read as exactly that run |
| Chars.Decimal | src/expr.c:661 | `%d` of a natural number: a non-empty digit string spelling it, without a leading zero |
| Chars.ZeroPad | src/expr.c:662-667 | the `%02d`/`%04d` padding keeps the value and gives the width |
| Chars.FormatInt | src/expr.c:661-676 | `%d` of an integer: digits spelling it, with a minus sign first when it is negative |
| Chars.FormatIntDigits | src/expr.c:661-676 | a formatted integer contains only digits after its optional sign |
| Chars.StrCmpZero | src/expr.c:1083-1084 | for NUL-free strings, `strcmp` is zero exactly when the strings are equal (both directions) |
| Chars.StrCmpSwap | src/expr.c:1085-1088 | swapping the arguments of `strcmp` negates the result |
| Chars.StrCmpTrans | src/expr.c:1085-1088 | `strcmp` order is transitive |
| Chars.StrCmpLess | src/expr.c:1085-1086 | from any position up to which two NUL-free strings agree, `strcmp` is negative exactly when the first comes first lexicographically (a proper prefix, or the smaller character at the first difference) |
| CInt.Wrap32 | src/expr.c:549-550 | the two's-complement result of an overflowing `int`: in range, congruent modulo 2^32, the identity in range |
| CInt.WrapAbove | src/expr.c:549-550 | a value up to 2^32 above INT_MAX wraps to itself minus 2^32 |
| CInt.WrapBelow | src/expr.c:917 | a value up to 2^32 below INT_MIN wraps to itself plus 2^32 |
| CInt.CRemBounds | src/expr.c:1022-1026 | C's `%`: `a == b*(a/b) + a%b`, with `|a%b| < |b|` and the sign of the dividend |
| CInt.SignedProduct | src/expr.c:995-998 | the sign rule of a product of signed magnitudes behind truncating division |
| CInt.CDivFits | src/expr.c:990-998 | a quotient of two 32-bit integers fits exactly when it is not INT_MIN / -1 |
| CInt.DayMinutes | src/expr.c:829-831 | `% MINUTES_PER_DAY` then adding 1440 when negative: in [0,1439] and congruent modulo 1440 |
| Values.WithKind | src/expr.c:641 | retagging a number keeps its integer member and gives the new kind |
| Tables.Lookup | src/expr.c:1202-1214 | the reference lookup: an entry with that name, or none exactly when no entry has it |
| Tables.LookupFunc | src/expr.c:1237-1249 | the same for the built-in function table |
| Tables.LookupAt | src/expr.c:1202-1214 | in a strictly sorted table, every entry is found by its own name |
| Tables.LookupFuncAt | src/expr.c:1237-1249 | the same for a sorted function table |
| Tables.BinOpsSorted | src/expr.c:57-75 | the `BinOp` names are strictly increasing under `strcmp` and NUL-free, as the binary search needs |
| Tables.BinOpsAdjacent | src/expr.c:61-75 | each `BinOp` name is below the next one under `strcmp` |
| Tables.UnOpsSorted | src/expr.c:78-82 | the `UnOp` names are strictly increasing and NUL-free |
| Tables.AdjacentSorted | src/expr.c:57-58 | a table whose neighbours are in order is sorted |
| Tables.FindOperator | src/expr.c:1202-1214 | the binary-search loop returns exactly the entry the linear lookup finds, or none |
| Tables.StrCmpLcFirst | src/expr.c:1218-1228 | `strcmp_lcfirst` is `strcmp` of the lower-cased first string with the second |
| Tables.LowerAt | src/expr.c:1222 | lower-casing commutes with reading a character |
| Tables.FindFunc | src/expr.c:1237-1249 | the binary search returns exactly the entry named by the lower-cased name, or none |
| DynBuf.Grown | src/dynbuf.c:52-55 | doubling from a positive capacity: above `n`, unchanged when already above, at most `2n` |
| DynBuf.DynamicBuffer.Contents | src/dynbuf.h:42-43 | `DBufValue`/`DBufLen`: the `len` characters before the terminator, none of them NUL |
| DynBuf.DynamicBuffer.Init | src/dynbuf.c:84-94 | an empty buffer in its static area with capacity DBUF_STATIC_SIZE |
| DynBuf.DynamicBuffer.MakeRoom | src/dynbuf.c:42-72 | OK without change when the capacity exceeds `n`; otherwise the doubled capacity with the contents kept, or E_NO_MEM with nothing changed |
| DynBuf.DynamicBuffer.Putc | src/dynbuf.c:107-120 | the contents gain the character and stay NUL-terminated; it succeeds exactly when there is room beyond the terminator or the doubled size is within the `malloc` limit; on E_NO_MEM the contents are unchanged |
| DynBuf.DynamicBuffer.Puts | src/dynbuf.c:133-147 | the contents gain the whole string; the empty string changes nothing; on E_NO_MEM the contents are unchanged |
| DynBuf.DynamicBuffer.Free | src/dynbuf.c:159-167 | the buffer is back in exactly the `DBufInit` state |
| Tokens.SkipBlanks | src/expr.c:167 | the first position at or after the cursor that is not blank, or the end |
| Tokens.IdEnd | src/expr.c:296-302 | the end of the run of identifier characters, `:`, `.` and the time separator |
| Tokens.QuotedString | src/expr.c:215-272 | a string token keeps the text read so far, gains at least its closing quote and ends in it; the only failure is E_MISS_QUOTE |
| Tokens.QuotedDate | src/expr.c:275-288 | a date token keeps the text read so far and ends in the closing `'`; the only failure is E_MISS_QUOTE |
| Tokens.Escape | src/expr.c:224-247 | an escaped character is never NUL |
| Tokens.QuotedEscape | src/expr.c:217-258 | a backslash and the character after it become one escaped character; a backslash at the end, or an escape at the end, is E_MISS_QUOTE |
| Tokens.QuotedPlain | src/expr.c:260-265 | a plain character is copied; a `"` is copied and ends the token |
| Tokens.QuotedDateStep | src/expr.c:275-283 | a character is copied; a `'` is copied and ends the token |
| Tokens.Lex | src/expr.c:160-315 | the token after the blanks: empty exactly at the end of the input; a non-empty token moves the cursor past it, and `, ] + - * / % ( )` are one-character tokens ending at the cursor; a string has both quotes; the only failures are E_MISS_QUOTE and E_ILLEGAL_CHAR |
| Tokens.LexAt | src/expr.c:169-313 | the token at a non-blank position, with the same guarantees as `Lex` |
| Tokens.OperatorToken | src/expr.c:177-210 | an operator token is one or two characters starting with the character read, and one character for `, ] + - * / % ( )`; the cursor moves past it |
| Tokens.LiteralToken | src/expr.c:212-313 | a string, date or identifier token: non-empty, not a one-character operator, a string with both quotes; the only failures are E_MISS_QUOTE and E_ILLEGAL_CHAR |
| Tokens.PeekChar | src/expr.c:146-151 | returns the first character that is not blank, or NUL |
| Tokens.SkipBlankRun | src/expr.c:165-167 | the blank-skipping loop stops where `SkipBlanks` says |
| Tokens.ReadQuotedString | src/expr.c:215-272 | the string loop leaves in the buffer, and reports, exactly what `QuotedString` specifies, except for E_NO_MEM |
| Tokens.ReadQuotedDate | src/expr.c:275-288 | the date loop agrees with `QuotedDate` except for E_NO_MEM |
| Tokens.ReadIdentifier | src/expr.c:294-313 | the identifier loop leaves the name, and the `(` of a call, in the buffer |
| Tokens.ReadOperator | src/expr.c:177-210 | the operator switch always succeeds and leaves in the buffer the token `OperatorToken` specifies: a two-character token fits in the static area, so its E_NO_MEM returns cannot happen |
| Tokens.ReadLiteral | src/expr.c:212-313 | the string, date or identifier branch agrees with `LiteralToken` except for E_NO_MEM |
| Tokens.ParseExprToken | src/expr.c:160-315 | the token in the buffer and the cursor after it are those of `Lex`; any failure other than E_NO_MEM is the error `Lex` gives |
| Tokens.OperatorSpellingLex | src/expr.c:177-210 | an operator spelling written alone, or before a blank, reads back as itself |
| Tokens.BinaryOperatorsLex | src/expr.c:61-75 | every `BinOp` name reads back as one token |
| Tokens.BinOpSpelling | src/expr.c:61-75 | every `BinOp` name is a spelling the tokenizer forms |
| Tokens.UnaryOperatorsLex | src/expr.c:79-82 | `!` and `-` before a value read as one-character tokens |
| Tokens.PlainStringLex | src/expr.c:217-268 | text without quotes or backslashes, up to a quote, reads as the whole quoted text |
| Tokens.QuotedStringToken | src/expr.c:215-272 | a double-quoted string without escapes is one token |
| Tokens.UnterminatedString | src/expr.c:215-272 | a string with no closing quote is E_MISS_QUOTE |
| Tokens.IdEndAt | src/expr.c:296-302 | the identifier run ends at the first character that cannot continue it |
| Tokens.IdentifierToken | src/expr.c:294-313 | a name followed by `(` is read as the name with `(`; otherwise it is read as the name alone |
| Literals.Meridian | src/expr.c:1341-1348 | an optional `a`, `am`, `p` or `pm`: the letter `a`, `p` or none, and the cursor moves exactly when a meridian is read |
| Literals.ClockValue | src/expr.c:1349-1362 | accepted exactly when h ≤ 23, m ≤ 59 and, with a meridian, 1 ≤ h ≤ 12; the value lies within the day and keeps the minutes |
| Literals.ClockValueTwelveHour | src/expr.c:1350-1361 | 12am is midnight, 12pm noon, and other pm hours gain 12 |
| Literals.Minutes | src/expr.c:1336-1363 | the minutes and the meridian give a time within the day, or E_BAD_TIME |
| Literals.LiteralTime | src/expr.c:1324-1364 | `ParseLiteralTime`: hours, a separator, minutes and a meridian; a time within the day or E_BAD_TIME |
| Literals.ScanFields | src/expr.c:1379-1401 | the year, month and day fields: the only failure is E_BAD_DATE, and a success consumes input |
| Literals.LiteralDate | src/expr.c:1374-1413 | the only failures are E_BAD_DATE and E_BAD_TIME; a success consumes input, and an optional time after the date lies within the day |
| Literals.MakeLiteral | src/expr.c:515-613 | a string literal is its text without the quotes; a token starting with a digit is E_2HIGH when its digit run exceeds INT_MAX, whatever follows; E_BAD_NUMBER when the run is followed by anything but a time separator or the end; otherwise, at the end, the integer the run spells; a numeric literal is always an integer in [0, INT_MAX] or a time within the day |
| Literals.IntegerLiteral | src/expr.c:545-596 | a digit-only token is the integer it spells, or E_2HIGH above INT_MAX |
| Literals.ParseLiteralTime | src/expr.c:1324-1364 | the accumulator loops compute exactly `LiteralTime` |
| Literals.ScanMinutes | src/expr.c:1336-1363 | the minute loop and the range checks compute exactly `Minutes` |
| Literals.ReadFields | src/expr.c:1379-1401 | the year, month and day loops compute exactly `ScanFields` |
| Literals.ParseLiteralDate | src/expr.c:1374-1413 | the date parser computes exactly `LiteralDate` |
| Literals.MakeValue | src/expr.c:515-613 | computes exactly `MakeLiteral`; a system variable marks the expression non-constant |
| Coerce.Render | src/expr.c:659-679 | a string form exists exactly for integers, times, dates and date-times |
| Coerce.StrToInt | src/expr.c:692-710 | a success is an integer within 32 bits; the only failure is E_CANT_COERCE |
| Coerce.StrToDate | src/expr.c:647-654 | a string read as a whole date with an optional time; the only failure is E_CANT_COERCE |
| Coerce.ToStr | src/expr.c:659-686 | conversion to a string yields a string, or E_CANT_COERCE |
| Coerce.ToDateTime | src/expr.c:638-658 | conversion to a date-time yields a date-time, or E_CANT_COERCE |
| Coerce.ToInt | src/expr.c:688-719 | conversion to an integer yields an integer, or E_CANT_COERCE |
| Coerce.ToDate | src/expr.c:721-744 | conversion to a date yields a date; E_2LOW only for a negative integer; otherwise E_CANT_COERCE |
| Coerce.ToTime | src/expr.c:746-765 | conversion to a time yields a time within the day, or E_CANT_COERCE |
| Coerce.Coerce | src/expr.c:627-768 | the same kind is a no-op; a success has the target kind; a failure is E_CANT_COERCE or E_2LOW |
| Coerce.StringToInt | src/expr.c:692-710 | the sign and digit loop computes exactly `StrToInt`, and turns a rejected string into an error value |
| Coerce.StringToDate | src/expr.c:647-650 | reads a whole date exactly as `StrToDate` |
| Coerce.DoCoerce | src/expr.c:627-768 | the in-place conversion succeeds exactly when `Coerce` does, with its value; a failure has `Coerce`'s error |
| Coerce.IntStringRoundTrip | src/expr.c:661 | an integer converted to a string converts back to itself |
| Coerce.ReadsBack | src/expr.c:692-710 | `%d` of an integer in range is read back as that integer |
| Coerce.ClockReads | src/expr.c:746-762 | the clock text of a time within the day reads back as that time |
| Coerce.TimeStringRoundTrip | src/expr.c:662-663 | a time converted to a string converts back to itself |
| Coerce.DateReads | src/expr.c:729-736 | the text of a date reads back as that date, given the calendar round trip |
| Coerce.DateStringRoundTrip | src/expr.c:665-668 | a date converted to a string converts back to itself |
| Coerce.DateTimeScan | src/expr.c:647-654 | the text of a date and a clock reads back as that day and minute |
| Coerce.DateTimeReads | src/expr.c:647-655 | the text of a date-time reads back as that date-time |
| Coerce.DateTimeStringRoundTrip | src/expr.c:669-677 | a date-time converted to a string converts back to itself |
| Coerce.DateDateTimeRoundTrip | src/expr.c:643-646 | Date→DateTime multiplies by 1440, and DateTime→Date divides it back |
| Coerce.IntDateRoundTrip | src/expr.c:723-727 | Int→Date keeps a non-negative value and gives E_2LOW for a negative one; Date→Int gives it back |
| Coerce.TimeReduction | src/expr.c:748-753 | Int or DateTime→Time always succeeds, within [0,1439] and congruent modulo 1440 |
| Coerce.StrToIntAccepts | src/expr.c:692-706 | String→Int accepts exactly an optional `-` followed by digits only |
| Ops.Add | src/expr.c:777-868 | integer sums are exact and succeed exactly when they fit, else E_2HIGH; Date±Int and date-time sums succeed exactly when the exact sum fits and is not negative, are exact and of the date (date-time) kind, and otherwise are E_DATE_OVER; time sums succeed exactly when the sum fits, fall within the day, and otherwise are E_DATE_OVER; concatenation respects MaxStringLen; every result fits |
| Ops.Subtract | src/expr.c:877-937 | integer differences succeed exactly when they fit, else E_2HIGH; Date−Int and DateTime−Int/Time succeed exactly when the exact difference fits and is not negative, keep the left kind, and otherwise are E_DATE_OVER; Time−Int always succeeds within the day; the difference of two times, dates or date-times is an integer, E_DATE_OVER exactly when it does not fit; every result fits |
| Ops.Multiply | src/expr.c:946-970 | integers only, with a result that fits, or E_2HIGH or E_BAD_TYPE |
| Ops.Divide | src/expr.c:979-1002 | truncating integer division: the remainder is below the divisor and has the sign of the dividend; E_DIV_ZERO, E_2HIGH, E_BAD_TYPE |
| Ops.Mod | src/expr.c:1011-1030 | C's remainder: below the divisor in magnitude, with the sign of the dividend; E_DIV_ZERO, E_BAD_TYPE |
| Ops.QuotientFits | src/expr.c:992-994 | outside INT_MIN / -1 a quotient of 32-bit integers fits |
| Ops.Compare | src/expr.c:1054-1103 | a comparison is 0 or 1; with different kinds `==` is 0, `!=` is 1 and an ordering is E_BAD_TYPE (both directions); two non-strings of one kind compare their numbers, `a < b` being 1 exactly when `a.val < b.val`, and likewise for the other five |
| Ops.LogAnd | src/expr.c:1142-1162 | equal non-string kinds only; the result is the left operand when it is false and the right one when it is true, and truthy exactly when both are |
| Ops.LogOr | src/expr.c:1112-1133 | equal non-string kinds only; the result is one of the operands, the left one when it is true, and truthy exactly when either is |
| Ops.UnMinus | src/expr.c:1171-1178 | negation of an integer; E_2HIGH exactly for INT_MIN, E_BAD_TYPE for other kinds |
| Ops.LogNot | src/expr.c:1187-1193 | integers only: 1 exactly for 0, and 0 for every other value |
| Ops.IntArithmeticExact | src/expr.c:791-799 | integer `+`, `-` and `*` give the exact result when it fits, and E_2HIGH otherwise |
| Ops.DivModExact | src/expr.c:990-1026 | division or remainder by zero is E_DIV_ZERO; INT_MIN / -1 is E_2HIGH; otherwise both succeed |
| Ops.ArithmeticSound | src/expr.c:777-1030 | the arithmetic operators keep every number within 32 bits |
| Ops.LogicSound | src/expr.c:1054-1193 | so do the comparisons, the logical operators and the unary operators |
| Ops.AddCommutes | src/expr.c:791-835 | addition of numbers, dates and times is commutative |
| Ops.AddBadType | src/expr.c:802-867 | `+` is E_BAD_TYPE exactly for the kind pairs it does not list, when neither operand is a string |
| Ops.SubtractBadType | src/expr.c:887-937 | `-` is E_BAD_TYPE exactly for the kind pairs outside its table, strings among them |
| Ops.AddStringsNotBadType | src/expr.c:838-863 | a string operand never makes `+` E_BAD_TYPE |
| Ops.AddStrings | src/expr.c:838-863 | two strings concatenate, or give E_STRING_TOO_LONG past MaxStringLen |
| Ops.AddStringInt | src/expr.c:838-847 | a string plus an integer concatenates the integer's `%d` text |
| Ops.SubtractUndoesAdd | src/expr.c:802-920 | subtracting the integer just added gives back the date, date-time or time |
| Ops.DifferenceAddsBack | src/expr.c:802-931 | adding the difference of two dates, or of two date-times, to the second gives the first |
| Ops.TimeDifferenceAddsBack | src/expr.c:825-931 | the same for two times within the day |
| Ops.CompareComplements | src/expr.c:1081-1097 | for equal kinds, `!=`, `>=` and `<=` are the negations of `==`, `<` and `>` |
| Ops.EqualityTotal | src/expr.c:1068-1077 | `==` and `!=` succeed for every pair and are each other's negation |
| Ops.CompareSwap | src/expr.c:1081-1097 | `a < b` is `b > a`, `a <= b` is `b >= a`, and `==` is symmetric |
| Ops.EqualMeansSame | src/expr.c:1068-1092 | `==` gives 1 exactly for equal values |
| Ops.CompareStrings | src/expr.c:1081-1088 | two strings compare lexicographically: `<` is 1 exactly when the first is a proper prefix of the second or has the smaller character where they first differ; `>`, `<=` and `>=` follow by swapping and negating; `==` is 1 exactly for equal strings |
| Ops.LessTransitive | src/expr.c:1085-1094 | `<` is transitive |
| Ops.LogicPassesValues | src/expr.c:1128-1161 | `0&&5` is 0, `3&&5` is 5, `0||7` is 7, `4||7` is 4 |
| Ops.UnMinusTwice | src/expr.c:1171-1178 | negating twice gives the integer back |
| Ops.LogNotTwice | src/expr.c:1187-1193 | `!!x` is 1 exactly when x is non-zero |
| EvalSpec.Apply | src/expr.c:472 | `(op.func)()`: a unary operator rewrites the top value; a binary one replaces the top two values with one; nothing else changes |
| EvalSpec.ApplyTop | src/expr.c:467-472 | under the stack shape, the top operator always finds its operands and applying it keeps the shape |
| EvalSpec.Drain | src/expr.c:467-478 | applying every operator above the base leaves no operator and exactly one value there, with the base untouched |
| EvalSpec.DrainStep | src/expr.c:467-478 | one step of the drain loop: a failing operator is the loop's error; otherwise the loop goes on from the new stacks |
| EvalSpec.Reduce | src/expr.c:490-503 | applies waiting operators until none above the base has at least the new precedence, keeping the stack shape |
| EvalSpec.ReduceStep | src/expr.c:492-502 | one step of the reduce loop, as for the drain loop |
| EvalSpec.ReduceDone | src/expr.c:492 | with no binding operator on top, the reduce loop changes nothing |
| EvalSpec.Invoke | src/expr.c:398-435 | a call replaces its arguments with one result, keeps everything below them, and a non-constant built-in marks the expression non-constant |
| EvalSpec.Evaluate | src/expr.c:351-506 | with the bases at the entry stack tops, a success leaves one value above the base, no operator, and the stacks below the base as they were; it ends on a terminator and the cursor has advanced |
| EvalSpec.ValuePhase | src/expr.c:366-372 | the value-expecting phase: a success leaves one value above the base, no operator, and the stacks below the base as they were; an empty token (the end of the input) is E_EOLN |
| EvalSpec.Operand | src/expr.c:374-455 | a `(`, a unary `+` (skipped), a function call, or a unary operator or literal: a success leaves one value above the base, no operator, and the stacks below the base as they were |
| EvalSpec.Prefix | src/expr.c:436-455 | a unary operator from `UnOp`, or a literal: a success leaves one value above the base, no operator, and the stacks below the base as they were |
| EvalSpec.Paren | src/expr.c:374-383 | a nested expression: a success leaves one value above the base, no operator, and the stacks below the base as they were; a nested expression not ended by `)` is E_MISS_RIGHT_PAREN |
| EvalSpec.PushUnary | src/expr.c:437-441 | a unary operator waits on the operator stack: a success leaves one value above the base, no operator, and the stacks below the base as they were; a full operator stack is E_OP_STK_OVER |
| EvalSpec.Literal | src/expr.c:442-455 | a first character that cannot start a value is E_ILLEGAL_CHAR; a `MakeValue` error is passed on; a success leaves one value above the base, no operator, and the stacks below the base as they were |
| EvalSpec.PushValue | src/expr.c:454 | a full value stack is E_VA_STK_OVER; a success leaves one value above the base, no operator, and the stacks below the base as they were |
| EvalSpec.Call | src/expr.c:387-398 | a call, with the name looked up among the built-ins in lower case: a success leaves one value above the base, no operator, and the stacks below the base as they were |
| EvalSpec.NoArgs | src/expr.c:398-408 | a call without arguments, then the `)`: a success leaves one value above the base, no operator, and the stacks below the base as they were |
| EvalSpec.Args | src/expr.c:409-425 | the argument loop: a success leaves one value above the base, no operator, and the stacks below the base as they were |
| EvalSpec.ArgsNeedComma | src/expr.c:416-424 | an argument ended by anything but `,` or `)` is E_EXPECT_COMMA |
| EvalSpec.Invoked | src/expr.c:426-434 | the call after its last argument: a success leaves one value above the base, no operator, and the stacks below the base as they were |
| EvalSpec.OperatorPhase | src/expr.c:459-464 | the operator-expecting phase: a success leaves one value above the base, no operator, and the stacks below the base as they were |
| EvalSpec.Infix | src/expr.c:486-488 | a token that is not in `BinOp` is E_EXPECTING_BINOP; a success leaves one value above the base, no operator, and the stacks below the base as they were |
| EvalSpec.End | src/expr.c:465-483 | the end leaves exactly one value above the base; E_STACK_ERR arises only when an operator reports it |
| EvalSpec.Binary | src/expr.c:486-504 | a full operator stack after the reduction is E_OP_STK_OVER; a success leaves one value above the base, no operator, and the stacks below the base as they were |
| EvalSpec.EvalExpr | src/expr.c:324-348 | a success leaves the cursor no earlier than it was, on `,`, `]` or `)`, or at the end of the input |
| EvalSpec.Chain | src/expr.c:365-505 | stacks kept below the base by each step are kept by the whole evaluation |
| EvalSpec.Nested | src/expr.c:376 | a nested `Evaluate` adds exactly one value and leaves the operators as they were |
| EvalSpec.Replaced | src/expr.c:428-434 | replacing the arguments with the result restores the shape |
| EvalSpec.UnOpsUnary | src/expr.c:79-82 | the `UnOp` entries are unary |
| EvalSpec.BinOpsBinary | src/expr.c:61-75 | the `BinOp` entries are binary |
| Evaluator.Machine.Init | src/expr.c:87-92 | empty stacks of the given sizes and an empty token buffer |
| Evaluator.Machine.PushOpStack | src/expr.h:33-37 | E_OP_STK_OVER with nothing changed on a full stack; otherwise the operator goes on top |
| Evaluator.Machine.PopOpStack | src/expr.h:39-43 | E_OP_STK_UNDER on an empty stack; otherwise the former top comes off |
| Evaluator.Machine.PushValStack | src/expr.h:45-49 | E_VA_STK_OVER with nothing changed on a full stack; otherwise the value goes on top |
| Evaluator.Machine.PopValStack | src/expr.c:1424-1432 | E_VA_STK_UNDER on an empty stack; otherwise the former top comes off |
| Evaluator.Machine.OpRoundTrip | src/expr.h:33-43 | a push and then a pop return the pushed operator and leave both stacks as they were |
| Evaluator.Machine.ValRoundTrip | src/expr.h:45-55 | the same for the value stack |
| Evaluator.Machine.ApplyOp | src/expr.c:472 | applies an operator to the stack array exactly as `Apply` specifies |
| Evaluator.Machine.DrainStack | src/expr.c:467-478 | the drain loop computes exactly `Drain` |
| Evaluator.Machine.ReduceStack | src/expr.c:492-503 | the reduce loop computes exactly `Reduce` |
| Evaluator.Machine.Invoke | src/expr.c:398-435 | calling the function on the array computes exactly `EvalSpec.Invoke` |
| Evaluator.Machine.CleanStack | src/expr.c:132-139 | both stack pointers return to the entry marks, and everything above them is discarded |
| Evaluator.Machine.TakeResult | src/expr.c:342-345 | restores both pointers and hands over the value at the entry mark |
| Evaluator.Machine.OperandStep | src/expr.c:374-455 | the token read where a value is expected agrees with `Operand` |
| Evaluator.Machine.PrefixStep | src/expr.c:436-455 | a unary operator or a literal agrees with `Prefix` |
| Evaluator.Machine.UnaryStep | src/expr.c:437-441 | pushing a unary operator agrees with `PushUnary`, the value stack untouched |
| Evaluator.Machine.LiteralStep | src/expr.c:442-455 | a literal agrees with `Literal`, the operator stack untouched |
| Evaluator.Machine.PushStep | src/expr.c:454 | pushing a value agrees with `EvalSpec.PushValue` |
| Evaluator.Machine.NoArgsCall | src/expr.c:398-408 | a call without arguments agrees with `NoArgs` |
| Evaluator.Machine.Argument | src/expr.c:411-424 | one argument adds exactly one value; after the last one the call agrees with `Args` |
| Evaluator.Machine.InvokeCall | src/expr.c:426-435 | the call after its last argument agrees with `Invoked` |
| Evaluator.Machine.InfixStep | src/expr.c:486-504 | a token in operator position agrees with `Infix` |
| Evaluator.Machine.DrainOnce | src/expr.c:467-478 | one turn of the drain loop: fewer operators, the shape kept, the rest of `Drain` unchanged; a failure is `Drain`'s error |
| Evaluator.Machine.TopBinds | src/expr.c:492 | the reduce loop's test is exactly `Binds` |
| Evaluator.Machine.ReduceOnce | src/expr.c:492-502 | one turn of the reduce loop, as for the drain loop |
| Evaluator.Machine.ReplaceArgs | src/expr.c:428-434 | the arguments on the value stack are replaced by the one result |
| Evaluator.Machine.ValueStep | src/expr.c:366-456 | one turn of the value-expecting phase agrees with `ValuePhase` |
| Evaluator.Machine.Parenthesised | src/expr.c:374-383 | the nested evaluation of a parenthesised expression agrees with `Paren` |
| Evaluator.Machine.CallFunction | src/expr.c:387-435 | a function call agrees with `Call` |
| Evaluator.Machine.ArgsCall | src/expr.c:409-435 | the argument loop agrees with `Args` |
| Evaluator.Machine.OperatorStep | src/expr.c:459-504 | one turn of the operator-expecting phase agrees with `OperatorPhase` |
| Evaluator.Machine.EndStep | src/expr.c:465-483 | the end of the expression computes exactly `End` |
| Evaluator.Machine.BinaryStep | src/expr.c:486-504 | a binary operator computes exactly `Binary` |
| Evaluator.Machine.Evaluate | src/expr.c:351-506 | the loop agrees with `EvalSpec.Evaluate` except for E_NO_MEM, and keeps everything below the entry tops |
| Evaluator.Machine.EvalExpr | src/expr.c:324-348 | both stack pointers and everything below them are restored; the buffer is freed; the value and cursor agree with `EvalSpec.EvalExpr` under the table's operators |
| Evaluator.Machine.EvalWith | src/expr.c:324-348 | the same for any operator functions |
| Precedence.TableOperators | src/expr.c:65-66 | `-`, `+` and `*` are found in `BinOp` as the table's entries for them |
| Precedence.SamePrecedenceGroupsLeft | src/expr.c:490-503 | for any stacks and operator functions, a waiting operator of the incoming one's precedence is applied before the incoming one is pushed (left associativity), and a failure of it is the loop's error |
| Precedence.LowerPrecedenceWaits | src/expr.c:492 | for any stacks, a waiting operator of lower precedence than the incoming one stays where it is |
| Precedence.SubtractionGroupsLeft | src/expr.c:490-503 | a pending `-` is applied before the next `-`: `8-3` becomes 5 first |
| Precedence.SubtractionEnds | src/expr.c:465-478 | at the end `5-2` gives 3, so `8-3-2` is 3 |
| Precedence.ProductBindsTighter | src/expr.c:492 | a pending `+` is not applied before `*` |
| Precedence.ProductEnds | src/expr.c:465-478 | at the end `2+3*4` gives 14 |
| Findings.GuardedRun | src/expr.c:548-556 | the digit loop as written, with its `len < prev_val` guard on a wrapping accumulator |
| Findings.WrappedRun | src/expr.c:562-566 | the unchecked minute loop as written |
| Findings.GuardedRunExact | src/expr.c:548-556 | within range, the guarded loop computes the exact value |
| Findings.WrappedRunExact | src/expr.c:562-566 | within range, the unchecked loop computes the exact value |
| Findings.NumberAsWritten | src/expr.c:545-596 | the number branch of `MakeValue` as written |
| Findings.MinutesAsWritten | src/expr.c:557-590 | the time branch of `MakeValue` as written |
| Findings.IntegerOverflowAccepted | src/expr.c:548-555 | `4772185890` is accepted as 477218594, where the exact check gives E_2HIGH |
| Findings.MinutesWrapAccepted | src/expr.c:562-575 | `0:4294967291` is accepted as the time -5, where the exact check gives E_BAD_TIME |
| Findings.ModAsWritten | src/expr.c:1022-1026 | the remainder as written is undefined exactly for INT_MIN % -1 |
| Findings.ModMinByMinusOne | src/expr.c:1022-1026 | INT_MIN % -1 is undefined as written and 0 in the corrected `Mod`; elsewhere they agree |
| Findings.TimeMinusIntAsWritten | src/expr.c:916-920 | Time − Int as written: the wrapped difference reduced into the day |
| Findings.TimeMinusIntAgrees | src/expr.c:916-920 | without overflow, the code as written and `Ops.Subtract` agree |
| Findings.TimeMinusIntMin | src/expr.c:916-920 | `00:00 - INT_MIN` gives 21:52 as written and 02:08 exactly |

## Left out

- Strings are values, so the model has no `malloc` or `free`. A string allocation (`MakeValue`, `StrDup` in `DoCoerce`, `Add` and `Evaluate` for a user function's name) never fails, and `DestroyValue` in `CleanStack` becomes discarding the values above the mark. `CopyValue` (src/expr.c:1311-1322) is value assignment, and copying is not modelled separately.
- E_NO_MEM is modelled only in the token buffer. There, a buffer larger than the buffer's `mallocLimit` fails. The evaluator's contracts say nothing about runs that hit E_NO_MEM, which `EvalSpec` does not model (`Evaluator.Agrees`).
- Evaluator.Machine.Evaluate: after a failure, the contracts do not state where the cursor stands or what the token buffer holds.
- The `nonconst_expr` flag is modelled on every success path. `p == NULL` is not modelled; the flag is always tracked. The flag's value after a failure is not stated.
- `CallFunc`, `CallUserFunc`, `GetVarValue` and `GetSysVar` are parameters (`Values.Env`). A call is taken to replace its arguments on the value stack with one result, and nothing else it might do to the stacks or the flag is modelled.
- `Julian`, `FromJulian` and `DateOK` are parameters (`Values.Calendar`). The date round trips assume `FromJulian` inverts `Julian`.
- `isempty`, `TimeSep`, `DateSep`, `DateTimeSep`, `MaxStringLen`, OP_STACK_SIZE and VAL_STACK_SIZE are parameters. MINUTES_PER_DAY is the constant 1440.
- `DebugPerform`, `PrintValue`, the `Eprint` calls and the DB_PRTEXPR branches are output only, and are not modelled.
- `DBufGets` reads a file and is not modelled.
- DynBuf.DynamicBuffer.Putc: requires a non-NUL character. The tokenizer only appends characters read before the terminator, and a NUL would end the C string anyway.
- DynBuf.DynamicBuffer.MakeRoom: the `size *= 2` doubling is unbounded; a 32-bit overflow of the size is not modelled.
- Literals.MakeLiteral: the integer check is the exact one (`n > INT_MAX`, E_2HIGH), not the guard as written; see Findings.
- Literals.Minutes: the minutes are exact and checked against 59; the wrapping accumulator as written is in `Findings.MinutesAsWritten`.
- Literals.LiteralTime: the hour accumulator, and the year, month and day accumulators of `ScanFields`, are exact. In C they wrap past INT_MAX like the minute loop, which can make a huge hour pass the `h > 23` check.
- Literals.MakeLiteral: `h * MINUTES_PER_DAY + m` of a date-time literal is exact. In C it overflows for days past about 1.49 million; `Coerce.ToDateTime` has the same product.
- Values.Value: an error value carries no number. C's `Compare` and the truth test of `&&` and `||` read the `v.val` left in an ERR_TYPE value, which is unspecified; the model reads 0, so two error values compare equal and an error value is false.
- Ops.Mod: INT_MIN % -1 is 0, not the undefined behaviour of the code as written; see Findings.
- Ops.Subtract: Time − Int is the exact difference reduced into the day. The code as written lets the difference overflow; see Findings.
- The precedence and associativity examples are stated on the stacks right before and at the end of an expression (`Precedence`), not on the input strings.
- Locale-dependent `isdigit`, `isalnum` and `tolower` are their ASCII meanings.
- Evaluator.Machine.EvalWith, Evaluator.Machine.EvalExpr: `EvalExpr`'s `(*e)--` moves the cursor back onto the terminating character. That is the position `EvalSpec.EvalExpr` returns; the modelled cursor is an index, not a pointer.

## Findings

| source | as written | input that shows it | evidently intended | confidence | as-written member | corrected member |
|---|---|---|---|---|---|---|
| src/expr.c:548-555 | the integer literal is accumulated in an `int` and overflow is detected only when the new value is below the previous one | `4772185890`: 477218589 × 10 + 0 wraps to 477218594, which is not below 477218589, so the literal is accepted as 477218594 | every digit run above INT_MAX is E_2HIGH | not executed | Findings.IntegerOverflowAccepted | Literals.MakeLiteral |
| src/expr.c:562-575 | the minutes of a time literal are accumulated in an `int` with no overflow check before the `m > 59` test | `0:4294967291`: the minutes wrap to -5, pass `m > 59`, and the literal is the time -5, outside [0,1439] | minutes above 59 are E_BAD_TIME | not executed | Findings.MinutesWrapAccepted | Literals.Minutes |
| src/expr.c:1022-1026 | `%` checks only for a zero divisor, unlike `/`, which guards INT_MIN / -1 | INT_MIN % -1 is undefined behaviour in C (it traps on common hardware) | the remainder 0 | not executed | Findings.ModMinByMinusOne | Ops.Mod |
| src/expr.c:916-920 | Time − Int subtracts without the overflow check every other branch of `Subtract` has | `00:00 - (-2147483647 - 1)`: the difference wraps to INT_MIN and is reduced to 1312 (21:52) | the difference modulo a day, 128 (02:08) | not executed | Findings.TimeMinusIntMin | Ops.Subtract |
