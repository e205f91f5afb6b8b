/** Error codes returned by the expression evaluator (the E_* codes of the
    original program), and the result shapes used throughout the model. */
module Errors {

  datatype Error =
    | NoMem            // E_NO_MEM
    | TooHigh          // E_2HIGH
    | TooLow           // E_2LOW
    | DivZero          // E_DIV_ZERO
    | BadType          // E_BAD_TYPE
    | CantCoerce       // E_CANT_COERCE
    | DateOver         // E_DATE_OVER
    | StringTooLong    // E_STRING_TOO_LONG
    | BadNumber        // E_BAD_NUMBER
    | BadTime          // E_BAD_TIME
    | BadDate          // E_BAD_DATE
    | MissQuote        // E_MISS_QUOTE
    | IllegalChar      // E_ILLEGAL_CHAR
    | Eoln             // E_EOLN
    | MissRightParen   // E_MISS_RIGHT_PAREN
    | ExpectComma      // E_EXPECT_COMMA
    | ExpectingBinop   // E_EXPECTING_BINOP
    | StackErr         // E_STACK_ERR
    | OpStackOver      // E_OP_STK_OVER
    | OpStackUnder     // E_OP_STK_UNDER
    | ValStackOver     // E_VA_STK_OVER
    | ValStackUnder    // E_VA_STK_UNDER
    | Foreign(code: nat) // an error reported by a collaborator outside this core

  /** The outcome of an operation that yields a value or fails. */
  datatype Result<+T> = Ok(value: T) | Err(error: Error)

  /** The outcome of an operation that only succeeds (OK) or fails. */
  datatype Outcome = Pass | Fail(error: Error)

  datatype Option<+T> = None | Some(value: T)
}
