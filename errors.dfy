/** The errors the ledger throws, as the error middleware sees them. */
module Errors {

  /** Why an error carrying an HTTP status was thrown. */
  datatype Cause =
    | ValueUndefined      // a required value is `undefined`
    | WrongType           // `typeof` differs from the expected type
    | CheckFailed         // the caller's custom check returned false
    | NotNumeric          // `budget`/`spent` (or an id or value) reads as NaN
    | SpentOverBudget     // spent would exceed the budget
    | NotFound            // no row (or no array slot) matches
    | NoFieldsToUpdate    // an update body supplied nothing
    | KindsDiffer         // transfer endpoints are not both numbers or both names
    | NotEnoughToMove     // in-memory transfer beyond the available amount

  /** An exception raised inside PostgreSQL by a trigger procedure or a constraint. */
  datatype Raise =
    | NotEnoughBudget         // make_transfer_func / make_transaction_func
    | SpentNegative           // before_update_envelope_func
    | SpentExceedsBudget      // before_update_envelope_func
    | BudgetBelowSpent        // before_update_envelope_func
    | NotEnoughBudgetOnUpdate // on_transaction_update
    | AmountNotPositive       // CHECK (amount > 0)
    | NotNullViolation        // NOT NULL column given NULL
    | ValueTooLong            // VARCHAR(255) exceeded
    | InvalidInput            // a parameter PostgreSQL cannot read as the column's type
    | IntegerOutOfRange       // an INTEGER parameter outside the 32-bit range
    | SequenceExhausted       // a SERIAL sequence past the largest INTEGER
    | SyntaxError             // an UPDATE whose SET list is empty

  datatype Error =
    | Status(code: int, cause: Cause)  // an Error with a `status` property
    | Plain(cause: Cause)              // an Error without a status
    | Database(raise: Raise)           // an exception from the database
}
