# envelope-budgeting ledger, modelled in Dafny

This project models the ledger engine of envelope-budgeting, a budgeting
service that keeps money in named envelopes. Each envelope has a budget and
an amount already spent. Money moves in two ways:

- a **transfer** moves budget from one envelope to another;
- a **transaction** spends from one envelope.

The service has two back ends, and both are modelled.

**The PostgreSQL back end** (`back-end/src/queries.ts` and `back-end/src/initDB.ts`):

- The three tables are maps with SERIAL counters, held in `Ledger.Database`.
- The five PL/pgSQL trigger procedures are pure functions in `Triggers`.
- Each query is one atomic method. It first runs the TypeScript checks of
  `Validation` on the request values. Then its SQL statement runs, with
  every trigger that statement fires. A `RAISE` or a failed constraint
  leaves all three tables as they were.

**The in-memory back end:**

- `EnvelopeArrays` holds the array helpers of `back-end/src/util.ts`.
- `MemoryServer.Server` is the Express server of `src/index.ts`. Its
  module-level array `allEnvelopes` becomes the field the route handlers
  replace.

**Inputs.** JavaScript inputs are `JsValues.JsValue`. This covers
`undefined`, `null`, a number, `NaN`, a string, and an array. A string
carries what `Number()` reads from it; strings are not parsed. Numbers and
`NUMERIC` columns are integers. `INTEGER` columns, ids and SERIAL sequences
are 32-bit: a parameter outside that range or an exhausted sequence fails
the statement.

**Files:**

| file | contents |
|---|---|
| `wrappers.dfy` | `Option` and `Result` |
| `js_values.dfy` | `typeof`, truthiness, `Number()`, `isNaN`, `===` |
| `errors.dfy` | the errors thrown and raised |
| `validation.dfy` | `check` and `parseEnvelope` |
| `schema.dfy` | table rows and sums over them |
| `triggers.dfy` | trigger procedures and trigger installation |
| `ledger.dfy` | the database and its queries |
| `envelope_arrays.dfy` | `util.ts` |
| `memory_server.dfy` | `src/index.ts` |

**Behaviour of the code as written, which the model keeps:**

- `createEnvelope` does not reject a negative budget or spend. It rejects only
  these cases:
  - `spent > budget`;
  - a missing or non-numeric value;
  - a name the `name` column refuses. A missing name reaches the `NOT NULL`
    column, because the error built at `queries.ts:117-120` is never thrown.
- `createNewTransfer` with a missing envelope inserts nothing. It resolves
  with no row, instead of failing "not found".
- `deleteAllTransactions` fails with 404 when the envelope has no transactions.
- `updateTransaction` with no usable field sends `SET` with an empty list.
  PostgreSQL rejects that SQL as a syntax error.
- `on_transaction_update` does not adjust the spend by the change in amount. Instead:
  - it sets the envelope's spend to the new amount;
  - when the transaction moves to another envelope, it subtracts the new
    amount from the old envelope;
  - it checks only that the new amount fits the budget.
- As installed, the delete trigger is never attached (see Findings). So
  deleting a transaction refunds nothing unless the trigger already existed.

## Model

| member | source | states |
|---|---|---|
| JsValues.TypeOf | back-end/src/queries.ts:60-72 | `typeof` is "number" exactly for numbers and NaN, "string" exactly for strings, "undefined" exactly for undefined |
| JsValues.ToNumber | back-end/src/queries.ts:37-39 | `Number()` always gives a number and leaves a number unchanged |
| Validation.Check | back-end/src/queries.ts:41-92 | a passing value is returned unchanged; an array passes iff every element passes; any other value passes iff it is defined, has the expected type and the custom check does not fail; the error carries `status || 400` |
| Validation.CheckFrom | back-end/src/queries.ts:43-50 | the `forEach` over elements `k..` passes iff each of them passes, with the same error guarantees as `check` |
| Validation.CheckIsFirstLeafError | back-end/src/queries.ts:41-92 | on nested arrays `check` throws the error of the first failing non-array value in depth-first order |
| Validation.CheckFromIsFirstLeafError | back-end/src/queries.ts:43-50 | the same for the suffix of an array from element `k` |
| Validation.FirstLeafErrorAppend | back-end/src/queries.ts:43-50 | the first failure of a concatenation is the first failure of the left part, else of the right |
| Validation.CheckPair | back-end/src/queries.ts:43-50 | `check([a, b])` throws `a`'s error if `a` fails, otherwise `b`'s |
| Validation.Leaves | back-end/src/queries.ts:43-50 | flattening an array value yields only non-array values |
| Validation.ParseEnvelope | back-end/src/queries.ts:19-35 | succeeds iff `budget` and `spent` are defined and not NaN; then they are replaced by their numeric readings and every other property is kept; otherwise a 400 |
| Schema.SumRemove | back-end/src/initDB.ts:5-13 | a sum over a table may take any row first |
| Schema.SumUpdate | back-end/src/initDB.ts:5-13 | replacing a row changes the sum by the difference |
| Schema.SumInsert | back-end/src/initDB.ts:5-13 | a new row adds its value to the sum |
| Schema.SumNonNegative | back-end/src/initDB.ts:27-34 | a sum of non-negative amounts is non-negative |
| Triggers.BeforeUpdateEnvelope | back-end/src/initDB.ts:74-93 | a row update is accepted iff `0 <= spent <= budget` and the new budget is not below the old spend; a negative spend raises the first error |
| Triggers.UpdateRow | back-end/src/initDB.ts:96-109 | an UPDATE of one envelope writes the row iff the BEFORE UPDATE trigger accepts it, and raises that trigger's error otherwise; a missing row changes nothing |
| Triggers.UpdateRowKeepsWithinBudget | back-end/src/initDB.ts:79-88 | an accepted update keeps every envelope's spend within its budget |
| Triggers.MakeTransfer | back-end/src/initDB.ts:37-57 | accepted only if the source exists and has `amount` available; the source loses and the target gains `amount` of budget; spends, names, dates and every other envelope are unchanged; a transfer to itself changes nothing |
| Triggers.TransferAcceptedIffAvailable | back-end/src/initDB.ts:42-52 | in a consistent store, a transfer between existing envelopes is accepted iff the source's available amount covers it (the budget check on the rows it writes never fires) |
| Triggers.TransferConservesTotalBudget | back-end/src/initDB.ts:42-48 | an accepted transfer between existing envelopes keeps the total budget |
| Triggers.TransferKeepsWithinBudget | back-end/src/initDB.ts:42-48 | an accepted transfer keeps every spend within its budget |
| Triggers.MakeTransaction | back-end/src/initDB.ts:112-141 | accepted only if the envelope's budget covers its spend plus the amount; then exactly that envelope's spend grows by the amount |
| Triggers.TransactionAcceptedIffCovered | back-end/src/initDB.ts:126-137 | for an existing envelope, a transaction is accepted iff `spent + amount <= budget` |
| Triggers.OnTransactionDelete | back-end/src/initDB.ts:158-169 | deleting a transaction gives its amount back to the envelope's spend; a refund below zero raises |
| Triggers.RefundFailsOnlyBelowZero | back-end/src/initDB.ts:162-164 | the refund of a positive amount fails iff it would take the spend below zero, and then raises the negative-spend error |
| Triggers.DeleteUndoesInsert | back-end/src/initDB.ts:112-169 | deleting a transaction just inserted restores the envelopes exactly |
| Triggers.OnTransactionUpdate | back-end/src/initDB.ts:186-224 | accepted only for an existing envelope whose budget covers the new amount; that envelope's spend becomes the new amount; a previous envelope loses the new amount from its spend; the row is stamped with today's date; budgets and other envelopes are unchanged |
| Triggers.UpdateAcceptedIff | back-end/src/initDB.ts:196-220 | in a consistent store, an update is accepted iff the new amount is in `0..budget` and the previous envelope's spend can lose the new amount |
| Triggers.UpdateKeepsWithinBudget | back-end/src/initDB.ts:209-216 | an accepted update keeps every spend within its budget |
| Triggers.UpdateIsNotDeleteThenInsert | back-end/src/initDB.ts:209-216 | for a transaction that stays in its envelope, an update from `a` to `b` leaves the spend at `b`, a refund followed by a new spend leaves `spent - a + b`, and the two agree iff the old spend was exactly `a` |
| Triggers.InstallNeverAttachesDeleteTrigger | back-end/src/initDB.ts:172-183 | as written, initialisation attaches the four other triggers, and attaches the delete trigger iff it was already there |
| Triggers.InstallFixedAttachesAll | back-end/src/initDB.ts:175 | with the guard testing `transaction_delete_trigger`, all five triggers are attached |
| Ledger.SqlText | back-end/src/queries.ts:128 | a bound value is NULL iff undefined or null; a string is sent as its text; an array as an array literal |
| Ledger.SqlInteger | back-end/src/initDB.ts:18-22 | an INTEGER parameter is accepted iff it is a number in the 32-bit range; NaN and arrays are invalid input, other numbers out of range |
| Ledger.FitVarchar | back-end/src/initDB.ts:8 | text up to 255 characters is stored as is; a longer text is truncated iff everything past 255 is spaces, and is otherwise rejected as too long |
| Ledger.Database.constructor | back-end/src/initDB.ts:3-239 | an empty, consistent ledger with the triggers the installation blocks attach; the delete trigger is attached iff it already existed; all three SERIAL counters start at 1 |
| Ledger.Database.Fixed | back-end/src/initDB.ts:172-183 | with the corrected guard, the ledger starts empty with the delete trigger attached and all three SERIAL counters at 1 |
| Ledger.Database.UpdateEnvelopeRow | back-end/src/initDB.ts:96-109 | the BEFORE UPDATE trigger applied to the envelopes table, changing nothing else |
| Ledger.Database.MakeTransferFunc | back-end/src/initDB.ts:60-70 | the transfer trigger applied to the envelopes table, changing nothing else |
| Ledger.Database.MakeTransactionFunc | back-end/src/initDB.ts:144-155 | the transaction trigger applied to the envelopes table, changing nothing else |
| Ledger.Database.OnTransactionDeleteFunc | back-end/src/initDB.ts:158-169 | the delete trigger applied to the envelopes table, changing nothing else |
| Ledger.Database.OnTransactionUpdateFunc | back-end/src/initDB.ts:186-239 | the update trigger applied to the envelopes table, returning the stamped row |
| Ledger.Database.GetEnvelopeById | back-end/src/queries.ts:100-112 | an id outside INTEGER fails to bind; otherwise the envelope's row iff the id exists, else 404 |
| Ledger.Database.CreateEnvelope | back-end/src/queries.ts:114-135 | parse errors pass through; `spent > budget` is a 400; otherwise the insert succeeds iff the sequence is not exhausted and the name is non-NULL and fits the column; the new id is the counter's value and fresh, the row holds the numeric budget and spend, the total budget grows by the new budget, the envelope counter advances by one while the other counters are kept, and a failure changes nothing |
| Ledger.Database.DeleteEnvelope | back-end/src/queries.ts:137-149 | a negative id is a 400, one past INTEGER a binding error, an absent id a 404; otherwise the row goes, with every transfer and transaction that references it, and without touching other spends or any id counter |
| Ledger.Database.EnvelopeArguments | back-end/src/queries.ts:151-178 | a given budget or spend must be a non-negative number (negative or NaN is a 400), budget first; with no field given the error is "No fields to update"; an array passing the check is invalid NUMERIC input; otherwise the SET list holds exactly the given fields, a null name as NULL |
| Ledger.Database.ProposedEnvelope | back-end/src/queries.ts:155-170 | the proposed row takes the given budget and the coerced name (too long is an error); a given spend is written iff it is below the OLD budget (or already equal to the spend), otherwise the spend is kept |
| Ledger.Database.UpdateEnvelope | back-end/src/queries.ts:151-194 | argument errors pass through; an id outside INTEGER fails to bind, an absent one is a 404; a name too long, a trigger error or a NULL name fails and changes nothing; otherwise the row becomes the proposed row, and if a given spend was not written (given >= old budget) the name and budget stay written and the result is the over-budget 400; success iff the arguments are valid, the row exists, the trigger and NOT NULL accept, and the given spend was written; a returned row has `0 <= spent <= budget` |
| Ledger.Database.TransferJoin | back-end/src/queries.ts:221-233 | a transfer joined with both envelopes' names, present iff both exist |
| Ledger.Database.GetTransferById | back-end/src/queries.ts:217-242 | a negative id is a 400, one past INTEGER a binding error; otherwise the joined transfer iff it exists, else 404 |
| Ledger.Database.DeleteTransfer | back-end/src/queries.ts:244-257 | a negative id is a 400, one past INTEGER a binding error, an absent one "not found"; otherwise that row goes and nothing else changes, neither a budget (none moves back) nor a counter |
| Ledger.Database.TransferArguments | back-end/src/queries.ts:259-273 | both ids must be non-negative (400); then `from`, `to` and `amount` are bound as INTEGER in that order: out of range or a NaN amount is a database error; success iff all three are in range |
| Ledger.Database.DefinedCheckPasses | back-end/src/queries.ts:260 | the definedness check of two numeric endpoints always passes |
| Ledger.Database.InsertTransfer | back-end/src/queries.ts:264-287 | the insert succeeds iff the sequence is not exhausted, the amount is positive and the transfer trigger accepts it; the envelopes become the trigger's result, the total budget is kept, and the new row is recorded under a fresh id with both names |
| Ledger.Database.CreateNewTransfer | back-end/src/queries.ts:259-290 | argument errors pass through; a missing envelope inserts nothing and gives no row; with both present, success iff the sequence is not exhausted, the amount is positive and the transfer trigger accepts it; a recorded transfer leaves the envelopes as the trigger computes, keeps the total budget, advances only the transfer counter and is returned with both names |
| Ledger.Database.RowsFor | back-end/src/queries.ts:340-344 | exactly the transactions of one envelope |
| Ledger.Database.GetAllTransactions | back-end/src/queries.ts:297-308 | fails as `getEnvelopeById` does (binding error or 404), exactly when the envelope is not found; otherwise every transaction of that envelope, with the envelope's name |
| Ledger.Database.GetTransactionById | back-end/src/queries.ts:310-326 | fails as `getEnvelopeById` does for the envelope; then an id past INTEGER fails to bind; the transaction with the envelope's name iff it exists and belongs to that envelope, otherwise 404 |
| Ledger.Database.DeleteTransactionById | back-end/src/queries.ts:328-338 | an id past INTEGER fails to bind and an absent id is a 404; otherwise the row goes and, when the delete trigger is attached, its amount is refunded, the delete failing iff that refund would go negative; no counter moves |
| Ledger.Database.RefundOne | back-end/src/initDB.ts:158-169 | one refund succeeds iff the spend covers the amount, and then lowers it by that amount |
| Ledger.Database.RefundRows | back-end/src/initDB.ts:158-183 | refunding a set of transactions of one envelope one row at a time, in any order, succeeds iff the spend covers their sum |
| Ledger.Database.DeleteAllTransactions | back-end/src/queries.ts:340-353 | fails as `getEnvelopeById` does, and with 404 when the envelope has no transactions; otherwise those rows go and, with the delete trigger attached, the spend drops by their sum, failing iff it would go negative; no counter moves |
| Ledger.Database.TransactionArguments | back-end/src/queries.ts:355-360 | `Number(for_id)` and `Number(amount)` must be non-negative and the name a non-empty string |
| Ledger.Database.CreateTransaction | back-end/src/queries.ts:355-371 | argument errors pass through, then the envelope lookup's errors; an amount past INTEGER or an exhausted sequence fails; otherwise the insert succeeds iff the amount is positive and fits the budget; then the row is recorded under a fresh id, only the transaction counter advances, and that envelope's spend grows by the amount |
| Ledger.Database.UpdateArguments | back-end/src/queries.ts:373-392 | a falsy name, amount or envelope id counts as omitted, so an amount of 0 keeps the amount; a wrong-typed or negative envelope id is a 400; with nothing given the SQL is malformed; a given envelope id or amount must be a number in INTEGER's range, the envelope id bound first |
| Ledger.Database.Assign | back-end/src/queries.ts:394-398 | each column given in the SET list takes its new value and every other column keeps its old one |
| Ledger.Database.UpdateTransaction | back-end/src/queries.ts:373-401 | argument errors pass through; an id past INTEGER fails to bind; no row gives nothing; otherwise the update succeeds iff the update trigger accepts the merged row, and then returns that row with today's date, the envelopes are as the trigger computes and the envelope's spend equals the new amount; no counter moves |
| EnvelopeArrays.EnvelopeArray.constructor | back-end/src/util.ts:15 | an array object holding the given envelopes |
| EnvelopeArrays.RefactorBody | back-end/src/util.ts:5-13 | exactly `id`, `name`, `budget` and `spent`; `id`, `budget` and `spent` are `Number()` readings and the name is kept |
| EnvelopeArrays.RefactorBodyIdempotent | back-end/src/util.ts:5-13 | refactoring a refactored body changes nothing |
| EnvelopeArrays.AddToNewEnvelope | back-end/src/util.ts:15-17 | `unshift`: the envelope comes first and the others follow, shifted by one |
| EnvelopeArrays.MoveBudget | back-end/src/util.ts:29-30 | the two slot writes keep the array's length |
| EnvelopeArrays.TotalBudgetUpdate | back-end/src/util.ts:29-30 | changing one slot's budget changes the total by the difference |
| EnvelopeArrays.MoveBudgetEffect | back-end/src/util.ts:29-30 | a move keeps the total budget and every spend; only the two slots change; the source loses the value and the target gains it; a move within one slot changes nothing |
| EnvelopeArrays.CompliteTransaction | back-end/src/util.ts:20-32 | accepted iff `budget - spent - value >= 0` for the source; then the budgets move in place, otherwise the array is untouched |
| EnvelopeArrays.LastMatch | back-end/src/util.ts:48-56 | the last index whose key `===` the target, and none iff no slot matches |
| EnvelopeArrays.GetTransferEnvelopesIndexes | back-end/src/util.ts:35-60 | searches by name iff `to` reads as NaN, and by `Number()` of both endpoints otherwise; each result is the last matching index, or none |
| EnvelopeArrays.DeleteEnvelope | back-end/src/util.ts:62-65 | a new array, never longer than the input, which is left as it was |
| EnvelopeArrays.DeleteEnvelopeMembers | back-end/src/util.ts:62-65 | exactly the envelopes whose id is not `===` the given id are kept |
| EnvelopeArrays.DeleteEnvelopeAppend | back-end/src/util.ts:62-65 | the filter distributes over concatenation, so it keeps the order |
| EnvelopeArrays.DeleteEnvelopeAbsent | back-end/src/util.ts:62-65 | with no envelope carrying the id, or with a NaN id, nothing is removed |
| EnvelopeArrays.DeleteEnvelopeIdempotent | back-end/src/util.ts:62-65 | deleting twice equals deleting once |
| EnvelopeArrays.UpdateEnvelope | back-end/src/util.ts:67-74 | the id is kept; the name, `Number(budget)` and `Number(spent)` replace the old values only when truthy |
| EnvelopeArrays.UpdateEnvelopeIdempotent | back-end/src/util.ts:67-74 | applying the same body twice equals applying it once, and an empty body changes nothing |
| EnvelopeArrays.FindFrom | back-end/src/util.ts:79 | the first index from `k` whose id matches, and none iff none does |
| EnvelopeArrays.FindEnvelope | back-end/src/util.ts:78-89 | the first envelope with the id and its index, and none iff no envelope has it |
| MemoryServer.MergeBody | src/index.ts:82-89 | the id is kept; name, budget and spent come from the body when truthy and are kept otherwise |
| MemoryServer.MergeBodyAgreesWithUtil | src/index.ts:82-89 | on numeric bodies the merge of src/index.ts equals the one of util.ts |
| MemoryServer.MissingValueIsNotANumber | src/index.ts:180-190 | an undefined or null `value` already fails `!Number(value)`, so the later undefined/null test never fires |
| MemoryServer.DropsFound | src/index.ts:109-111 | filtering out an id that is present makes the array shorter |
| MemoryServer.Server.constructor | src/index.ts:32-34 | the server starts with no envelopes |
| MemoryServer.Server.FindEnvelope | src/index.ts:37-48 | the first slot holding the id, and none iff no slot does |
| MemoryServer.Server.ResolveId | src/index.ts:51-73 | a route id reading as NaN is a 400 and one no envelope has is a 404; otherwise the id, its envelope and its index |
| MemoryServer.Server.Put | src/index.ts:92-107 | refused when the merged spend exceeds the merged budget or the old budget; otherwise exactly that slot is replaced by the merged envelope |
| MemoryServer.Server.DeleteEnvelope | src/index.ts:109-111 | `allEnvelopes` becomes the util filter of itself |
| MemoryServer.Server.Delete | src/index.ts:114-120 | for a resolved id, the array gets shorter and no envelope with that id remains; otherwise it is unchanged |
| MemoryServer.Server.GetTransferEnvelopesIndexes | src/index.ts:123-148 | the last matching slots of both endpoints, by name iff `to` reads as NaN |
| MemoryServer.Server.CompliteTransaction | src/index.ts:151-163 | accepted iff the source can cover the value; the budgets move, the total budget is kept, and a refusal changes nothing |
| MemoryServer.Server.PostTransfer | src/index.ts:166-202 | refused, in order, for endpoints of different kinds, a falsy `Number(value)`, an endpoint not found, and an uncovered value; with both endpoints found it succeeds iff the source covers the value; then the value moves between the two slots and the total budget is kept |
| MemoryServer.Server.AddToNewEnvelope | src/index.ts:204-206 | `push`: the envelope is appended |
| MemoryServer.Server.PostCreate | src/index.ts:222-242 | succeeds iff the four properties are defined and `id`, `budget` and `spent` are not NaN; then the refactored envelope is appended, and otherwise a 400 leaves the array unchanged |

## Left out

- HTTP plumbing is not modelled: routing, body parsing, the error middleware and the response codes beyond the error's status. In particular, src/index.ts:199-201 sends a response after `next(error)`; only the error is modelled.
- The endpoint files under back-end/src/end-points/ are not modelled. They convert route ids with `Number()` and reject NaN before a query runs, so the queries receive numbers.
- The pg Pool, dotenv, console logging and the `DO` blocks themselves are not modelled. Of initialisation, the model keeps only which triggers end up attached and that the tables start empty.
- The columns of the `transactions` table as back-end/src/initDB.ts:27-33 creates it are not modelled. That table has a column `"for"` and no `name` column. The model instead gives it the `for_id` and `name` columns that the queries (back-end/src/queries.ts:302-304, 316, 344, 364, 378-385) and the triggers (back-end/src/initDB.ts:123-131, 164, 199-213) use. Against the table as created, every statement naming them fails with an undefined column: `createTransaction`, `getAllTransactions`, `getTransactionById`, `deleteAllTransactions`, `updateTransaction` given a name or `for_id`, and `make_transaction_func`. The model describes a database whose `transactions` table already has those columns.
- `getAllEnvelopes` (back-end/src/queries.ts:94-98) and `getAllTransfers` (back-end/src/queries.ts:201-215) are plain reads outside the modelled core.
- The GET handlers of src/index.ts only send a value; `Server.FindEnvelope` and the `allEnvelopes` field cover what they read.
- `NUMERIC` columns and JavaScript numbers are integers: decimals and floating-point rounding are not modelled.
- A PostgreSQL sequence advances even when an insert fails. The model advances a counter only on success, so it reports exhaustion later than PostgreSQL might. Ids are therefore still fresh, but may differ from the ones PostgreSQL would hand out.
- Array-valued text parameters are sent as an array literal without PostgreSQL's quoting and escaping rules.
- Strings are not parsed: each string value carries what `Number()` reads from it.
- MemoryServer.Server.Put: requires `budget` and `spent` in the body to be absent, null or numbers, as its TypeScript type says. With a string value, the raw `||` would store a string, and later comparisons would coerce it; neither is modelled.
- MemoryServer.MergeBody: has the same requirement as `Put`, for the same reason. It does not model a string `budget` or `spent` kept by `||`.
- Aliasing between the envelope objects held in `allEnvelopes` and the objects handed to callers is not modelled. Envelopes are values, so a later in-place change of a slot does not show through earlier results.
- `EnvelopeArrays.EnvelopeArray` holds a sequence rather than a Dafny array, because `unshift` grows it.
- Concurrency between requests is not modelled. Each query is one atomic step, as a single SQL statement is.
- The text of error messages is not modelled; an error is its status and a cause.

## Findings

| source | as written | input that shows it | evidently intended | confidence | as-written member | corrected member |
|---|---|---|---|---|---|---|
| back-end/src/initDB.ts:175-176 | the block that creates `transaction_delete_trigger` tests whether `make_transaction_trigger` exists, and the block before it has just created that trigger | a database whose `transactions` table already has `for_id` and `name`, with none of the five triggers: after initialisation `transaction_delete_trigger` is still missing, so deleting a transaction refunds nothing | test for `transaction_delete_trigger`, so that the trigger is attached on first start | not executed | Triggers.InstallNeverAttachesDeleteTrigger | Triggers.InstallFixedAttachesAll |
