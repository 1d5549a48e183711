/**
 * The ledger as back-end/src/queries.ts drives it: one PostgreSQL database
 * holding the three tables, with the trigger procedures of
 * back-end/src/initDB.ts attached. Each exported query is one method that
 * checks its inputs as the TypeScript does and then runs its SQL statement
 * atomically: every trigger the statement fires runs inside it, and an
 * exception from a trigger or a failed constraint undoes the whole
 * statement.
 */
module Ledger {
  import opened Wrappers
  import opened JsValues
  import opened Errors
  import opened Validation
  import opened Schema
  import opened Triggers

  /** The width of the `name` column of `envelopes`. */
  const NameWidth: nat := 255

  /**
   * The text node-postgres sends for a JavaScript value bound to a text
   * parameter; `None` is SQL NULL. Arrays become array literals.
   */
  function SqlText(v: JsValue): (r: Option<string>)
    ensures r.None? <==> v.Undefined? || v.Null?
    ensures v.Str? ==> r == Some(v.s)
    ensures v.Arr? ==> r.Some? && |r.value| >= 2 && r.value[0] == '{'
    decreases v, 1
  {
    match v
    case Undefined => None
    case Null => None
    case Num(n) => Some(IntToString(n))
    case NaN => Some("NaN")
    case Str(s, _) => Some(s)
    case Arr(_) => Some("{" + ElementsText(v, 0) + "}")
  }

  /** The elements of an array literal from the `k`-th on, comma-separated. */
  function ElementsText(v: JsValue, k: nat): string
    decreases v, 0, if v.Arr? then |v.elems| - k else 0
  {
    if !v.Arr? || k >= |v.elems| then ""
    else
      var e := v.elems[k];
      var t := if e.Undefined? || e.Null? then "NULL"
               else if e.Str? then "\"" + e.s + "\""
               else SqlText(e).value;
      (if k == 0 then "" else ",") + t + ElementsText(v, k + 1)
  }

  /**
   * A parameter PostgreSQL reads as INTEGER (an id, or an INTEGER column):
   * NaN and array literals are invalid input, and a number outside the
   * 32-bit range is out of range.
   */
  function SqlInteger(v: JsValue): (r: Result<int, Raise>)
    ensures r.Ok? <==> v.Num? && IsInteger(v.n)
    ensures r.Ok? ==> r.value == v.n
    ensures !v.Num? ==> r == Err(InvalidInput)
    ensures v.Num? && !IsInteger(v.n) ==> r == Err(IntegerOutOfRange)
  {
    if !v.Num? then Err(InvalidInput)
    else if !IsInteger(v.n) then Err(IntegerOutOfRange)
    else Ok(v.n)
  }

  /**
   * Storing text in a VARCHAR(n) column: longer text is an error unless
   * every character past the n-th is a space, in which case it is cut.
   */
  function FitVarchar(s: string, n: nat): (r: Result<string, Raise>)
    ensures |s| <= n ==> r == Ok(s)
    ensures r.Ok? ==> |r.value| <= n && r.value == s[..|r.value|]
    ensures r.Err? <==> |s| > n && exists i :: n <= i < |s| && s[i] != ' '
    ensures r.Err? ==> r.error == ValueTooLong
  {
    if |s| <= n then Ok(s)
    else if forall i :: n <= i < |s| ==> s[i] == ' ' then Ok(s[..n])
    else Err(ValueTooLong)
  }

  /** A transfer as the join with both of its envelopes returns it. */
  datatype TransferView = TransferView(id: Id, amount: int, date: Timestamp, toId: Id, fromId: Id, toName: string, fromName: string)

  /** A transaction joined with the name of its envelope. */
  datatype TransactionView = TransactionView(id: Id, row: TransactionRow, envelopeName: string)

  /**
   * The SET list `updateEnvelope` builds: new name, budget and spend, each
   * optional. A name the body sets to null is `Some(None)`, SQL NULL.
   */
  datatype EnvelopeAssignments = EnvelopeAssignments(name: Option<Option<string>>, budget: Option<int>, spent: Option<int>)

  /** The SET list `updateTransaction` builds: new name, envelope and amount, each optional. */
  datatype Assignments = Assignments(name: Option<string>, forId: Option<Id>, amount: Option<int>)

  class Database {
    var envelopes: Envelopes
    var transfers: map<Id, TransferRow>
    var transactions: map<Id, TransactionRow>
    /** The next value of each table's SERIAL id; past `MaxInteger` the sequence is exhausted. */
    var nextEnvelopeId: Id
    var nextTransferId: Id
    var nextTransactionId: Id
    /** The triggers attached to the tables. */
    const triggers: set<TriggerName>

    /**
     * What the schema and the triggers keep true between statements: spend
     * within budget, positive transfer and transaction amounts, foreign
     * keys that resolve, and ids below their sequence counters, which never
     * pass one beyond the largest INTEGER.
     */
    ghost predicate Valid()
      reads this
    {
      && WithinBudget(envelopes)
      && BalanceTriggersAttached(triggers)
      && 0 < nextEnvelopeId && 0 < nextTransferId && 0 < nextTransactionId
      && nextEnvelopeId <= MaxInteger + 1 && nextTransferId <= MaxInteger + 1
      && nextTransactionId <= MaxInteger + 1
      && (forall k :: k in envelopes ==> 0 < k < nextEnvelopeId)
      && (forall k :: k in transfers ==> 0 < k < nextTransferId)
      && (forall k :: k in transactions ==> 0 < k < nextTransactionId)
      && (forall k :: k in transfers ==>
            transfers[k].amount > 0 && transfers[k].to in envelopes && transfers[k].from in envelopes)
      && (forall k :: k in transactions ==>
            transactions[k].amount > 0 && transactions[k].forId in envelopes)
    }

    /** Whether deleting a transaction gives its amount back to its envelope. */
    predicate DeleteTriggerAttached()
      reads this
    {
      TransactionDeleteTrigger in triggers
    }

    /** No SERIAL sequence was advanced. */
    twostate predicate CountersKept()
      reads this
    {
      && nextEnvelopeId == old(nextEnvelopeId)
      && nextTransferId == old(nextTransferId)
      && nextTransactionId == old(nextTransactionId)
    }

    /** Nothing but the envelopes table changed. */
    twostate predicate OnlyEnvelopesChanged()
      reads this
    {
      && transfers == old(transfers)
      && transactions == old(transactions)
      && nextEnvelopeId == old(nextEnvelopeId)
      && nextTransferId == old(nextTransferId)
      && nextTransactionId == old(nextTransactionId)
    }

    /** No table and no counter changed: the statement was undone or never ran. */
    twostate predicate NothingChanged()
      reads this
    {
      envelopes == old(envelopes) && OnlyEnvelopesChanged()
    }

    /**
     * Initialisation of empty tables on a server where the triggers in
     * `existing` are already attached, with the installation blocks as
     * written.
     */
    constructor (existing: set<TriggerName>)
      ensures Valid()
      ensures triggers == InstallTriggers(existing)
      ensures DeleteTriggerAttached() <==> TransactionDeleteTrigger in existing
      ensures envelopes == map[] && transfers == map[] && transactions == map[]
      ensures nextEnvelopeId == 1 && nextTransferId == 1 && nextTransactionId == 1
    {
      envelopes, transfers, transactions := map[], map[], map[];
      nextEnvelopeId, nextTransferId, nextTransactionId := 1, 1, 1;
      triggers := InstallTriggers(existing);
      InstallNeverAttachesDeleteTrigger(existing);
    }

    /** Initialisation with the delete-trigger guard corrected. */
    constructor Fixed(existing: set<TriggerName>)
      ensures Valid()
      ensures triggers == InstallTriggersFixed(existing)
      ensures DeleteTriggerAttached()
      ensures envelopes == map[] && transfers == map[] && transactions == map[]
      ensures nextEnvelopeId == 1 && nextTransferId == 1 && nextTransactionId == 1
    {
      envelopes, transfers, transactions := map[], map[], map[];
      nextEnvelopeId, nextTransferId, nextTransactionId := 1, 1, 1;
      triggers := InstallTriggersFixed(existing);
      InstallFixedAttachesAll(existing);
    }

    // ---------------------------------------------------------------
    // Trigger procedures, run inside the statement that fires them
    // ---------------------------------------------------------------

    /** `UPDATE envelopes SET … WHERE id = k`, checked row by row by `before_update_envelope`. */
    method UpdateEnvelopeRow(k: Id, row: EnvelopeRow) returns (raised: Option<Raise>)
      modifies this
      ensures raised.None? <==> UpdateRow(old(envelopes), k, row).Ok?
      ensures raised.None? ==> envelopes == UpdateRow(old(envelopes), k, row).value
      ensures raised.Some? ==> raised.value == UpdateRow(old(envelopes), k, row).error && envelopes == old(envelopes)
      ensures OnlyEnvelopesChanged()
    {
      raised := None;
      if k in envelopes {
        raised := BeforeUpdateEnvelope(envelopes[k], row);
        if raised.None? {
          envelopes := envelopes[k := row];
        }
      }
    }

    /** `make_transfer_func`, before a transfer row is inserted. */
    method MakeTransferFunc(t: TransferRow) returns (raised: Option<Raise>)
      modifies this
      ensures raised.None? <==> MakeTransfer(old(envelopes), t).Ok?
      ensures raised.None? ==> envelopes == MakeTransfer(old(envelopes), t).value
      ensures raised.Some? ==> raised.value == MakeTransfer(old(envelopes), t).error
      ensures OnlyEnvelopesChanged()
    {
      if t.from in envelopes && envelopes[t.from].budget - envelopes[t.from].spent >= t.amount {
        var f := envelopes[t.from];
        raised := UpdateEnvelopeRow(t.from, f.(budget := f.budget - t.amount));
        if raised.None? && t.to in envelopes {
          var g := envelopes[t.to];
          raised := UpdateEnvelopeRow(t.to, g.(budget := g.budget + t.amount));
        }
      } else {
        raised := Some(NotEnoughBudget);
      }
    }

    /** `make_transaction_func`, before a transaction row is inserted. */
    method MakeTransactionFunc(tx: TransactionRow) returns (raised: Option<Raise>)
      modifies this
      ensures raised.None? <==> MakeTransaction(old(envelopes), tx).Ok?
      ensures raised.None? ==> envelopes == MakeTransaction(old(envelopes), tx).value
      ensures raised.Some? ==> raised.value == MakeTransaction(old(envelopes), tx).error
      ensures OnlyEnvelopesChanged()
    {
      if tx.forId in envelopes && envelopes[tx.forId].budget >= tx.amount + envelopes[tx.forId].spent {
        var e := envelopes[tx.forId];
        raised := UpdateEnvelopeRow(tx.forId, e.(spent := e.spent + tx.amount));
      } else {
        raised := Some(NotEnoughBudget);
      }
    }

    /** `on_transaction_delete`, after a transaction row is deleted. */
    method OnTransactionDeleteFunc(tx: TransactionRow) returns (raised: Option<Raise>)
      modifies this
      ensures raised.None? <==> OnTransactionDelete(old(envelopes), tx).Ok?
      ensures raised.None? ==> envelopes == OnTransactionDelete(old(envelopes), tx).value
      ensures raised.Some? ==> raised.value == OnTransactionDelete(old(envelopes), tx).error
      ensures OnlyEnvelopesChanged()
    {
      raised := None;
      if tx.forId in envelopes {
        var e := envelopes[tx.forId];
        raised := UpdateEnvelopeRow(tx.forId, e.(spent := e.spent - tx.amount));
      }
    }

    /** `on_transaction_update`, before a transaction row changes from `oldTx` to `newTx`. */
    method OnTransactionUpdateFunc(oldTx: TransactionRow, newTx: TransactionRow, today: Timestamp)
      returns (raised: Option<Raise>, stamped: TransactionRow)
      modifies this
      ensures raised.None? <==> OnTransactionUpdate(old(envelopes), oldTx, newTx, today).Ok?
      ensures raised.None? ==> (envelopes, stamped) == OnTransactionUpdate(old(envelopes), oldTx, newTx, today).value
      ensures raised.Some? ==> raised.value == OnTransactionUpdate(old(envelopes), oldTx, newTx, today).error
      ensures OnlyEnvelopesChanged()
    {
      var envBudget := if newTx.forId in envelopes then Some(envelopes[newTx.forId].budget) else None;
      var envSpent := newTx.amount;
      stamped := newTx;
      raised := None;
      if oldTx.forId != newTx.forId && oldTx.forId in envelopes {
        var e := envelopes[oldTx.forId];
        raised := UpdateEnvelopeRow(oldTx.forId, e.(spent := e.spent - newTx.amount));
      }
      if raised.None? {
        if envBudget.Some? && envSpent <= envBudget.value && envSpent >= 0 {
          raised := UpdateEnvelopeRow(newTx.forId, envelopes[newTx.forId].(spent := envSpent));
          stamped := newTx.(date := today);
        } else {
          raised := Some(NotEnoughBudgetOnUpdate);
        }
      }
    }
  

    // ---------------------------------------------------------------
    // Envelopes
    // ---------------------------------------------------------------

    /** `getEnvelopeById`: the stored row, or a 404; an id outside INTEGER fails to bind. */
    function GetEnvelopeById(id: Id): (r: Result<EnvelopeRow, Error>)
      reads this
      ensures r.Ok? <==> IsInteger(id) && id in envelopes
      ensures r.Ok? ==> r.value == envelopes[id]
      ensures !IsInteger(id) ==> r == Err(Database(IntegerOutOfRange))
      ensures IsInteger(id) && id !in envelopes ==> r == Err(Status(404, NotFound))
    {
      if !IsInteger(id) then Err(Database(IntegerOutOfRange))
      else if id in envelopes then Ok(envelopes[id])
      else Err(Status(404, NotFound))
    }

    /**
     * `createEnvelope`: parses the body, rejects a spend above the budget and
     * inserts the row under the next id. The body's `name` goes to the
     * database as it is; a missing name is reported by the NOT NULL
     * constraint (the TypeScript builds an error for it but never throws it).
     * The SERIAL default is drawn first, so an exhausted sequence fails the
     * statement before the name is looked at.
     */
    method CreateEnvelope(body: Record, now: Timestamp) returns (r: Result<(Id, EnvelopeRow), Error>)
      requires Valid()
      modifies this
      ensures Valid()
      ensures ParseEnvelope(body).Err? ==> r == Err(ParseEnvelope(body).error)
      ensures (ParseEnvelope(body).Ok? && ToNumber(body["budget"]).n >= ToNumber(body["spent"]).n
               && old(nextEnvelopeId) > MaxInteger) ==> r == Err(Database(SequenceExhausted))
      ensures r.Ok? <==>
                && ParseEnvelope(body).Ok?
                && ToNumber(body["budget"]).n >= ToNumber(body["spent"]).n
                && old(nextEnvelopeId) <= MaxInteger
                && SqlText(Field(body, "name")).Some?
                && FitVarchar(SqlText(Field(body, "name")).value, NameWidth).Ok?
      ensures ParseEnvelope(body).Ok? && ToNumber(body["budget"]).n < ToNumber(body["spent"]).n
              ==> r == Err(Status(400, SpentOverBudget))
      ensures r.Ok? ==> r.value.0 == old(nextEnvelopeId) && r.value.0 !in old(envelopes)
      ensures r.Ok? ==> r.value.1 == EnvelopeRow(FitVarchar(SqlText(Field(body, "name")).value, NameWidth).value,
                                                 ToNumber(body["budget"]).n, ToNumber(body["spent"]).n, now)
      ensures r.Ok? ==> envelopes == old(envelopes)[r.value.0 := r.value.1]
      ensures r.Ok? ==> TotalBudget(envelopes) == TotalBudget(old(envelopes)) + r.value.1.budget
      ensures r.Ok? ==> transfers == old(transfers) && transactions == old(transactions)
      ensures r.Ok? ==> nextEnvelopeId == old(nextEnvelopeId) + 1
      ensures nextTransferId == old(nextTransferId) && nextTransactionId == old(nextTransactionId)
      ensures r.Err? ==> NothingChanged()
    {
      var p := ParseEnvelope(body);
      if p.Err? {
        return Err(p.error);
      }
      var budget := p.value["budget"].n;
      var spent := p.value["spent"].n;
      if budget < spent {
        return Err(Status(400, SpentOverBudget));
      }
      if nextEnvelopeId > MaxInteger {
        return Err(Database(SequenceExhausted));
      }
      var name := SqlText(Field(body, "name"));
      if name.None? {
        return Err(Database(NotNullViolation));
      }
      var stored := FitVarchar(name.value, NameWidth);
      if stored.Err? {
        return Err(Database(stored.error));
      }
      var id := nextEnvelopeId;
      var row := EnvelopeRow(stored.value, budget, spent, now);
      SumInsert(envelopes, BudgetOf, id, row);
      envelopes := envelopes[id := row];
      nextEnvelopeId := nextEnvelopeId + 1;
      r := Ok((id, row));
    }

    /**
     * `deleteEnvelope`: a negative id is a 400, one past INTEGER fails to
     * bind, a missing envelope is a 404.
     * The row goes, and ON DELETE CASCADE takes every transfer touching it
     * and every transaction charged to it. No balance is given back: the
     * budgets transfers moved stay where they are, and the delete trigger
     * fired by the cascaded transactions finds no envelope to update.
     */
    method DeleteEnvelope(id: Id) returns (r: Result<EnvelopeRow, Error>)
      requires Valid()
      modifies this
      ensures Valid()
      ensures id < 0 ==> r == Err(Status(400, CheckFailed))
      ensures id > MaxInteger ==> r == Err(Database(IntegerOutOfRange))
      ensures 0 <= id <= MaxInteger && id !in old(envelopes) ==> r == Err(Status(404, NotFound))
      ensures r.Ok? <==> id >= 0 && id in old(envelopes)
      ensures r.Ok? ==> r.value == old(envelopes)[id] && envelopes == old(envelopes) - {id}
      ensures r.Ok? ==> transfers == map k | k in old(transfers) && old(transfers)[k].to != id && old(transfers)[k].from != id
                                       :: old(transfers)[k]
      ensures r.Ok? ==> transactions == map k | k in old(transactions) && old(transactions)[k].forId != id
                                          :: old(transactions)[k]
      ensures CountersKept()
      ensures r.Err? ==> NothingChanged()
    {
      var c := Check(Num(id), Some(400), Some(TNumber), Some(id >= 0));
      if c.Err? {
        return Err(c.error);
      }
      if !IsInteger(id) {
        return Err(Database(IntegerOutOfRange));
      }
      if id !in envelopes {
        return Err(Status(404, NotFound));
      }
      var row := envelopes[id];
      envelopes := envelopes - {id};
      transfers := map k | k in transfers && transfers[k].to != id && transfers[k].from != id :: transfers[k];
      transactions := map k | k in transactions && transactions[k].forId != id :: transactions[k];
      r := Ok(row);
    }

    /** A supplied budget or spend that passes `updateEnvelope`'s check. */
    static predicate AbsentOrNonNegative(v: JsValue) {
      v.Undefined? || (v.Num? && v.n >= 0)
    }

    /**
     * The SET list `updateEnvelope` builds from its body. A supplied budget
     * or spend must be a non-negative number; with nothing supplied the
     * TypeScript throws before any SQL. Binding follows: NUMERIC reads any
     * number, but an array that passed the check (`[5]`) becomes an array
     * literal, which is invalid NUMERIC input.
     */
    static function EnvelopeArguments(body: Record): (r: Result<EnvelopeAssignments, Error>)
      ensures Field(body, "budget").Num? && Field(body, "budget").n < 0 ==> r == Err(Status(400, CheckFailed))
      ensures Field(body, "budget").NaN? ==> r == Err(Status(400, CheckFailed))
      ensures AbsentOrNonNegative(Field(body, "budget")) && Field(body, "spent").Num? && Field(body, "spent").n < 0
              ==> r == Err(Status(400, CheckFailed))
      ensures Field(body, "name").Undefined? && Field(body, "budget").Undefined? && Field(body, "spent").Undefined?
              ==> r == Err(Plain(NoFieldsToUpdate))
      ensures r.Ok? <==> && AbsentOrNonNegative(Field(body, "budget"))
                         && AbsentOrNonNegative(Field(body, "spent"))
                         && !(Field(body, "name").Undefined? && Field(body, "budget").Undefined? && Field(body, "spent").Undefined?)
      ensures r.Ok? ==> r.value.name == (if Field(body, "name").Undefined? then None else Some(SqlText(Field(body, "name"))))
      ensures r.Ok? ==> r.value.budget == (if Field(body, "budget").Undefined? then None else Some(Field(body, "budget").n))
      ensures r.Ok? ==> r.value.spent == (if Field(body, "spent").Undefined? then None else Some(Field(body, "spent").n))
    {
      var nameV, budgetV, spentV := Field(body, "name"), Field(body, "budget"), Field(body, "spent");
      var budgetCheck := Check(budgetV, Some(400), Some(TNumber), Some(NonNegative(budgetV)));
      var spentCheck := Check(spentV, Some(400), Some(TNumber), Some(NonNegative(spentV)));
      if !budgetV.Undefined? && budgetCheck.Err? then Err(budgetCheck.error)
      else if !spentV.Undefined? && spentCheck.Err? then Err(spentCheck.error)
      else if nameV.Undefined? && budgetV.Undefined? && spentV.Undefined? then Err(Plain(NoFieldsToUpdate))
      else if budgetV.Arr? || spentV.Arr? then Err(Database(InvalidInput))
      else
        Ok(EnvelopeAssignments(if nameV.Undefined? then None else Some(SqlText(nameV)),
                               if budgetV.Undefined? then None else Some(budgetV.n),
                               if spentV.Undefined? then None else Some(spentV.n)))
    }

    /**
     * The row `updateEnvelope`'s UPDATE proposes for `row`. Every SET
     * expression reads the row as it was, so the CASE compares a new spend
     * with the OLD budget and keeps the old spend when it is not below it;
     * a new name is coerced to VARCHAR(255). A NULL name leaves the name
     * as it was here: the NOT NULL constraint rejects it after the trigger.
     */
    static function ProposedEnvelope(row: EnvelopeRow, a: EnvelopeAssignments): (r: Result<EnvelopeRow, Raise>)
      ensures r.Err? <==> a.name.Some? && a.name.value.Some? && FitVarchar(a.name.value.value, NameWidth).Err?
      ensures r.Err? ==> r.error == ValueTooLong
      ensures r.Ok? ==> r.value.createdAt == row.createdAt
      ensures r.Ok? && a.name.Some? && a.name.value.Some? ==> r.value.name == FitVarchar(a.name.value.value, NameWidth).value
      ensures r.Ok? && !(a.name.Some? && a.name.value.Some?) ==> r.value.name == row.name
      ensures r.Ok? ==> r.value.budget == (if a.budget.Some? then a.budget.value else row.budget)
      ensures r.Ok? && a.spent.Some? ==> (r.value.spent == a.spent.value <==> a.spent.value < row.budget || a.spent.value == row.spent)
      ensures r.Ok? && (a.spent.None? || a.spent.value >= row.budget) ==> r.value.spent == row.spent
    {
      var name := if a.name.Some? && a.name.value.Some? then FitVarchar(a.name.value.value, NameWidth) else Ok(row.name);
      if name.Err? then Err(name.error)
      else
        Ok(row.(name := name.value,
                budget := if a.budget.Some? then a.budget.value else row.budget,
                spent := if a.spent.Some? && a.spent.value < row.budget then a.spent.value else row.spent))
    }

    /**
     * `updateEnvelope`: checks the body and builds the SET list
     * (`EnvelopeArguments`), binds the id, then updates the row if there is
     * one (a 404 otherwise). The proposed row (`ProposedEnvelope`) passes
     * the before-update trigger and NOT NULL or the statement is undone.
     * The spend is then re-read: when a supplied spend was not written
     * the TypeScript throws a 400, with the rest of the update committed.
     */
    method UpdateEnvelope(id: Id, body: Record) returns (r: Result<EnvelopeRow, Error>)
      requires Valid()
      modifies this
      ensures Valid()
      ensures OnlyEnvelopesChanged()
      ensures EnvelopeArguments(body).Err? ==> r == Err(EnvelopeArguments(body).error)
      ensures EnvelopeArguments(body).Ok? && !IsInteger(id) ==> r == Err(Database(IntegerOutOfRange))
      ensures EnvelopeArguments(body).Ok? && IsInteger(id) && id !in old(envelopes) ==> r == Err(Status(404, NotFound))
      ensures EnvelopeArguments(body).Ok? && id in old(envelopes) ==>
                var a := EnvelopeArguments(body).value;
                var p := ProposedEnvelope(old(envelopes)[id], a);
                && (p.Err? ==> r == Err(Database(p.error)))
                && (p.Ok? && BeforeUpdateEnvelope(old(envelopes)[id], p.value).Some? ==>
                      r == Err(Database(BeforeUpdateEnvelope(old(envelopes)[id], p.value).value)))
                && (p.Ok? && BeforeUpdateEnvelope(old(envelopes)[id], p.value).None? && a.name == Some(None) ==>
                      r == Err(Database(NotNullViolation)))
                && (p.Ok? && BeforeUpdateEnvelope(old(envelopes)[id], p.value).None? && a.name != Some(None) ==>
                      && envelopes == old(envelopes)[id := p.value]
                      && r == (if a.spent.Some? && p.value.spent != a.spent.value then Err(Status(400, SpentOverBudget))
                               else Ok(p.value)))
      ensures r.Ok? <==>
                && EnvelopeArguments(body).Ok? && id in old(envelopes)
                && var a := EnvelopeArguments(body).value;
                   var p := ProposedEnvelope(old(envelopes)[id], a);
                   && p.Ok? && BeforeUpdateEnvelope(old(envelopes)[id], p.value).None? && a.name != Some(None)
                   && (a.spent.None? || a.spent.value < old(envelopes)[id].budget || a.spent.value == old(envelopes)[id].spent)
      ensures r.Ok? ==> 0 <= r.value.spent <= r.value.budget
      ensures r.Err? && r.error != Status(400, SpentOverBudget) ==> NothingChanged()
    {
      var args := EnvelopeArguments(body);
      if args.Err? {
        return Err(args.error);
      }
      var a := args.value;
      if !IsInteger(id) {
        return Err(Database(IntegerOutOfRange));
      }
      if id !in envelopes {
        return Err(Status(404, NotFound));
      }
      var oldRow := envelopes[id];
      var proposed := ProposedEnvelope(oldRow, a);
      if proposed.Err? {
        return Err(Database(proposed.error));
      }
      var newRow := proposed.value;
      var snapshot := envelopes;
      var raised := UpdateEnvelopeRow(id, newRow);
      if raised.Some? {
        return Err(Database(raised.value));
      }
      if a.name == Some(None) {
        envelopes := snapshot;
        return Err(Database(NotNullViolation));
      }
      UpdateRowKeepsWithinBudget(snapshot, id, newRow);
      if a.spent.Some? && newRow.spent != a.spent.value {
        return Err(Status(400, SpentOverBudget));
      }
      r := Ok(newRow);
    }

    // ---------------------------------------------------------------
    // Transfers
    // ---------------------------------------------------------------

    /** The join of a transfer with its two envelopes, when both are there. */
    function TransferJoin(id: Id): (r: Option<TransferView>)
      reads this
      ensures r.Some? <==> id in transfers && transfers[id].to in envelopes && transfers[id].from in envelopes
      ensures r.Some? ==> r.value.id == id && r.value.amount == transfers[id].amount
                          && r.value.toId == transfers[id].to && r.value.fromId == transfers[id].from
                          && r.value.toName == envelopes[transfers[id].to].name
                          && r.value.fromName == envelopes[transfers[id].from].name
    {
      if id in transfers && transfers[id].to in envelopes && transfers[id].from in envelopes then
        var t := transfers[id];
        Some(TransferView(id, t.amount, t.date, t.to, t.from, envelopes[t.to].name, envelopes[t.from].name))
      else None
    }

    /**
     * `getTransferById`: a negative id is a 400, one past INTEGER fails to
     * bind, a missing transfer is a 404.
     */
    function GetTransferById(id: Id): (r: Result<TransferView, Error>)
      reads this
      requires Valid()
      ensures id < 0 ==> r == Err(Status(400, CheckFailed))
      ensures id > MaxInteger ==> r == Err(Database(IntegerOutOfRange))
      ensures r.Ok? <==> id >= 0 && id in transfers
      ensures r.Ok? ==> Some(r.value) == TransferJoin(id)
      ensures 0 <= id <= MaxInteger && id !in transfers ==> r == Err(Status(404, NotFound))
    {
      var c := Check(Num(id), Some(400), Some(TNumber), Some(id >= 0));
      if c.Err? then Err(c.error)
      else if !IsInteger(id) then Err(Database(IntegerOutOfRange))
      else
        var found := TransferJoin(id);
        if found.None? then Err(Status(404, NotFound)) else Ok(found.value)
    }

    /**
     * `deleteTransfer`: a negative id is a 400, one past INTEGER fails to
     * bind, and a missing transfer is a 400 too. No trigger fires, so the budget the transfer moved stays
     * moved.
     */
    method DeleteTransfer(id: Id) returns (r: Result<TransferRow, Error>)
      requires Valid()
      modifies this
      ensures Valid()
      ensures id < 0 ==> r == Err(Status(400, CheckFailed))
      ensures id > MaxInteger ==> r == Err(Database(IntegerOutOfRange))
      ensures 0 <= id <= MaxInteger && id !in old(transfers) ==> r == Err(Status(400, NotFound))
      ensures r.Ok? <==> id >= 0 && id in old(transfers)
      ensures r.Ok? ==> r.value == old(transfers)[id] && transfers == old(transfers) - {id}
      ensures envelopes == old(envelopes) && transactions == old(transactions)
      ensures CountersKept()
      ensures r.Err? ==> NothingChanged()
    {
      var c := Check(Num(id), Some(400), Some(TNumber), Some(id >= 0));
      if c.Err? {
        return Err(c.error);
      }
      if !IsInteger(id) {
        return Err(Database(IntegerOutOfRange));
      }
      if id !in transfers {
        return Err(Status(400, NotFound));
      }
      r := Ok(transfers[id]);
      transfers := transfers - {id};
    }

    /**
     * The checks `createNewTransfer` makes before its statement runs:
     * `from` and `to` must be non-negative numbers (NaN fails the custom
     * check), and PostgreSQL must be able to read all three as INTEGER,
     * which it tries in parameter order: `from`, `to`, `amount`.
     * The first `check`, for definedness, cannot fail on two numbers
     * (`DefinedCheckPasses`), so only the typed one is evaluated.
     */
    static function TransferArguments(from: JsValue, to: JsValue, amount: JsValue): (r: Result<(Id, Id, int), Error>)
      requires IsNumber(from) && IsNumber(to) && IsNumber(amount)
      ensures !(NonNegative(from) && NonNegative(to)) ==> r == Err(Status(400, CheckFailed))
      ensures NonNegative(from) && NonNegative(to) && !(IsInteger(from.n) && IsInteger(to.n))
              ==> r == Err(Database(IntegerOutOfRange))
      ensures NonNegative(from) && NonNegative(to) && IsInteger(from.n) && IsInteger(to.n) && amount.NaN?
              ==> r == Err(Database(InvalidInput))
      ensures NonNegative(from) && NonNegative(to) && IsInteger(from.n) && IsInteger(to.n)
              && amount.Num? && !IsInteger(amount.n)
              ==> r == Err(Database(IntegerOutOfRange))
      ensures r.Ok? <==> NonNegative(from) && NonNegative(to) && amount.Num?
                         && IsInteger(from.n) && IsInteger(to.n) && IsInteger(amount.n)
      ensures r.Ok? ==> r.value == (from.n, to.n, amount.n)
    {
      var custom := Some(NonNegative(from) && NonNegative(to));
      var typed := Check(Arr([from, to]), Some(400), Some(TNumber), custom);
      CheckPair(from, to, Some(400), Some(TNumber), custom);
      if typed.Err? then Err(typed.error)
      else
        var f, t, a := SqlInteger(from), SqlInteger(to), SqlInteger(amount);
        if f.Err? then Err(Database(f.error))
        else if t.Err? then Err(Database(t.error))
        else if a.Err? then Err(Database(a.error))
        else Ok((f.value, t.value, a.value))
    }

    /** `check([from, to], …)` without an expected type passes two numbers. */
    static lemma {:induction false} DefinedCheckPasses(from: JsValue, to: JsValue)
      requires IsNumber(from) && IsNumber(to)
      ensures Check(Arr([from, to]), Some(400), None, None).Ok?
    {
      CheckPair(from, to, Some(400), None, None);
    }

    /**
     * The INSERT of `createNewTransfer` once both envelopes are known to
     * exist: the SERIAL default is drawn, `make_transfer_func` moves the
     * amount, then the CHECK (amount > 0) is tested; each can fail the
     * statement.
     */
    method InsertTransfer(t: TransferRow) returns (r: Result<TransferView, Error>)
      requires Valid()
      requires t.from in envelopes && t.to in envelopes
      modifies this
      ensures Valid()
      ensures old(nextTransferId) > MaxInteger ==> r == Err(Database(SequenceExhausted))
      ensures r.Ok? <==> old(nextTransferId) <= MaxInteger && t.amount > 0 && MakeTransfer(old(envelopes), t).Ok?
      ensures r.Ok? ==> MakeTransfer(old(envelopes), t).Ok? && envelopes == MakeTransfer(old(envelopes), t).value
      ensures r.Ok? ==> TotalBudget(envelopes) == TotalBudget(old(envelopes))
      ensures r.Ok? ==> r.value.id == old(nextTransferId) && r.value.id !in old(transfers)
                        && transfers == old(transfers)[r.value.id := t]
                        && nextTransferId == old(nextTransferId) + 1
      ensures r.Ok? ==> r.value == TransferView(r.value.id, t.amount, t.date, t.to, t.from,
                                                old(envelopes)[t.to].name, old(envelopes)[t.from].name)
      ensures transactions == old(transactions) && nextEnvelopeId == old(nextEnvelopeId)
      ensures nextTransactionId == old(nextTransactionId)
      ensures r.Err? ==> NothingChanged()
    {
      if nextTransferId > MaxInteger {
        return Err(Database(SequenceExhausted));
      }
      var snapshot := envelopes;
      var raised := MakeTransferFunc(t);
      if raised.Some? {
        envelopes := snapshot;
        return Err(Database(raised.value));
      }
      if t.amount <= 0 {
        envelopes := snapshot;
        return Err(Database(AmountNotPositive));
      }
      TransferConservesTotalBudget(snapshot, t);
      TransferKeepsWithinBudget(snapshot, t);
      var id := nextTransferId;
      transfers := transfers[id := t];
      nextTransferId := nextTransferId + 1;
      // The joined names are read from the snapshot the statement started from.
      r := Ok(TransferView(id, t.amount, t.date, t.to, t.from, snapshot[t.to].name, snapshot[t.from].name));
    }

    /**
     * `createNewTransfer(from, to, amount)` on the numbers the route read
     * from the body. When either envelope is missing the INSERT … SELECT
     * inserts nothing and the query returns nothing.
     */
    method CreateNewTransfer(from: JsValue, to: JsValue, amount: JsValue, now: Timestamp)
      returns (r: Result<Option<TransferView>, Error>)
      requires IsNumber(from) && IsNumber(to) && IsNumber(amount)
      requires Valid()
      modifies this
      ensures Valid()
      ensures TransferArguments(from, to, amount).Err? ==> r == Err(TransferArguments(from, to, amount).error)
      ensures r == Ok(None) <==> TransferArguments(from, to, amount).Ok?
                                 && (from.n !in old(envelopes) || to.n !in old(envelopes))
      ensures TransferArguments(from, to, amount).Ok? && from.n in old(envelopes) && to.n in old(envelopes) ==>
                (r.Ok? <==> && old(nextTransferId) <= MaxInteger && amount.n > 0
                            && MakeTransfer(old(envelopes), TransferRow(amount.n, now, to.n, from.n)).Ok?)
      ensures r.Ok? && r.value.Some? ==>
                && from.n in old(envelopes) && to.n in old(envelopes)
                && amount.n > 0 && old(envelopes)[from.n].Available() >= amount.n
                && MakeTransfer(old(envelopes), TransferRow(amount.n, now, to.n, from.n)).Ok?
                && envelopes == MakeTransfer(old(envelopes), TransferRow(amount.n, now, to.n, from.n)).value
                && TotalBudget(envelopes) == TotalBudget(old(envelopes))
                && r.value.value == TransferView(r.value.value.id, amount.n, now, to.n, from.n,
                                                 old(envelopes)[to.n].name, old(envelopes)[from.n].name)
                && transfers == old(transfers)[r.value.value.id := TransferRow(amount.n, now, to.n, from.n)]
                && r.value.value.id == old(nextTransferId) && r.value.value.id !in old(transfers)
                && nextTransferId == old(nextTransferId) + 1
      ensures transactions == old(transactions)
      ensures nextEnvelopeId == old(nextEnvelopeId) && nextTransactionId == old(nextTransactionId)
      ensures !(r.Ok? && r.value.Some?) ==> NothingChanged()
    {
      var args := TransferArguments(from, to, amount);
      if args.Err? {
        return Err(args.error);
      }
      if from.n !in envelopes || to.n !in envelopes {
        return Ok(None);
      }
      var inserted := InsertTransfer(TransferRow(amount.n, now, to.n, from.n));
      if inserted.Err? {
        return Err(inserted.error);
      }
      r := Ok(Some(inserted.value));
    }

    // ---------------------------------------------------------------
    // Transactions
    // ---------------------------------------------------------------

    /** The transactions charged to envelope `envId`. */
    function RowsFor(envId: Id): (rows: map<Id, TransactionRow>)
      reads this
      ensures forall k :: k in rows <==> k in transactions && transactions[k].forId == envId
      ensures forall k :: k in rows ==> rows[k] == transactions[k]
    {
      map k | k in transactions && transactions[k].forId == envId :: transactions[k]
    }

    /** `getAllTransactions`: the envelope as `getEnvelopeById` finds it, then its transactions with its name. */
    function GetAllTransactions(envId: Id): (r: Result<map<Id, TransactionView>, Error>)
      reads this
      ensures r.Ok? <==> IsInteger(envId) && envId in envelopes
      ensures r.Err? ==> r.error == GetEnvelopeById(envId).error
      ensures r.Ok? ==> r.value.Keys == RowsFor(envId).Keys
      ensures r.Ok? ==> forall k :: k in r.value ==>
                          r.value[k] == TransactionView(k, transactions[k], envelopes[envId].name)
    {
      var env := GetEnvelopeById(envId);
      if env.Err? then Err(env.error)
      else Ok(map k | k in transactions && transactions[k].forId == envId
                :: TransactionView(k, transactions[k], env.value.name))
    }

    /**
     * `getTransactionById(id, envId)`: the envelope as `getEnvelopeById`
     * finds it; then an id outside INTEGER fails to bind, and a
     * transaction that is missing or charged to another envelope is a 404.
     */
    function GetTransactionById(id: Id, envId: Id): (r: Result<TransactionView, Error>)
      reads this
      ensures r.Ok? <==> && IsInteger(envId) && envId in envelopes
                         && IsInteger(id) && id in transactions && transactions[id].forId == envId
      ensures GetEnvelopeById(envId).Err? ==> r == Err(GetEnvelopeById(envId).error)
      ensures GetEnvelopeById(envId).Ok? && !IsInteger(id) ==> r == Err(Database(IntegerOutOfRange))
      ensures GetEnvelopeById(envId).Ok? && IsInteger(id) && !(id in transactions && transactions[id].forId == envId)
              ==> r == Err(Status(404, NotFound))
      ensures r.Ok? ==> r.value == TransactionView(id, transactions[id], envelopes[envId].name)
    {
      var env := GetEnvelopeById(envId);
      if env.Err? then Err(env.error)
      else if !IsInteger(id) then Err(Database(IntegerOutOfRange))
      else if id in transactions && transactions[id].forId == envId then
        Ok(TransactionView(id, transactions[id], env.value.name))
      else Err(Status(404, NotFound))
    }

    /**
     * `deleteTransactionById`: an id outside INTEGER fails to bind, and
     * there is a 404 when there is no such row. When the
     * delete trigger is attached the amount goes back to the envelope's
     * spend, and an exception from it undoes the delete.
     */
    method DeleteTransactionById(id: Id) returns (r: Result<TransactionRow, Error>)
      requires Valid()
      modifies this
      ensures Valid()
      ensures !IsInteger(id) ==> r == Err(Database(IntegerOutOfRange))
      ensures IsInteger(id) && id !in old(transactions) ==> r == Err(Status(404, NotFound))
      ensures r.Ok? ==> id in old(transactions) && r.value == old(transactions)[id]
      ensures r.Ok? ==> transactions == old(transactions) - {id}
      ensures r.Ok? && DeleteTriggerAttached() ==>
                OnTransactionDelete(old(envelopes), r.value).Ok?
                && envelopes == OnTransactionDelete(old(envelopes), r.value).value
      ensures r.Ok? && !DeleteTriggerAttached() ==> envelopes == old(envelopes)
      ensures id in old(transactions) ==>
                (r.Ok? <==> !DeleteTriggerAttached() || OnTransactionDelete(old(envelopes), old(transactions)[id]).Ok?)
      ensures transfers == old(transfers) && CountersKept()
      ensures r.Err? ==> NothingChanged()
    {
      if !IsInteger(id) {
        return Err(Database(IntegerOutOfRange));
      }
      if id !in transactions {
        return Err(Status(404, NotFound));
      }
      var row := transactions[id];
      var snapshot, envSnapshot := transactions, envelopes;
      transactions := transactions - {id};
      if DeleteTriggerAttached() {
        var raised := OnTransactionDeleteFunc(row);
        if raised.Some? {
          transactions, envelopes := snapshot, envSnapshot;
          return Err(Database(raised.value));
        }
        UpdateRowKeepsWithinBudget(old(envelopes), row.forId, old(envelopes)[row.forId].(spent := old(envelopes)[row.forId].spent - row.amount));
      }
      r := Ok(row);
    }
  

    /** The delete trigger fired for one positive amount. */
    method RefundOne(tx: TransactionRow) returns (raised: Option<Raise>)
      requires tx.forId in envelopes && envelopes[tx.forId].spent <= envelopes[tx.forId].budget && tx.amount > 0
      modifies this
      ensures OnlyEnvelopesChanged()
      ensures raised.None? <==> old(envelopes)[tx.forId].spent >= tx.amount
      ensures raised.None? ==> envelopes == old(envelopes)[tx.forId := old(envelopes)[tx.forId].(spent := old(envelopes)[tx.forId].spent - tx.amount)]
      ensures raised.Some? ==> raised.value == SpentNegative
    {
      RefundFailsOnlyBelowZero(envelopes, tx);
      raised := OnTransactionDeleteFunc(tx);
    }

    /**
     * The delete trigger fired once for each of `rows`, all charged to
     * envelope `envId`, in whatever order the database picks. Since every
     * amount is positive the spend only goes down, so the run fails exactly
     * when the final spend would be negative.
     */
    method RefundRows(envId: Id, rows: map<Id, TransactionRow>) returns (raised: Option<Raise>)
      requires envId in envelopes && envelopes[envId].spent <= envelopes[envId].budget
      requires exists k :: k in rows
      requires forall k :: k in rows ==> rows[k].forId == envId && rows[k].amount > 0
      modifies this
      ensures OnlyEnvelopesChanged()
      ensures raised.None? <==> old(envelopes)[envId].spent >= Sum(rows, AmountOf)
      ensures raised.None? ==>
                envelopes == old(envelopes)[envId := old(envelopes)[envId].(spent := old(envelopes)[envId].spent - Sum(rows, AmountOf))]
      ensures raised.Some? ==> raised.value == SpentNegative
    {
      var start := envelopes;
      var spent0 := envelopes[envId].spent;
      var remaining := rows;
      ghost var refunded := 0;
      SumNonNegative(rows, AmountOf);
      raised := None;
      while exists k :: k in remaining
        invariant remaining.Keys <= rows.Keys
        invariant forall k :: k in remaining ==> remaining[k] == rows[k]
        invariant 0 <= Sum(remaining, AmountOf) && refunded + Sum(remaining, AmountOf) == Sum(rows, AmountOf)
        invariant envId in start && spent0 == start[envId].spent <= start[envId].budget && 0 <= refunded
        invariant envelopes == start[envId := start[envId].(spent := spent0 - refunded)]
        invariant (refunded == 0 && remaining == rows) || spent0 - refunded >= 0
        invariant OnlyEnvelopesChanged() && raised.None?
        decreases |remaining|
      {
        var k :| k in remaining;
        var tx := remaining[k];
        SumRemove(remaining, AmountOf, k);
        SumNonNegative(remaining - {k}, AmountOf);
        raised := RefundOne(tx);
        if raised.Some? {
          assert spent0 - refunded < tx.amount;
          assert Sum(rows, AmountOf) >= refunded + tx.amount;
          return;
        }
        refunded := refunded + tx.amount;
        remaining := remaining - {k};
      }
      assert Sum(remaining, AmountOf) == 0;
      var k0 :| k0 in rows;
      assert k0 !in remaining;
    }

    /**
     * `deleteAllTransactions(envId)`: the envelope as `getEnvelopeById`
     * finds it, and a 404 when it has no transactions. Otherwise every row charged to it goes,
     * and when the delete trigger is attached it fires once per row, in an
     * order the database chooses, each time taking that row's amount off
     * the spend; an exception from any of them undoes the whole statement.
     */
    method DeleteAllTransactions(envId: Id) returns (r: Result<map<Id, TransactionRow>, Error>)
      requires Valid()
      modifies this
      ensures Valid()
      ensures old(GetEnvelopeById(envId)).Err? ==> r == Err(old(GetEnvelopeById(envId)).error)
      ensures envId in old(envelopes) && old(RowsFor(envId)) == map[] ==> r == Err(Status(404, NotFound))
      ensures r.Ok? ==> r.value == old(RowsFor(envId)) && r.value != map[]
      ensures r.Ok? ==> transactions == map k | k in old(transactions) && k !in r.value :: old(transactions)[k]
      ensures r.Ok? && !DeleteTriggerAttached() ==> envelopes == old(envelopes)
      ensures r.Ok? && DeleteTriggerAttached() ==>
                envId in old(envelopes)
                && envelopes == old(envelopes)[envId := old(envelopes)[envId].(spent := old(envelopes)[envId].spent - Sum(r.value, AmountOf))]
      ensures envId in old(envelopes) && old(RowsFor(envId)) != map[] ==>
                (r.Ok? <==> !DeleteTriggerAttached() || old(envelopes)[envId].spent >= Sum(old(RowsFor(envId)), AmountOf))
      ensures r.Err? && DeleteTriggerAttached() && envId in old(envelopes) && old(RowsFor(envId)) != map[] ==>
                r == Err(Database(SpentNegative))
      ensures transfers == old(transfers) && CountersKept()
      ensures r.Err? ==> NothingChanged()
    {
      var env := GetEnvelopeById(envId);
      if env.Err? {
        return Err(env.error);
      }
      var rows := RowsFor(envId);
      if forall k :: k !in rows {
        assert rows == map[];
        return Err(Status(404, NotFound));
      }
      var envSnapshot, txSnapshot := envelopes, transactions;
      transactions := map k | k in transactions && k !in rows :: transactions[k];
      if DeleteTriggerAttached() {
        var raised := RefundRows(envId, rows);
        if raised.Some? {
          envelopes, transactions := envSnapshot, txSnapshot;
          return Err(Database(raised.value));
        }
        SumNonNegative(rows, AmountOf);
      }
      r := Ok(rows);
    }
  

    /** `name.length` as JavaScript reads it on a string or an array. */
    static function LengthOf(v: JsValue): nat {
      if v.Str? then |v.s| else if v.Arr? then |v.elems| else 0
    }

    /**
     * The checks `createTransaction` makes before it looks the envelope up:
     * `Number(for_id)` and `Number(amount)` must be non-negative, and the
     * name a non-empty string. An array of strings also passes the name
     * check (each element is checked, and the length test is the array's).
     */
    static function TransactionArguments(forIdV: JsValue, amountV: JsValue, nameV: JsValue): (r: Result<(Id, int, string), Error>)
      ensures !(NonNegative(forIdV) && NonNegative(amountV)) ==> r == Err(Status(400, CheckFailed))
      ensures r.Ok? <==> NonNegative(forIdV) && NonNegative(amountV)
                         && Check(nameV, Some(400), Some(TString), Some(LengthOf(nameV) > 0)).Ok?
      ensures nameV.Str? ==> (r.Ok? <==> NonNegative(forIdV) && NonNegative(amountV) && |nameV.s| > 0)
      ensures r.Ok? ==> r.value == (ToNumber(forIdV).n, ToNumber(amountV).n, SqlText(nameV).value)
      ensures r.Ok? ==> r.value.0 >= 0 && r.value.1 >= 0
    {
      var forIdN, amountN := ToNumber(forIdV), ToNumber(amountV);
      var custom := Some(NonNegative(forIdN) && NonNegative(amountN));
      var typed := Check(Arr([forIdN, amountN]), Some(400), Some(TNumber), custom);
      CheckPair(forIdN, amountN, Some(400), Some(TNumber), custom);
      if typed.Err? then Err(typed.error)
      else
        var named := Check(nameV, Some(400), Some(TString), Some(LengthOf(nameV) > 0));
        if named.Err? then Err(named.error)
        else Ok((forIdN.n, amountN.n, SqlText(nameV).value))
    }

    /**
     * `createTransaction(for_id, amount, name)`: after the checks the
     * envelope is looked up as `getEnvelopeById` does. The INSERT then binds
     * the amount as INTEGER, draws the SERIAL default, and
     * `make_transaction_func` charges the amount; the CHECK (amount > 0),
     * tested after the trigger, can still undo the statement.
     */
    method CreateTransaction(forIdV: JsValue, amountV: JsValue, nameV: JsValue, today: Timestamp)
      returns (r: Result<TransactionView, Error>)
      requires Valid()
      modifies this
      ensures Valid()
      ensures TransactionArguments(forIdV, amountV, nameV).Err? ==> r == Err(TransactionArguments(forIdV, amountV, nameV).error)
      ensures TransactionArguments(forIdV, amountV, nameV).Ok? ==>
                var (forId, amount, _) := TransactionArguments(forIdV, amountV, nameV).value;
                && (old(GetEnvelopeById(forId)).Err? ==> r == Err(old(GetEnvelopeById(forId)).error))
                && (forId in old(envelopes) && !IsInteger(amount) ==> r == Err(Database(IntegerOutOfRange)))
                && (forId in old(envelopes) && IsInteger(amount) && old(nextTransactionId) > MaxInteger
                    ==> r == Err(Database(SequenceExhausted)))
      ensures r.Ok? <==>
                && TransactionArguments(forIdV, amountV, nameV).Ok?
                && var (forId, amount, _) := TransactionArguments(forIdV, amountV, nameV).value;
                   && forId in old(envelopes) && IsInteger(amount) && old(nextTransactionId) <= MaxInteger
                   && amount > 0 && MakeTransaction(old(envelopes), TransactionRow(forId, amount, "", today)).Ok?
      ensures r.Ok? ==>
                && var (forId, amount, name) := TransactionArguments(forIdV, amountV, nameV).value;
                   && r.value.id == old(nextTransactionId) && r.value.id !in old(transactions)
                   && r.value.row == TransactionRow(forId, amount, name, today)
                   && r.value.envelopeName == old(envelopes)[forId].name
                   && transactions == old(transactions)[r.value.id := r.value.row]
                   && envelopes == old(envelopes)[forId := old(envelopes)[forId].(spent := old(envelopes)[forId].spent + amount)]
                   && nextTransactionId == old(nextTransactionId) + 1
      ensures transfers == old(transfers)
      ensures nextEnvelopeId == old(nextEnvelopeId) && nextTransferId == old(nextTransferId)
      ensures r.Err? ==> NothingChanged()
    {
      var args := TransactionArguments(forIdV, amountV, nameV);
      if args.Err? {
        return Err(args.error);
      }
      var (forId, amount, name) := args.value;
      var env := GetEnvelopeById(forId);
      if env.Err? {
        return Err(env.error);
      }
      if !IsInteger(amount) {
        return Err(Database(IntegerOutOfRange));
      }
      if nextTransactionId > MaxInteger {
        return Err(Database(SequenceExhausted));
      }
      var tx := TransactionRow(forId, amount, name, today);
      assert MakeTransaction(envelopes, tx) == MakeTransaction(envelopes, tx.(name := ""));
      var snapshot := envelopes;
      var raised := MakeTransactionFunc(tx);
      if raised.Some? {
        envelopes := snapshot;
        return Err(Database(raised.value));
      }
      if amount <= 0 {
        envelopes := snapshot;
        return Err(Database(AmountNotPositive));
      }
      UpdateRowKeepsWithinBudget(snapshot, forId, snapshot[forId].(spent := snapshot[forId].spent + amount));
      var id := nextTransactionId;
      transactions := transactions[id := tx];
      nextTransactionId := nextTransactionId + 1;
      r := Ok(TransactionView(id, tx, env.value.name));
    }
  

    /**
     * The SET list of `updateTransaction`. Only truthy fields are assigned;
     * a truthy `for_id` or `amount` must be a non-negative number (so, being
     * truthy, a positive one). With nothing assigned the statement is
     * `SET  WHERE …`, a syntax error. Binding follows in parameter order,
     * `for_id` before `amount`: an array passing the check is invalid
     * INTEGER input, and a number past the 32-bit range is out of range.
     */
    static function UpdateArguments(nameV: JsValue, amountV: JsValue, forIdV: JsValue): (r: Result<Assignments, Error>)
      ensures Truthy(forIdV) && !IsNumber(forIdV) && !forIdV.Arr? ==> r == Err(Status(400, WrongType))
      ensures Truthy(forIdV) && forIdV.Num? && forIdV.n < 0 ==> r == Err(Status(400, CheckFailed))
      ensures !Truthy(nameV) && !Truthy(amountV) && !Truthy(forIdV) ==> r == Err(Database(SyntaxError))
      ensures r.Ok? <==> && (Truthy(nameV) || Truthy(amountV) || Truthy(forIdV))
                         && (!Truthy(forIdV) || (forIdV.Num? && 0 < forIdV.n <= MaxInteger))
                         && (!Truthy(amountV) || (amountV.Num? && 0 < amountV.n <= MaxInteger))
      ensures Truthy(forIdV) && forIdV.Num? && forIdV.n > MaxInteger
              && (!Truthy(amountV) || (amountV.Num? && amountV.n > 0))
              ==> r == Err(Database(IntegerOutOfRange))
      ensures (!Truthy(forIdV) || (forIdV.Num? && 0 < forIdV.n <= MaxInteger))
              && Truthy(amountV) && amountV.Num? && amountV.n > MaxInteger
              ==> r == Err(Database(IntegerOutOfRange))
      ensures r.Ok? ==> && r.value.name == (if Truthy(nameV) then SqlText(nameV) else None)
                        && r.value.forId == (if Truthy(forIdV) then Some(forIdV.n) else None)
                        && r.value.amount == (if Truthy(amountV) then Some(amountV.n) else None)
    {
      var forIdCheck := Check(forIdV, Some(400), Some(TNumber), Some(NonNegative(forIdV)));
      var amountCheck := Check(amountV, Some(400), Some(TNumber), Some(NonNegative(amountV)));
      if Truthy(forIdV) && forIdCheck.Err? then Err(forIdCheck.error)
      else if Truthy(amountV) && amountCheck.Err? then Err(amountCheck.error)
      else if !Truthy(nameV) && !Truthy(amountV) && !Truthy(forIdV) then Err(Database(SyntaxError))
      else if Truthy(forIdV) && SqlInteger(forIdV).Err? then Err(Database(SqlInteger(forIdV).error))
      else if Truthy(amountV) && SqlInteger(amountV).Err? then Err(Database(SqlInteger(amountV).error))
      else
        Ok(Assignments(if Truthy(nameV) then SqlText(nameV) else None,
                       if Truthy(forIdV) then Some(forIdV.n) else None,
                       if Truthy(amountV) then Some(amountV.n) else None))
    }

    /** The row an UPDATE with SET list `a` proposes for `row`. */
    static function Assign(row: TransactionRow, a: Assignments): (r: TransactionRow)
      ensures r.date == row.date
      ensures r.name == (if a.name.Some? then a.name.value else row.name)
      ensures r.forId == (if a.forId.Some? then a.forId.value else row.forId)
      ensures r.amount == (if a.amount.Some? then a.amount.value else row.amount)
    {
      TransactionRow(if a.forId.Some? then a.forId.value else row.forId,
                     if a.amount.Some? then a.amount.value else row.amount,
                     if a.name.Some? then a.name.value else row.name,
                     row.date)
    }

    /**
     * `updateTransaction(id, body)`: after the SET list is built, the id
     * is bound last, so one outside INTEGER fails then; a missing row
     * matches nothing and nothing comes back. Otherwise
     * `on_transaction_update` runs on the proposed row: the target
     * envelope's spend BECOMES the row's amount, and the old envelope, when
     * the row moves, loses the NEW amount.
     */
    method UpdateTransaction(txId: Id, nameV: JsValue, amountV: JsValue, forIdV: JsValue, today: Timestamp)
      returns (r: Result<Option<TransactionRow>, Error>)
      requires Valid()
      modifies this
      ensures Valid()
      ensures UpdateArguments(nameV, amountV, forIdV).Err? ==> r == Err(UpdateArguments(nameV, amountV, forIdV).error)
      ensures UpdateArguments(nameV, amountV, forIdV).Ok? && !IsInteger(txId) ==> r == Err(Database(IntegerOutOfRange))
      ensures UpdateArguments(nameV, amountV, forIdV).Ok? && IsInteger(txId) && txId !in old(transactions) ==> r == Ok(None)
      ensures UpdateArguments(nameV, amountV, forIdV).Ok? && txId in old(transactions) ==>
                var proposed := Assign(old(transactions)[txId], UpdateArguments(nameV, amountV, forIdV).value);
                && (r.Ok? <==> OnTransactionUpdate(old(envelopes), old(transactions)[txId], proposed, today).Ok?)
                && (r.Ok? ==> r == Ok(Some(proposed.(date := today))))
      ensures r.Ok? && r.value.Some? ==>
                && txId in old(transactions)
                && UpdateArguments(nameV, amountV, forIdV).Ok?
                && var proposed := Assign(old(transactions)[txId], UpdateArguments(nameV, amountV, forIdV).value);
                   && OnTransactionUpdate(old(envelopes), old(transactions)[txId], proposed, today).Ok?
                   && (envelopes, r.value.value) == OnTransactionUpdate(old(envelopes), old(transactions)[txId], proposed, today).value
                   && r.value.value == proposed.(date := today)
                   && transactions == old(transactions)[txId := r.value.value]
      ensures r.Ok? && r.value.Some? ==> envelopes[r.value.value.forId].spent == r.value.value.amount
      ensures transfers == old(transfers) && CountersKept()
      ensures !(r.Ok? && r.value.Some?) ==> NothingChanged()
    {
      var args := UpdateArguments(nameV, amountV, forIdV);
      if args.Err? {
        return Err(args.error);
      }
      if !IsInteger(txId) {
        return Err(Database(IntegerOutOfRange));
      }
      if txId !in transactions {
        return Ok(None);
      }
      var oldTx := transactions[txId];
      var proposed := Assign(oldTx, args.value);
      var snapshot := envelopes;
      var raised, stamped := OnTransactionUpdateFunc(oldTx, proposed, today);
      if raised.Some? {
        envelopes := snapshot;
        return Err(Database(raised.value));
      }
      UpdateKeepsWithinBudget(snapshot, oldTx, proposed, today);
      // The stamped row passes CHECK (amount > 0) and its foreign key: a new
      // amount is positive, and the trigger found the target envelope.
      transactions := transactions[txId := stamped];
      r := Ok(Some(stamped));
    }
  }
}
