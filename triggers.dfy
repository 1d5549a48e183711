/**
 * The balance rules of back-end/src/initDB.ts: what each plpgsql trigger
 * procedure does to the envelopes table, as a function from the table
 * before to the table after (or the exception it raises), and which
 * triggers the installation blocks attach.
 */
module Triggers {
  import opened Wrappers
  import opened Errors
  import opened Schema

  /** Every envelope's spend is within its budget. */
  ghost predicate WithinBudget(envs: Envelopes) {
    forall k :: k in envs ==> envs[k].spent <= envs[k].budget
  }

  /**
   * `before_update_envelope_func`, fired for every row an UPDATE of
   * `envelopes` writes: it accepts exactly the rows that keep
   * `0 <= spent <= budget` and whose budget does not drop below the old
   * spend, and names the first rule that fails.
   */
  function BeforeUpdateEnvelope(oldRow: EnvelopeRow, newRow: EnvelopeRow): (r: Option<Raise>)
    ensures r.None? <==> 0 <= newRow.spent <= newRow.budget && oldRow.spent <= newRow.budget
    ensures newRow.spent < 0 ==> r == Some(SpentNegative)
  {
    if newRow.spent < 0 then Some(SpentNegative)
    else if newRow.spent > newRow.budget then Some(SpentExceedsBudget)
    else if newRow.budget < oldRow.spent then Some(BudgetBelowSpent)
    else None
  }

  /**
   * `UPDATE envelopes SET … WHERE id = k` writing `row`: no row matches
   * when `k` is absent; otherwise the before-update trigger decides.
   */
  function UpdateRow(envs: Envelopes, k: Id, row: EnvelopeRow): (r: Result<Envelopes, Raise>)
    ensures k !in envs ==> r == Ok(envs)
    ensures k in envs ==> (r.Ok? <==> BeforeUpdateEnvelope(envs[k], row).None?)
    ensures r.Ok? && k in envs ==> r.value == envs[k := row]
    ensures r.Err? ==> r.error == BeforeUpdateEnvelope(envs[k], row).value
  {
    if k !in envs then Ok(envs)
    else
      var check := BeforeUpdateEnvelope(envs[k], row);
      if check.Some? then Err(check.value) else Ok(envs[k := row])
  }

  /** An accepted row update never breaks the budget rule. */
  lemma {:induction false} UpdateRowKeepsWithinBudget(envs: Envelopes, k: Id, row: EnvelopeRow)
    requires WithinBudget(envs)
    requires UpdateRow(envs, k, row).Ok?
    ensures WithinBudget(UpdateRow(envs, k, row).value)
  {
  }

  /**
   * `make_transfer_func`, fired before a transfer row is inserted: when
   * the source envelope has at least `amount` available it takes `amount`
   * off its budget and adds it to the target's budget (two UPDATEs, each
   * checked by the before-update trigger); otherwise it raises.
   */
  function MakeTransfer(envs: Envelopes, t: TransferRow): (r: Result<Envelopes, Raise>)
    ensures r.Ok? ==> t.from in envs && envs[t.from].Available() >= t.amount
    ensures r.Ok? ==> r.value.Keys == envs.Keys
    ensures r.Ok? ==> forall k :: k in envs ==> (r.value[k].spent == envs[k].spent
                                               && r.value[k].name == envs[k].name
                                               && r.value[k].createdAt == envs[k].createdAt)
    ensures r.Ok? ==> forall k :: k in envs && k != t.from && k != t.to ==> r.value[k] == envs[k]
    ensures r.Ok? && t.from != t.to ==> r.value[t.from].budget == envs[t.from].budget - t.amount
    ensures r.Ok? && t.from != t.to && t.to in envs ==> r.value[t.to].budget == envs[t.to].budget + t.amount
    ensures r.Ok? && t.from == t.to ==> r.value == envs
    ensures (t.from !in envs || envs[t.from].Available() < t.amount) ==> r == Err(NotEnoughBudget)
  {
    if t.from in envs && envs[t.from].budget - envs[t.from].spent >= t.amount then
      var f := envs[t.from];
      var debit := UpdateRow(envs, t.from, f.(budget := f.budget - t.amount));
      if debit.Err? then Err(debit.error)
      else
        var e1 := debit.value;
        if t.to in e1 then
          var credit := UpdateRow(e1, t.to, e1[t.to].(budget := e1[t.to].budget + t.amount));
          assert t.from == t.to && credit.Ok? ==> credit.value == envs;
          credit
        else Ok(e1)
    else Err(NotEnoughBudget)
  }

  /**
   * For two existing envelopes in a consistent table (spend within budget,
   * never negative) and a positive amount, the transfer goes through
   * exactly when the source has the amount available.
   */
  lemma {:induction false} TransferAcceptedIffAvailable(envs: Envelopes, t: TransferRow)
    requires WithinBudget(envs)
    requires t.from in envs && t.to in envs && t.amount > 0
    requires envs[t.from].spent >= 0 && envs[t.to].spent >= 0
    ensures MakeTransfer(envs, t).Ok? <==> envs[t.from].Available() >= t.amount
  {
    if envs[t.from].Available() >= t.amount {
      var f := envs[t.from];
      var e1 := envs[t.from := f.(budget := f.budget - t.amount)];
      assert UpdateRow(envs, t.from, f.(budget := f.budget - t.amount)) == Ok(e1);
      assert BeforeUpdateEnvelope(e1[t.to], e1[t.to].(budget := e1[t.to].budget + t.amount)).None?;
    }
  }

  /**
   * A transfer between two existing envelopes that the trigger lets
   * through neither creates nor destroys budget.
   */
  lemma {:induction false} TransferConservesTotalBudget(envs: Envelopes, t: TransferRow)
    requires t.to in envs
    requires MakeTransfer(envs, t).Ok?
    ensures TotalBudget(MakeTransfer(envs, t).value) == TotalBudget(envs)
  {
    var f := envs[t.from];
    var e1 := envs[t.from := f.(budget := f.budget - t.amount)];
    assert UpdateRow(envs, t.from, f.(budget := f.budget - t.amount)) == Ok(e1);
    SumUpdate(envs, BudgetOf, t.from, f.(budget := f.budget - t.amount));
    if t.to in e1 {
      var g := e1[t.to].(budget := e1[t.to].budget + t.amount);
      assert MakeTransfer(envs, t).value == e1[t.to := g];
      SumUpdate(e1, BudgetOf, t.to, g);
    }
  }

  /** Transfers keep every spend within its budget. */
  lemma {:induction false} TransferKeepsWithinBudget(envs: Envelopes, t: TransferRow)
    requires WithinBudget(envs)
    requires MakeTransfer(envs, t).Ok?
    ensures WithinBudget(MakeTransfer(envs, t).value)
  {
    var f := envs[t.from];
    var e1 := envs[t.from := f.(budget := f.budget - t.amount)];
    UpdateRowKeepsWithinBudget(envs, t.from, f.(budget := f.budget - t.amount));
    if t.to in e1 {
      UpdateRowKeepsWithinBudget(e1, t.to, e1[t.to].(budget := e1[t.to].budget + t.amount));
    }
  }

  /**
   * `make_transaction_func`, fired before a transaction row is inserted:
   * when the envelope's budget covers its spend plus `amount` it adds
   * `amount` to the spend; otherwise it raises.
   */
  function MakeTransaction(envs: Envelopes, tx: TransactionRow): (r: Result<Envelopes, Raise>)
    ensures r.Ok? ==> tx.forId in envs && envs[tx.forId].budget >= envs[tx.forId].spent + tx.amount
    ensures r.Ok? ==> r.value == envs[tx.forId := envs[tx.forId].(spent := envs[tx.forId].spent + tx.amount)]
    ensures (tx.forId !in envs || envs[tx.forId].budget < envs[tx.forId].spent + tx.amount) ==> r == Err(NotEnoughBudget)
  {
    if tx.forId in envs && envs[tx.forId].budget >= tx.amount + envs[tx.forId].spent then
      UpdateRow(envs, tx.forId, envs[tx.forId].(spent := envs[tx.forId].spent + tx.amount))
    else Err(NotEnoughBudget)
  }

  /**
   * For an existing envelope whose spend is not negative and a
   * non-negative amount, the insert goes through exactly when the budget
   * covers the spend plus the amount.
   */
  lemma {:induction false} TransactionAcceptedIffCovered(envs: Envelopes, tx: TransactionRow)
    requires tx.forId in envs && envs[tx.forId].spent >= 0 && tx.amount >= 0
    ensures MakeTransaction(envs, tx).Ok? <==> envs[tx.forId].budget >= envs[tx.forId].spent + tx.amount
  {
    var e := envs[tx.forId];
    if e.budget >= e.spent + tx.amount {
      assert BeforeUpdateEnvelope(e, e.(spent := e.spent + tx.amount)).None?;
    }
  }

  /**
   * `on_transaction_delete`, fired after a transaction row is deleted:
   * takes the row's amount off its envelope's spend (no change when the
   * envelope is gone).
   */
  function OnTransactionDelete(envs: Envelopes, tx: TransactionRow): (r: Result<Envelopes, Raise>)
    ensures tx.forId !in envs ==> r == Ok(envs)
    ensures r.Ok? && tx.forId in envs ==> r.value == envs[tx.forId := envs[tx.forId].(spent := envs[tx.forId].spent - tx.amount)]
    ensures tx.forId in envs && envs[tx.forId].spent - tx.amount < 0 ==> r == Err(SpentNegative)
  {
    if tx.forId in envs then
      UpdateRow(envs, tx.forId, envs[tx.forId].(spent := envs[tx.forId].spent - tx.amount))
    else Ok(envs)
  }

  /**
   * Giving a positive amount back to an envelope whose spend is within its
   * budget fails only when the spend would go negative.
   */
  lemma {:induction false} RefundFailsOnlyBelowZero(envs: Envelopes, tx: TransactionRow)
    requires tx.forId in envs && envs[tx.forId].spent <= envs[tx.forId].budget && tx.amount > 0
    ensures OnTransactionDelete(envs, tx).Ok? <==> envs[tx.forId].spent >= tx.amount
    ensures OnTransactionDelete(envs, tx).Err? ==> OnTransactionDelete(envs, tx).error == SpentNegative
  {
    var e := envs[tx.forId];
    assert BeforeUpdateEnvelope(e, e.(spent := e.spent - tx.amount)).Some? <==> e.spent - tx.amount < 0;
  }

  /**
   * Deleting a transaction undoes inserting it: starting from an envelope
   * whose spend is not negative, the delete procedure applied after the
   * insert procedure gives back the table as it was.
   */
  lemma {:induction false} DeleteUndoesInsert(envs: Envelopes, tx: TransactionRow)
    requires MakeTransaction(envs, tx).Ok?
    requires envs[tx.forId].spent >= 0 && tx.amount >= 0
    ensures OnTransactionDelete(MakeTransaction(envs, tx).value, tx) == Ok(envs)
  {
    var e := envs[tx.forId];
    var after := MakeTransaction(envs, tx).value;
    assert after[tx.forId] == e.(spent := e.spent + tx.amount);
    assert BeforeUpdateEnvelope(after[tx.forId], e).None?;
    assert after[tx.forId := e] == envs;
  }

  /**
   * `on_transaction_update`, fired before a transaction row is updated from
   * `oldTx` to `newTx`. It reads the target envelope (`newTx.forId`), takes
   * `newTx.amount` (not the old amount) off the old envelope's spend when the
   * envelope changes, and then, if `0 <= newTx.amount <= target budget`, SETS
   * the target's spend to `newTx.amount` and stamps the row with `today`;
   * otherwise it raises.
   */
  function OnTransactionUpdate(envs: Envelopes, oldTx: TransactionRow, newTx: TransactionRow, today: Timestamp)
    : (r: Result<(Envelopes, TransactionRow), Raise>)
    ensures r.Ok? ==> newTx.forId in envs && 0 <= newTx.amount <= envs[newTx.forId].budget
    ensures r.Ok? ==> r.value.1 == newTx.(date := today)
    ensures r.Ok? ==> r.value.0.Keys == envs.Keys
    ensures r.Ok? ==> r.value.0[newTx.forId] == envs[newTx.forId].(spent := newTx.amount)
    ensures r.Ok? && oldTx.forId != newTx.forId && oldTx.forId in envs
            ==> r.value.0[oldTx.forId] == envs[oldTx.forId].(spent := envs[oldTx.forId].spent - newTx.amount)
    ensures r.Ok? ==> forall k :: k in envs && k != oldTx.forId && k != newTx.forId ==> r.value.0[k] == envs[k]
    ensures r.Ok? ==> forall k :: k in envs ==> r.value.0[k].budget == envs[k].budget
  {
    var envBudget := if newTx.forId in envs then Some(envs[newTx.forId].budget) else None;
    var envSpent := newTx.amount;
    var moved :=
      if oldTx.forId != newTx.forId && oldTx.forId in envs
      then UpdateRow(envs, oldTx.forId, envs[oldTx.forId].(spent := envs[oldTx.forId].spent - newTx.amount))
      else Ok(envs);
    if moved.Err? then Err(moved.error)
    else if envBudget.Some? && envSpent <= envBudget.value && envSpent >= 0 then
      var e1 := moved.value;
      var written := UpdateRow(e1, newTx.forId, e1[newTx.forId].(spent := envSpent));
      if written.Err? then Err(written.error) else Ok((written.value, newTx.(date := today)))
    else Err(NotEnoughBudgetOnUpdate)
  }

  /**
   * In a consistent table, an update is accepted exactly when the new
   * amount lies between 0 and the target's budget and, when the envelope
   * changes, the old envelope's spend covers the new amount.
   */
  lemma {:induction false} UpdateAcceptedIff(envs: Envelopes, oldTx: TransactionRow, newTx: TransactionRow, today: Timestamp)
    requires WithinBudget(envs)
    requires newTx.forId in envs
    ensures OnTransactionUpdate(envs, oldTx, newTx, today).Ok? <==>
              0 <= newTx.amount <= envs[newTx.forId].budget
              && (oldTx.forId == newTx.forId || oldTx.forId !in envs || envs[oldTx.forId].spent >= newTx.amount)
  {
    if 0 <= newTx.amount <= envs[newTx.forId].budget
       && (oldTx.forId == newTx.forId || oldTx.forId !in envs || envs[oldTx.forId].spent >= newTx.amount) {
      var e1 := if oldTx.forId != newTx.forId && oldTx.forId in envs
                then envs[oldTx.forId := envs[oldTx.forId].(spent := envs[oldTx.forId].spent - newTx.amount)]
                else envs;
      if oldTx.forId != newTx.forId && oldTx.forId in envs {
        assert BeforeUpdateEnvelope(envs[oldTx.forId], envs[oldTx.forId].(spent := envs[oldTx.forId].spent - newTx.amount)).None?;
      }
      assert e1[newTx.forId] == envs[newTx.forId];
      assert BeforeUpdateEnvelope(e1[newTx.forId], e1[newTx.forId].(spent := newTx.amount)).None?;
    }
  }

  /** Transaction updates keep every spend within its budget. */
  lemma {:induction false} UpdateKeepsWithinBudget(envs: Envelopes, oldTx: TransactionRow, newTx: TransactionRow, today: Timestamp)
    requires WithinBudget(envs)
    requires OnTransactionUpdate(envs, oldTx, newTx, today).Ok?
    ensures WithinBudget(OnTransactionUpdate(envs, oldTx, newTx, today).value.0)
  {
    var e1 := if oldTx.forId != newTx.forId && oldTx.forId in envs
              then envs[oldTx.forId := envs[oldTx.forId].(spent := envs[oldTx.forId].spent - newTx.amount)]
              else envs;
    if oldTx.forId != newTx.forId && oldTx.forId in envs {
      UpdateRowKeepsWithinBudget(envs, oldTx.forId, envs[oldTx.forId].(spent := envs[oldTx.forId].spent - newTx.amount));
    }
    UpdateRowKeepsWithinBudget(e1, newTx.forId, e1[newTx.forId].(spent := newTx.amount));
  }

  /**
   * The update procedure is not "delete the old row, insert the new one".
   * When a transaction stays in its envelope, whose spend is `s`, and its
   * amount goes from `a` to `b`, the update leaves the spend at `b`, while
   * the delete trigger followed by the insert trigger would leave `s - a + b`.
   * The two agree exactly when the row was the envelope's whole spend.
   */
  lemma UpdateIsNotDeleteThenInsert(envs: Envelopes, oldTx: TransactionRow, newTx: TransactionRow, today: Timestamp)
    requires oldTx.forId == newTx.forId && newTx.forId in envs
    requires OnTransactionUpdate(envs, oldTx, newTx, today).Ok?
    requires OnTransactionDelete(envs, oldTx).Ok?
    requires MakeTransaction(OnTransactionDelete(envs, oldTx).value, newTx).Ok?
    ensures OnTransactionUpdate(envs, oldTx, newTx, today).value.0[newTx.forId].spent == newTx.amount
    ensures MakeTransaction(OnTransactionDelete(envs, oldTx).value, newTx).value[newTx.forId].spent
            == envs[newTx.forId].spent - oldTx.amount + newTx.amount
    ensures OnTransactionUpdate(envs, oldTx, newTx, today).value.0 == MakeTransaction(OnTransactionDelete(envs, oldTx).value, newTx).value
            <==> envs[newTx.forId].spent == oldTx.amount
  {
  }

  /** The triggers the installation blocks of initDB can attach. */
  datatype TriggerName =
    | MakeTransferTrigger
    | BeforeUpdateEnvelopeTrigger
    | MakeTransactionTrigger
    | TransactionDeleteTrigger
    | OnTransactionUpdateTrigger

  /** One `DO $$ … IF NOT EXISTS (… tgname = guard) THEN CREATE TRIGGER created …` block. */
  function InstallIfAbsent(existing: set<TriggerName>, guard: TriggerName, created: TriggerName): set<TriggerName> {
    if guard in existing then existing else existing + {created}
  }

  /**
   * The five installation blocks in order, as written: the block that
   * creates `transaction_delete_trigger` tests for `make_transaction_trigger`,
   * which the block before it has just made sure exists.
   */
  function InstallTriggers(existing: set<TriggerName>): set<TriggerName> {
    var s1 := InstallIfAbsent(existing, MakeTransferTrigger, MakeTransferTrigger);
    var s2 := InstallIfAbsent(s1, BeforeUpdateEnvelopeTrigger, BeforeUpdateEnvelopeTrigger);
    var s3 := InstallIfAbsent(s2, MakeTransactionTrigger, MakeTransactionTrigger);
    var s4 := InstallIfAbsent(s3, MakeTransactionTrigger, TransactionDeleteTrigger);
    InstallIfAbsent(s4, OnTransactionUpdateTrigger, OnTransactionUpdateTrigger)
  }

  /** The installation blocks with the delete block testing its own trigger's name. */
  function InstallTriggersFixed(existing: set<TriggerName>): set<TriggerName> {
    var s1 := InstallIfAbsent(existing, MakeTransferTrigger, MakeTransferTrigger);
    var s2 := InstallIfAbsent(s1, BeforeUpdateEnvelopeTrigger, BeforeUpdateEnvelopeTrigger);
    var s3 := InstallIfAbsent(s2, MakeTransactionTrigger, MakeTransactionTrigger);
    var s4 := InstallIfAbsent(s3, TransactionDeleteTrigger, TransactionDeleteTrigger);
    InstallIfAbsent(s4, OnTransactionUpdateTrigger, OnTransactionUpdateTrigger)
  }

  /** The four other triggers are always there after initialisation. */
  ghost predicate BalanceTriggersAttached(installed: set<TriggerName>) {
    {MakeTransferTrigger, BeforeUpdateEnvelopeTrigger, MakeTransactionTrigger, OnTransactionUpdateTrigger} <= installed
  }

  /**
   * As written, initialisation never attaches the delete trigger: it is
   * attached afterwards exactly when it already was before.
   */
  lemma {:induction false} InstallNeverAttachesDeleteTrigger(existing: set<TriggerName>)
    ensures BalanceTriggersAttached(InstallTriggers(existing))
    ensures TransactionDeleteTrigger in InstallTriggers(existing) <==> TransactionDeleteTrigger in existing
  {
  }

  /** With the guard corrected, initialisation attaches all five triggers. */
  lemma {:induction false} InstallFixedAttachesAll(existing: set<TriggerName>)
    ensures BalanceTriggersAttached(InstallTriggersFixed(existing))
    ensures TransactionDeleteTrigger in InstallTriggersFixed(existing)
  {
  }
}
