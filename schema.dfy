/**
 * The three tables of the ledger, and sums over their rows. The envelopes
 * and transfers tables are those back-end/src/initDB.ts creates. The
 * transactions table has the `for_id` and `name` columns that the queries
 * and the triggers use; the table initDB.ts creates has `"for"` instead and
 * no `name`.
 */
module Schema {

  /** A SERIAL primary key. */
  type Id = int

  /** The range of PostgreSQL's 32-bit `INTEGER`, which SERIAL ids also use. */
  const MinInteger: int := -0x8000_0000
  const MaxInteger: int := 0x7fff_ffff

  predicate IsInteger(n: int) {
    MinInteger <= n <= MaxInteger
  }

  /** A `TIMESTAMP` or `CURRENT_DATE` value, opaque to the ledger. */
  type Timestamp = int

  /** A row of `envelopes` (its key is the row's id). NUMERIC is modelled as `int`. */
  datatype EnvelopeRow = EnvelopeRow(name: string, budget: int, spent: int, createdAt: Timestamp) {
    /** What can still be spent or transferred out. */
    function Available(): int { budget - spent }
  }

  /** A row of `transfers`: `amount` moved from envelope `from` to envelope `to`. */
  datatype TransferRow = TransferRow(amount: int, date: Timestamp, to: Id, from: Id)

  /** A row of `transactions`: `amount` spent from envelope `forId`. */
  datatype TransactionRow = TransactionRow(forId: Id, amount: int, name: string, date: Timestamp)

  type Envelopes = map<Id, EnvelopeRow>

  function BudgetOf(e: EnvelopeRow): int { e.budget }

  function AmountOf(t: TransactionRow): int { t.amount }

  /** The sum of `f` over the rows of a table. */
  ghost function Sum<V>(m: map<Id, V>, f: V -> int): int
    decreases m.Keys
  {
    if forall k :: k !in m then 0
    else
      var k :| k in m;
      f(m[k]) + Sum(m - {k}, f)
  }

  /** The sum does not depend on which row is taken first. */
  lemma {:induction false} SumRemove<V>(m: map<Id, V>, f: V -> int, k: Id)
    requires k in m
    ensures Sum(m, f) == f(m[k]) + Sum(m - {k}, f)
    decreases m.Keys
  {
    var j :| j in m && Sum(m, f) == f(m[j]) + Sum(m - {j}, f);
    if j != k {
      SumRemove(m - {j}, f, k);
      SumRemove(m - {k}, f, j);
      assert (m - {j}) - {k} == (m - {k}) - {j};
    }
  }

  /** Replacing one row changes the sum by the difference of the two rows. */
  lemma {:induction false} SumUpdate<V>(m: map<Id, V>, f: V -> int, k: Id, v: V)
    requires k in m
    ensures Sum(m[k := v], f) == Sum(m, f) - f(m[k]) + f(v)
  {
    SumRemove(m, f, k);
    SumRemove(m[k := v], f, k);
    assert m[k := v] - {k} == m - {k};
  }

  /** Adding a row under a new key adds its value. */
  lemma {:induction false} SumInsert<V>(m: map<Id, V>, f: V -> int, k: Id, v: V)
    requires k !in m
    ensures Sum(m[k := v], f) == Sum(m, f) + f(v)
  {
    SumRemove(m[k := v], f, k);
    assert m[k := v] - {k} == m;
  }

  lemma {:induction false} SumNonNegative<V>(m: map<Id, V>, f: V -> int)
    requires forall k :: k in m ==> f(m[k]) >= 0
    ensures Sum(m, f) >= 0
    decreases m.Keys
  {
    if exists k :: k in m {
      var k :| k in m;
      SumRemove(m, f, k);
      SumNonNegative(m - {k}, f);
    }
  }

  /** The sum of all budgets. */
  ghost function TotalBudget(envs: Envelopes): int {
    Sum(envs, BudgetOf)
  }
}
