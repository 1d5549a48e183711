/**
 * The input validators of back-end/src/queries.ts: the recursive `check`
 * and `parseEnvelope`. Both either throw or hand back their input.
 */
module Validation {
  import opened Wrappers
  import opened JsValues
  import opened Errors

  /** `errorStatusCode || 400`. */
  function StatusOr400(code: Option<int>): int {
    if code.Some? && code.value != 0 then code.value else 400
  }

  /**
   * The checks `check` applies to a value that is not an array. `custom`
   * is the result of the caller's `customCheck` closure (which takes no
   * argument), `None` when no closure was passed.
   */
  function LeafCheck(v: JsValue, status: Option<int>, expected: Option<JsType>, custom: Option<bool>): Option<Error>
    requires !v.Arr?
  {
    if v.Undefined? then Some(Status(StatusOr400(status), ValueUndefined))
    else if expected.None? then None
    else if TypeOf(v) != expected.value then Some(Status(StatusOr400(status), WrongType))
    else if custom == Some(false) then Some(Status(StatusOr400(status), CheckFailed))
    else None
  }

  function ErrorOf(r: Result<JsValue, Error>): Option<Error> {
    if r.Err? then Some(r.error) else None
  }

  /**
   * `check(value, message, status, expectedType, customCheck)`: an array
   * passes when each element passes, in order, and the first failing
   * element's error is thrown; any other value fails when undefined, when
   * its type differs from a given expected type, or when the custom check
   * returns false. A value that passes is returned unchanged.
   */
  function Check(v: JsValue, status: Option<int>, expected: Option<JsType>, custom: Option<bool>): (r: Result<JsValue, Error>)
    ensures r.Ok? ==> r.value == v
    ensures v.Arr? ==> (r.Ok? <==> forall i :: 0 <= i < |v.elems| ==> Check(v.elems[i], status, expected, custom).Ok?)
    ensures !v.Arr? ==> (r.Ok? <==> !v.Undefined? && (expected.None? || (TypeOf(v) == expected.value && custom != Some(false))))
    ensures r.Err? ==> r.error.Status? && r.error.code == StatusOr400(status)
    ensures r.Err? ==> r.error.cause in {ValueUndefined, WrongType, CheckFailed}
    ensures !v.Arr? && r.Err? ==> Some(r.error) == LeafCheck(v, status, expected, custom)
    decreases v, 1
  {
    CheckFrom(v, 0, status, expected, custom)
  }

  /** The `forEach` of `check` over an array, from element `k` on. */
  function CheckFrom(v: JsValue, k: nat, status: Option<int>, expected: Option<JsType>, custom: Option<bool>): (r: Result<JsValue, Error>)
    ensures r.Ok? ==> r.value == v
    ensures v.Arr? ==> (r.Ok? <==> forall i :: k <= i < |v.elems| ==> Check(v.elems[i], status, expected, custom).Ok?)
    ensures !v.Arr? ==> (r.Ok? <==> !v.Undefined? && (expected.None? || (TypeOf(v) == expected.value && custom != Some(false))))
    ensures r.Err? ==> r.error.Status? && r.error.code == StatusOr400(status)
    ensures r.Err? ==> r.error.cause in {ValueUndefined, WrongType, CheckFailed}
    ensures !v.Arr? && r.Err? ==> Some(r.error) == LeafCheck(v, status, expected, custom)
    decreases v, 0, if v.Arr? then |v.elems| - k else 0
  {
    match v
    case Arr(elems) =>
      if k >= |elems| then Ok(v)
      else
        var head := Check(elems[k], status, expected, custom);
        if head.Err? then Err(head.error) else CheckFrom(v, k + 1, status, expected, custom)
    case _ =>
      var e := LeafCheck(v, status, expected, custom);
      if e.Some? then Err(e.value) else Ok(v)
  }

  /** The non-array values inside `v`, depth first, left to right. */
  function Leaves(v: JsValue): (r: seq<JsValue>)
    ensures forall i :: 0 <= i < |r| ==> !r[i].Arr?
    decreases v, 1
  {
    LeavesFrom(v, 0)
  }

  /** The leaves of the elements of `v` from `k` on (of `v` itself when it is no array). */
  function LeavesFrom(v: JsValue, k: nat): (r: seq<JsValue>)
    ensures forall i :: 0 <= i < |r| ==> !r[i].Arr?
    decreases v, 0, if v.Arr? then |v.elems| - k else 0
  {
    match v
    case Arr(elems) => if k >= |elems| then [] else Leaves(elems[k]) + LeavesFrom(v, k + 1)
    case _ => [v]
  }

  /** The outcome of the leaf checks over a sequence of non-array values. */
  function FirstLeafError(leaves: seq<JsValue>, status: Option<int>, expected: Option<JsType>, custom: Option<bool>): Option<Error>
    requires forall i :: 0 <= i < |leaves| ==> !leaves[i].Arr?
  {
    if leaves == [] then None
    else if LeafCheck(leaves[0], status, expected, custom).Some? then LeafCheck(leaves[0], status, expected, custom)
    else FirstLeafError(leaves[1..], status, expected, custom)
  }

  lemma {:induction false} FirstLeafErrorAppend(a: seq<JsValue>, b: seq<JsValue>, status: Option<int>, expected: Option<JsType>, custom: Option<bool>)
    requires forall i :: 0 <= i < |a| ==> !a[i].Arr?
    requires forall i :: 0 <= i < |b| ==> !b[i].Arr?
    ensures FirstLeafError(a + b, status, expected, custom)
         == if FirstLeafError(a, status, expected, custom).Some? then FirstLeafError(a, status, expected, custom)
            else FirstLeafError(b, status, expected, custom)
  {
    if a != [] {
      assert (a + b)[1..] == a[1..] + b;
      FirstLeafErrorAppend(a[1..], b, status, expected, custom);
    } else {
      assert a + b == b;
    }
  }

  /**
   * What `check` throws on a nested array is the error of the first
   * failing value in depth-first order: the recursion through `forEach`
   * amounts to one pass over the leaves.
   */
  lemma {:induction false} CheckIsFirstLeafError(v: JsValue, status: Option<int>, expected: Option<JsType>, custom: Option<bool>)
    ensures ErrorOf(Check(v, status, expected, custom)) == FirstLeafError(Leaves(v), status, expected, custom)
    decreases v, 1
  {
    CheckFromIsFirstLeafError(v, 0, status, expected, custom);
  }

  lemma {:induction false} CheckFromIsFirstLeafError(v: JsValue, k: nat, status: Option<int>, expected: Option<JsType>, custom: Option<bool>)
    ensures ErrorOf(CheckFrom(v, k, status, expected, custom)) == FirstLeafError(LeavesFrom(v, k), status, expected, custom)
    decreases v, 0, if v.Arr? then |v.elems| - k else 0
  {
    match v
    case Arr(elems) =>
      if k < |elems| {
        var head := Check(elems[k], status, expected, custom);
        assert ErrorOf(CheckFrom(v, k, status, expected, custom))
            == if head.Err? then Some(head.error) else ErrorOf(CheckFrom(v, k + 1, status, expected, custom));
        assert LeavesFrom(v, k) == Leaves(elems[k]) + LeavesFrom(v, k + 1);
        CheckIsFirstLeafError(elems[k], status, expected, custom);
        CheckFromIsFirstLeafError(v, k + 1, status, expected, custom);
        FirstLeafErrorAppend(Leaves(elems[k]), LeavesFrom(v, k + 1), status, expected, custom);
      }
    case _ =>
      assert LeavesFrom(v, k)[1..] == [];
  }

  /** `check([a, b], …)`: the first element's error if it fails, else the second's. */
  lemma {:induction false} CheckPair(a: JsValue, b: JsValue, status: Option<int>, expected: Option<JsType>, custom: Option<bool>)
    ensures ErrorOf(Check(Arr([a, b]), status, expected, custom))
         == if ErrorOf(Check(a, status, expected, custom)).Some? then ErrorOf(Check(a, status, expected, custom))
            else ErrorOf(Check(b, status, expected, custom))
  {
    var v := Arr([a, b]);
    var ca, cb := Check(a, status, expected, custom), Check(b, status, expected, custom);
    assert v.elems[0] == a && v.elems[1] == b;
    assert CheckFrom(v, 2, status, expected, custom) == Ok(v);
    assert CheckFrom(v, 1, status, expected, custom) == if cb.Err? then Err(cb.error) else Ok(v);
    assert CheckFrom(v, 0, status, expected, custom)
        == if ca.Err? then Err(ca.error) else CheckFrom(v, 1, status, expected, custom);
  }

  /** `check(v, …)` with only a message and a status: fails only on `undefined`. */
  function Required(v: JsValue): Result<JsValue, Error> {
    Check(v, Some(400), None, None)
  }

  /**
   * `parseEnvelope`: `budget` and `spent` must be defined and read as
   * numbers; the record comes back with those two replaced by their
   * numeric readings and every other property as it was.
   */
  function ParseEnvelope(r: Record): (p: Result<Record, Error>)
    ensures p.Ok? <==> Required(Field(r, "budget")).Ok? && Required(Field(r, "spent")).Ok?
                       && !IsNaN(Field(r, "budget")) && !IsNaN(Field(r, "spent"))
    ensures p.Ok? ==> p.value.Keys == r.Keys + {"budget", "spent"}
    ensures p.Ok? ==> p.value["budget"] == ToNumber(Field(r, "budget")) && p.value["budget"].Num?
    ensures p.Ok? ==> p.value["spent"] == ToNumber(Field(r, "spent")) && p.value["spent"].Num?
    ensures p.Ok? ==> forall k :: k in r && k != "budget" && k != "spent" ==> p.value[k] == r[k]
    ensures p.Err? ==> p.error.Status? && p.error.code == 400
    ensures Field(r, "budget").Undefined? ==> p == Err(Status(400, ValueUndefined))
  {
    var budget := Field(r, "budget");
    var spent := Field(r, "spent");
    var b := Required(budget);
    if b.Err? then Err(b.error)
    else
      var s := Required(spent);
      if s.Err? then Err(s.error)
      else if IsNaN(spent) || IsNaN(budget) then Err(Status(400, NotNumeric))
      else Ok(r["budget" := ToNumber(budget)]["spent" := ToNumber(spent)])
  }
}
