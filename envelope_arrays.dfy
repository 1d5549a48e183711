/**
 * The in-memory envelope helpers of back-end/src/util.ts, over an array
 * of envelope records. The array object itself is an `EnvelopeArray`
 * whose contents the mutating helpers replace.
 */
module EnvelopeArrays {
  import opened Wrappers
  import opened JsValues

  /**
   * An in-memory envelope. Ids, budgets and spends are numbers; the name
   * is whatever the request body carried.
   */
  datatype Envelope = Envelope(id: int, name: JsValue, budget: int, spent: int)

  /** A JavaScript array of envelopes, shared by reference. */
  class EnvelopeArray {
    var items: seq<Envelope>

    constructor (items: seq<Envelope>)
      ensures this.items == items
    {
      this.items := items;
    }
  }

  // -----------------------------------------------------------------
  // refactorBody
  // -----------------------------------------------------------------

  /**
   * `refactorBody`: exactly the four envelope properties, with `id`,
   * `budget` and `spent` read by `Number()` and the name as given.
   */
  function RefactorBody(body: Record): (r: Record)
    ensures r.Keys == {"id", "name", "budget", "spent"}
    ensures r["id"] == ToNumber(Field(body, "id"))
    ensures r["name"] == Field(body, "name")
    ensures r["budget"] == ToNumber(Field(body, "budget"))
    ensures r["spent"] == ToNumber(Field(body, "spent"))
    ensures forall k :: k in r && k != "name" ==> IsNumber(r[k])
  {
    map["id" := ToNumber(Field(body, "id")),
        "name" := Field(body, "name"),
        "budget" := ToNumber(Field(body, "budget")),
        "spent" := ToNumber(Field(body, "spent"))]
  }

  /** Refactoring a refactored body changes nothing. */
  lemma {:induction false} RefactorBodyIdempotent(body: Record)
    ensures RefactorBody(RefactorBody(body)) == RefactorBody(body)
  {
    var r := RefactorBody(body);
    assert Field(r, "id") == r["id"] && Field(r, "budget") == r["budget"] && Field(r, "spent") == r["spent"];
    assert Field(r, "name") == r["name"];
  }

  // -----------------------------------------------------------------
  // addToNewEnvelope
  // -----------------------------------------------------------------

  /** `addToNewEnvelope`: `unshift` puts the envelope in front of the others. */
  method AddToNewEnvelope(body: Envelope, arr: EnvelopeArray)
    modifies arr
    ensures arr.items == [body] + old(arr.items)
    ensures |arr.items| == |old(arr.items)| + 1 && arr.items[0] == body
    ensures forall i :: 0 <= i < |old(arr.items)| ==> arr.items[i + 1] == old(arr.items)[i]
  {
    arr.items := [body] + arr.items;
  }

  // -----------------------------------------------------------------
  // compliteTransaction
  // -----------------------------------------------------------------

  /** What is left to spend or move in an envelope. */
  function Available(e: Envelope): int {
    e.budget - e.spent
  }

  /**
   * The two slot writes of `compliteTransaction`, in order: the source
   * loses `value` of budget, then the target gains it.
   */
  function MoveBudget(s: seq<Envelope>, fromIndex: nat, toIndex: nat, value: int): (r: seq<Envelope>)
    requires fromIndex < |s| && toIndex < |s|
    ensures |r| == |s|
  {
    var s1 := s[fromIndex := s[fromIndex].(budget := s[fromIndex].budget - value)];
    s1[toIndex := s1[toIndex].(budget := s1[toIndex].budget + value)]
  }

  /** The sum of the budgets in a sequence of envelopes. */
  function TotalBudget(s: seq<Envelope>): int {
    if s == [] then 0 else s[0].budget + TotalBudget(s[1..])
  }

  /** Changing one slot's budget changes the total by the same amount. */
  lemma {:induction false} TotalBudgetUpdate(s: seq<Envelope>, i: nat, e: Envelope)
    requires i < |s|
    ensures TotalBudget(s[i := e]) == TotalBudget(s) - s[i].budget + e.budget
  {
    if i > 0 {
      assert s[i := e][1..] == s[1..][i - 1 := e];
      TotalBudgetUpdate(s[1..], i - 1, e);
    } else {
      assert s[i := e][1..] == s[1..];
    }
  }

  /**
   * Moving budget between two slots keeps the total budget, leaves every
   * spend and every other slot as it was, and a move within one slot
   * changes nothing.
   */
  lemma {:induction false} MoveBudgetEffect(s: seq<Envelope>, fromIndex: nat, toIndex: nat, value: int)
    requires fromIndex < |s| && toIndex < |s|
    ensures TotalBudget(MoveBudget(s, fromIndex, toIndex, value)) == TotalBudget(s)
    ensures forall i :: 0 <= i < |s| ==> MoveBudget(s, fromIndex, toIndex, value)[i].spent == s[i].spent
    ensures forall i :: 0 <= i < |s| && i != fromIndex && i != toIndex ==> MoveBudget(s, fromIndex, toIndex, value)[i] == s[i]
    ensures fromIndex != toIndex ==>
              && MoveBudget(s, fromIndex, toIndex, value)[fromIndex].budget == s[fromIndex].budget - value
              && MoveBudget(s, fromIndex, toIndex, value)[toIndex].budget == s[toIndex].budget + value
    ensures fromIndex == toIndex ==> MoveBudget(s, fromIndex, toIndex, value) == s
  {
    var s1 := s[fromIndex := s[fromIndex].(budget := s[fromIndex].budget - value)];
    TotalBudgetUpdate(s, fromIndex, s1[fromIndex]);
    TotalBudgetUpdate(s1, toIndex, s1[toIndex].(budget := s1[toIndex].budget + value));
  }

  /**
   * `compliteTransaction`: refused, with the array untouched, when the
   * source slot cannot cover `value`; otherwise the budgets move in place.
   */
  method CompliteTransaction(fromIndex: nat, toIndex: nat, value: int, arr: EnvelopeArray) returns (ok: bool)
    requires fromIndex < |arr.items| && toIndex < |arr.items|
    modifies arr
    ensures ok <==> Available(old(arr.items)[fromIndex]) - value >= 0
    ensures ok ==> arr.items == MoveBudget(old(arr.items), fromIndex, toIndex, value)
    ensures !ok ==> arr.items == old(arr.items)
  {
    if arr.items[fromIndex].budget - arr.items[fromIndex].spent - value < 0 {
      return false;
    }
    arr.items := arr.items[fromIndex := arr.items[fromIndex].(budget := arr.items[fromIndex].budget - value)];
    arr.items := arr.items[toIndex := arr.items[toIndex].(budget := arr.items[toIndex].budget + value)];
    ok := true;
  }

  // -----------------------------------------------------------------
  // getTransferEnvelopesIndexes
  // -----------------------------------------------------------------

  /** The search is by name when `to` does not read as a number, by id otherwise. */
  predicate SearchByName(to: JsValue) {
    IsNaN(to)
  }

  /** The property of an envelope the search compares with `===`. */
  function SearchKey(e: Envelope, byName: bool): JsValue {
    if byName then e.name else Num(e.id)
  }

  /** An endpoint as searched for: converted by `Number()` in an id search. */
  function SearchValue(v: JsValue, byName: bool): JsValue {
    if byName then v else ToNumber(v)
  }

  /** The last index whose key is `===` the target. */
  function LastMatch(s: seq<Envelope>, byName: bool, target: JsValue): (r: Option<nat>)
    ensures r.Some? ==> r.value < |s| && StrictEquals(SearchKey(s[r.value], byName), target)
    ensures r.Some? ==> forall j :: r.value < j < |s| ==> !StrictEquals(SearchKey(s[j], byName), target)
    ensures r.None? <==> forall j :: 0 <= j < |s| ==> !StrictEquals(SearchKey(s[j], byName), target)
  {
    if s == [] then None
    else if StrictEquals(SearchKey(s[|s| - 1], byName), target) then Some(|s| - 1)
    else LastMatch(s[..|s| - 1], byName, target)
  }

  /**
   * `getTransferEnvelopesIndexes`: one pass over the array, remembering
   * the latest slot matching each endpoint; `None` when nothing matches.
   */
  method GetTransferEnvelopesIndexes(from: JsValue, to: JsValue, s: seq<Envelope>)
    returns (fromIndex: Option<nat>, toIndex: Option<nat>)
    ensures fromIndex == LastMatch(s, SearchByName(to), SearchValue(from, SearchByName(to)))
    ensures toIndex == LastMatch(s, SearchByName(to), SearchValue(to, SearchByName(to)))
  {
    var byName := SearchByName(to);
    var fromKey, toKey := SearchValue(from, byName), SearchValue(to, byName);
    fromIndex, toIndex := None, None;
    for i := 0 to |s|
      invariant fromIndex == LastMatch(s[..i], byName, fromKey)
      invariant toIndex == LastMatch(s[..i], byName, toKey)
    {
      assert s[..i + 1][..i] == s[..i];
      if StrictEquals(SearchKey(s[i], byName), fromKey) {
        fromIndex := Some(i);
      }
      if StrictEquals(SearchKey(s[i], byName), toKey) {
        toIndex := Some(i);
      }
    }
    assert s[..|s|] == s;
  }

  // -----------------------------------------------------------------
  // deleteEnvelope
  // -----------------------------------------------------------------

  /** Whether an envelope's id is `===` the given number. */
  predicate HasId(e: Envelope, id: JsValue) {
    StrictEquals(Num(e.id), id)
  }

  /** `deleteEnvelope`: the array, in order, without the envelopes carrying `id`. */
  function DeleteEnvelope(id: JsValue, s: seq<Envelope>): (r: seq<Envelope>)
    ensures |r| <= |s|
  {
    if s == [] then []
    else (if HasId(s[0], id) then [] else [s[0]]) + DeleteEnvelope(id, s[1..])
  }

  /** What the filter keeps is exactly the envelopes not carrying `id`. */
  lemma {:induction false} DeleteEnvelopeMembers(id: JsValue, s: seq<Envelope>)
    ensures forall e :: e in DeleteEnvelope(id, s) <==> e in s && !HasId(e, id)
  {
    if s != [] {
      DeleteEnvelopeMembers(id, s[1..]);
      assert s == [s[0]] + s[1..];
    }
  }

  /** The filter works slice by slice, so it keeps the order of what it keeps. */
  lemma {:induction false} DeleteEnvelopeAppend(id: JsValue, a: seq<Envelope>, b: seq<Envelope>)
    ensures DeleteEnvelope(id, a + b) == DeleteEnvelope(id, a) + DeleteEnvelope(id, b)
  {
    if a == [] {
      assert a + b == b;
    } else {
      var head := if HasId(a[0], id) then [] else [a[0]];
      assert (a + b)[0] == a[0] && (a + b)[1..] == a[1..] + b;
      assert DeleteEnvelope(id, a + b) == head + DeleteEnvelope(id, a[1..] + b);
      assert DeleteEnvelope(id, a) == head + DeleteEnvelope(id, a[1..]);
      DeleteEnvelopeAppend(id, a[1..], b);
      assert head + (DeleteEnvelope(id, a[1..]) + DeleteEnvelope(id, b))
          == (head + DeleteEnvelope(id, a[1..])) + DeleteEnvelope(id, b);
    }
  }

  /** Nothing is removed when no envelope carries the id, and a NaN id never matches. */
  lemma {:induction false} DeleteEnvelopeAbsent(id: JsValue, s: seq<Envelope>)
    requires id.NaN? || forall i :: 0 <= i < |s| ==> !HasId(s[i], id)
    ensures DeleteEnvelope(id, s) == s
  {
    if s != [] {
      assert s == [s[0]] + s[1..];
      DeleteEnvelopeAbsent(id, s[1..]);
    }
  }

  /** Deleting twice is deleting once. */
  lemma {:induction false} DeleteEnvelopeIdempotent(id: JsValue, s: seq<Envelope>)
    ensures DeleteEnvelope(id, DeleteEnvelope(id, s)) == DeleteEnvelope(id, s)
  {
    var r := DeleteEnvelope(id, s);
    DeleteEnvelopeMembers(id, s);
    forall i | 0 <= i < |r|
      ensures !HasId(r[i], id)
    {
      assert r[i] in r;
    }
    DeleteEnvelopeAbsent(id, r);
  }

  // -----------------------------------------------------------------
  // updateEnvelope and findEnvelope
  // -----------------------------------------------------------------

  /**
   * `updateEnvelope(body, envelope)`: the id stays; the name comes from the
   * body when truthy, and budget and spent from `Number()` of the body's
   * values when those are truthy (not 0 or NaN); otherwise the old value.
   */
  function UpdateEnvelope(body: Record, e: Envelope): (r: Envelope)
    ensures r.id == e.id
    ensures r.name == (if Truthy(Field(body, "name")) then Field(body, "name") else e.name)
    ensures Truthy(ToNumber(Field(body, "budget"))) ==> r.budget == ToNumber(Field(body, "budget")).n
    ensures !Truthy(ToNumber(Field(body, "budget"))) ==> r.budget == e.budget
    ensures Truthy(ToNumber(Field(body, "spent"))) ==> r.spent == ToNumber(Field(body, "spent")).n
    ensures !Truthy(ToNumber(Field(body, "spent"))) ==> r.spent == e.spent
  {
    var name := Field(body, "name");
    var budget := ToNumber(Field(body, "budget"));
    var spent := ToNumber(Field(body, "spent"));
    Envelope(e.id,
             if Truthy(name) then name else e.name,
             if Truthy(budget) then budget.n else e.budget,
             if Truthy(spent) then spent.n else e.spent)
  }

  /** Applying the same update twice is applying it once; an empty body changes nothing. */
  lemma {:induction false} UpdateEnvelopeIdempotent(body: Record, e: Envelope)
    ensures UpdateEnvelope(body, UpdateEnvelope(body, e)) == UpdateEnvelope(body, e)
    ensures UpdateEnvelope(map[], e) == e
  {
  }

  /** The first index, from `k` on, whose id is `===` the given number. */
  function FindFrom(id: JsValue, s: seq<Envelope>, k: nat): (r: Option<nat>)
    requires k <= |s|
    ensures r.Some? ==> k <= r.value < |s| && HasId(s[r.value], id)
    ensures r.Some? ==> forall j :: k <= j < r.value ==> !HasId(s[j], id)
    ensures r.None? <==> forall j :: k <= j < |s| ==> !HasId(s[j], id)
    decreases |s| - k
  {
    if k == |s| then None
    else if HasId(s[k], id) then Some(k)
    else FindFrom(id, s, k + 1)
  }

  /**
   * `findEnvelope(id, array)`: the first envelope carrying `id` and its
   * index, or `None` when no envelope does.
   */
  function FindEnvelope(id: JsValue, s: seq<Envelope>): (r: Option<(Envelope, nat)>)
    ensures r.Some? ==> r.value.1 < |s| && r.value.0 == s[r.value.1] && HasId(r.value.0, id)
    ensures r.Some? ==> forall j :: 0 <= j < r.value.1 ==> !HasId(s[j], id)
    ensures r.None? <==> forall j :: 0 <= j < |s| ==> !HasId(s[j], id)
  {
    var i := FindFrom(id, s, 0);
    if i.None? then None else Some((s[i.value], i.value))
  }
}
