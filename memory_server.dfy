/**
 * The in-memory envelope server of src/index.ts: one module-level array
 * of envelopes and the route handlers that read and change it.
 */
module MemoryServer {
  import opened Wrappers
  import opened JsValues
  import opened Errors
  import opened EnvelopeArrays

  /** A body value TypeScript types as `number | undefined` (JSON may also send `null`). */
  predicate NumberOrAbsent(v: JsValue) {
    v.Undefined? || v.Null? || IsNumber(v)
  }

  /**
   * The `updateEnvelope` of src/index.ts: like the helper of util.ts, but
   * `budget` and `spent` are taken from the body as they are, without
   * `Number()`; a falsy value keeps the old one.
   */
  function MergeBody(body: Record, e: Envelope): (r: Envelope)
    requires NumberOrAbsent(Field(body, "budget")) && NumberOrAbsent(Field(body, "spent"))
    ensures r.id == e.id
    ensures r.name == (if Truthy(Field(body, "name")) then Field(body, "name") else e.name)
    ensures r.budget == (if Field(body, "budget").Num? && Field(body, "budget").n != 0 then Field(body, "budget").n else e.budget)
    ensures r.spent == (if Field(body, "spent").Num? && Field(body, "spent").n != 0 then Field(body, "spent").n else e.spent)
  {
    var budget := Field(body, "budget");
    var spent := Field(body, "spent");
    Envelope(e.id,
             if Truthy(Field(body, "name")) then Field(body, "name") else e.name,
             if Truthy(budget) then budget.n else e.budget,
             if Truthy(spent) then spent.n else e.spent)
  }

  /** On numeric bodies the raw `||` merge and util.ts's `Number() ||` merge agree. */
  lemma {:induction false} MergeBodyAgreesWithUtil(body: Record, e: Envelope)
    requires NumberOrAbsent(Field(body, "budget")) && NumberOrAbsent(Field(body, "spent"))
    ensures MergeBody(body, e) == EnvelopeArrays.UpdateEnvelope(body, e)
  {
    var b, s := Field(body, "budget"), Field(body, "spent");
    assert Truthy(ToNumber(b)) <==> Truthy(b);
    assert Truthy(ToNumber(s)) <==> Truthy(s);
  }

  /** `Number(undefined)` is NaN and `Number(null)` is 0: both fail `!Number(value)` first. */
  lemma MissingValueIsNotANumber(value: JsValue)
    requires value.Undefined? || value.Null?
    ensures !Truthy(ToNumber(value))
  {
  }

  class Server {
    /** `allEnvelopes`. */
    var allEnvelopes: seq<Envelope>

    constructor ()
      ensures allEnvelopes == []
    {
      allEnvelopes := [];
    }

    /** `findEnvelope(id)`: the first slot holding `id`, or `None`. */
    function FindEnvelope(id: int): (r: Option<(Envelope, nat)>)
      reads this
      ensures r.Some? ==> r.value.1 < |allEnvelopes| && r.value.0 == allEnvelopes[r.value.1] && r.value.0.id == id
      ensures r.Some? ==> forall j :: 0 <= j < r.value.1 ==> allEnvelopes[j].id != id
      ensures r.None? <==> forall j :: 0 <= j < |allEnvelopes| ==> allEnvelopes[j].id != id
    {
      EnvelopeArrays.FindEnvelope(Num(id), allEnvelopes)
    }

    /**
     * The `app.param("id")` handler: a route id that `Number()` reads as
     * NaN is a 400, one no envelope carries a 404; otherwise the id, the
     * envelope and its index.
     */
    function ResolveId(param: JsValue): (r: Result<(int, Envelope, nat), Error>)
      reads this
      ensures IsNaN(param) ==> r == Err(Status(400, NotNumeric))
      ensures !IsNaN(param) && FindEnvelope(ToNumber(param).n).None? ==> r == Err(Status(404, NotFound))
      ensures r.Ok? <==> !IsNaN(param) && FindEnvelope(ToNumber(param).n).Some?
      ensures r.Ok? ==> r.value.0 == ToNumber(param).n && r.value.2 < |allEnvelopes|
                        && r.value.1 == allEnvelopes[r.value.2] && r.value.1.id == r.value.0
    {
      var n := ToNumber(param);
      if n.NaN? then Err(Status(400, NotNumeric))
      else
        var found := FindEnvelope(n.n);
        if found.None? then Err(Status(404, NotFound))
        else Ok((n.n, found.value.0, found.value.1))
    }

    /**
     * PUT `/api/envelope/:id`: the merged envelope is refused when its
     * spend exceeds its own budget or the old budget; otherwise it
     * replaces that one slot.
     */
    method Put(param: JsValue, body: Record) returns (r: Result<Envelope, Error>)
      requires NumberOrAbsent(Field(body, "budget")) && NumberOrAbsent(Field(body, "spent"))
      modifies this
      ensures old(ResolveId(param)).Err? ==> r == Err(old(ResolveId(param)).error)
      ensures old(ResolveId(param)).Ok? ==>
                var e := old(ResolveId(param)).value.1;
                var merged := MergeBody(body, e);
                if merged.spent > merged.budget || merged.spent > e.budget
                then r == Err(Status(400, SpentOverBudget))
                else r == Ok(merged)
      ensures r.Err? ==> allEnvelopes == old(allEnvelopes)
      ensures r.Ok? ==> allEnvelopes == old(allEnvelopes)[old(ResolveId(param)).value.2 := r.value]
      ensures r.Ok? ==> r.value.id == old(ResolveId(param)).value.0 && r.value.spent <= r.value.budget
    {
      var resolved := ResolveId(param);
      if resolved.Err? {
        return Err(resolved.error);
      }
      var (_, e, index) := resolved.value;
      var merged := MergeBody(body, e);
      if merged.spent > merged.budget || merged.spent > e.budget {
        return Err(Status(400, SpentOverBudget));
      }
      allEnvelopes := allEnvelopes[index := merged];
      r := Ok(merged);
    }

    /** `deleteEnvelope(id)`: rebinds `allEnvelopes` to the filtered array. */
    method DeleteEnvelope(id: int)
      modifies this
      ensures allEnvelopes == EnvelopeArrays.DeleteEnvelope(Num(id), old(allEnvelopes))
    {
      allEnvelopes := EnvelopeArrays.DeleteEnvelope(Num(id), allEnvelopes);
    }

    /**
     * DELETE `/api/envelope/:id`: every envelope carrying the resolved id
     * goes, so the array gets shorter and the id is gone.
     */
    method Delete(param: JsValue) returns (r: Result<int, Error>)
      modifies this
      ensures old(ResolveId(param)).Err? ==> r == Err(old(ResolveId(param)).error) && allEnvelopes == old(allEnvelopes)
      ensures old(ResolveId(param)).Ok? ==>
                && r == Ok(old(ResolveId(param)).value.0)
                && allEnvelopes == EnvelopeArrays.DeleteEnvelope(Num(r.value), old(allEnvelopes))
                && |allEnvelopes| < |old(allEnvelopes)|
                && forall j :: 0 <= j < |allEnvelopes| ==> allEnvelopes[j].id != r.value
    {
      var resolved := ResolveId(param);
      if resolved.Err? {
        return Err(resolved.error);
      }
      var (id, _, index) := resolved.value;
      ghost var before := allEnvelopes;
      DeleteEnvelope(id);
      DeleteEnvelopeMembers(Num(id), before);
      DropsFound(Num(id), before, index);
      forall j | 0 <= j < |allEnvelopes|
        ensures allEnvelopes[j].id != id
      {
        assert allEnvelopes[j] in allEnvelopes;
      }
      r := Ok(id);
    }

    /** `getTransferEnvelopesIndexes(from, to)` over `allEnvelopes`. */
    method GetTransferEnvelopesIndexes(from: JsValue, to: JsValue) returns (fromIndex: Option<nat>, toIndex: Option<nat>)
      ensures fromIndex == LastMatch(allEnvelopes, SearchByName(to), SearchValue(from, SearchByName(to)))
      ensures toIndex == LastMatch(allEnvelopes, SearchByName(to), SearchValue(to, SearchByName(to)))
    {
      fromIndex, toIndex := EnvelopeArrays.GetTransferEnvelopesIndexes(from, to, allEnvelopes);
    }

    /**
     * `compliteTransaction` on `allEnvelopes`: refused when the source slot
     * cannot cover `value`; otherwise the budget moves and the total stays.
     */
    method CompliteTransaction(fromIndex: nat, toIndex: nat, value: int) returns (ok: bool)
      requires fromIndex < |allEnvelopes| && toIndex < |allEnvelopes|
      modifies this
      ensures ok <==> Available(old(allEnvelopes)[fromIndex]) - value >= 0
      ensures ok ==> allEnvelopes == MoveBudget(old(allEnvelopes), fromIndex, toIndex, value)
      ensures !ok ==> allEnvelopes == old(allEnvelopes)
      ensures TotalBudget(allEnvelopes) == TotalBudget(old(allEnvelopes))
    {
      if allEnvelopes[fromIndex].budget - allEnvelopes[fromIndex].spent - value < 0 {
        return false;
      }
      MoveBudgetEffect(allEnvelopes, fromIndex, toIndex, value);
      allEnvelopes := allEnvelopes[fromIndex := allEnvelopes[fromIndex].(budget := allEnvelopes[fromIndex].budget - value)];
      allEnvelopes := allEnvelopes[toIndex := allEnvelopes[toIndex].(budget := allEnvelopes[toIndex].budget + value)];
      ok := true;
    }

    /**
     * POST `/api/envelope/:from/:to` with the amount in the `value` header.
     * Refused, in this order, when one endpoint reads as a number and the
     * other does not, when `Number(value)` is falsy, when an endpoint is
     * not found, and when the source cannot cover the amount; otherwise
     * the amount moves and both envelopes come back.
     */
    method PostTransfer(from: JsValue, to: JsValue, value: JsValue) returns (r: Result<(Envelope, Envelope), Error>)
      modifies this
      ensures IsNaN(to) != IsNaN(from) ==> r == Err(Status(400, KindsDiffer))
      ensures IsNaN(to) == IsNaN(from) && !Truthy(ToNumber(value)) ==> r == Err(Status(400, NotNumeric))
      ensures IsNaN(to) == IsNaN(from) && Truthy(ToNumber(value))
              && (old(LastMatch(allEnvelopes, SearchByName(to), SearchValue(from, SearchByName(to)))).None?
                  || old(LastMatch(allEnvelopes, SearchByName(to), SearchValue(to, SearchByName(to)))).None?)
              ==> r == Err(Status(400, NotFound))
      ensures IsNaN(to) == IsNaN(from) && Truthy(ToNumber(value)) ==>
                var fi := old(LastMatch(allEnvelopes, SearchByName(to), SearchValue(from, SearchByName(to))));
                var ti := old(LastMatch(allEnvelopes, SearchByName(to), SearchValue(to, SearchByName(to))));
                fi.Some? && ti.Some? ==>
                  && (r.Ok? <==> Available(old(allEnvelopes)[fi.value]) >= ToNumber(value).n)
                  && (r.Err? ==> r == Err(Status(400, NotEnoughToMove)))
      ensures r.Err? ==> allEnvelopes == old(allEnvelopes)
      ensures r.Ok? ==>
                && IsNaN(to) == IsNaN(from) && Truthy(ToNumber(value))
                && var fi := old(LastMatch(allEnvelopes, SearchByName(to), SearchValue(from, SearchByName(to))));
                   var ti := old(LastMatch(allEnvelopes, SearchByName(to), SearchValue(to, SearchByName(to))));
                   && fi.Some? && ti.Some?
                   && Available(old(allEnvelopes)[fi.value]) >= ToNumber(value).n
                   && allEnvelopes == MoveBudget(old(allEnvelopes), fi.value, ti.value, ToNumber(value).n)
                   && r.value == (allEnvelopes[fi.value], allEnvelopes[ti.value])
      ensures TotalBudget(allEnvelopes) == TotalBudget(old(allEnvelopes))
    {
      if IsNaN(to) != IsNaN(from) {
        return Err(Status(400, KindsDiffer));
      }
      var fromIndex, toIndex := GetTransferEnvelopesIndexes(from, to);
      var amount := ToNumber(value);
      if !Truthy(amount) {
        return Err(Status(400, NotNumeric));
      }
      if fromIndex.None? || toIndex.None? {
        return Err(Status(400, NotFound));
      }
      var ok := CompliteTransaction(fromIndex.value, toIndex.value, amount.n);
      if !ok {
        return Err(Status(400, NotEnoughToMove));
      }
      r := Ok((allEnvelopes[fromIndex.value], allEnvelopes[toIndex.value]));
    }

    /** The `addToNewEnvelope` of src/index.ts: `push` puts the envelope last. */
    method AddToNewEnvelope(body: Envelope)
      modifies this
      ensures allEnvelopes == old(allEnvelopes) + [body]
    {
      allEnvelopes := allEnvelopes + [body];
    }

    /**
     * POST `/api/envelope`: refused, with the array unchanged, when any of
     * `id`, `name`, `budget`, `spent` is undefined or `id`, `spent` or
     * `budget` reads as NaN; otherwise the refactored envelope is appended.
     */
    method PostCreate(body: Record) returns (r: Result<Envelope, Error>)
      modifies this
      ensures (Field(body, "id").Undefined? || Field(body, "name").Undefined?
               || Field(body, "budget").Undefined? || Field(body, "spent").Undefined?)
              ==> r == Err(Status(400, ValueUndefined))
      ensures r.Ok? <==> !Field(body, "id").Undefined? && !Field(body, "name").Undefined?
                         && !Field(body, "budget").Undefined? && !Field(body, "spent").Undefined?
                         && !IsNaN(Field(body, "id")) && !IsNaN(Field(body, "budget")) && !IsNaN(Field(body, "spent"))
      ensures r.Err? ==> r.error.Status? && r.error.code == 400 && allEnvelopes == old(allEnvelopes)
      ensures r.Ok? ==>
                && r.value == Envelope(ToNumber(Field(body, "id")).n, Field(body, "name"),
                                       ToNumber(Field(body, "budget")).n, ToNumber(Field(body, "spent")).n)
                && allEnvelopes == old(allEnvelopes) + [r.value]
    {
      if Field(body, "id").Undefined? || Field(body, "name").Undefined?
         || Field(body, "budget").Undefined? || Field(body, "spent").Undefined? {
        return Err(Status(400, ValueUndefined));
      }
      var refactored := RefactorBody(body);
      if IsNaN(refactored["id"]) || IsNaN(refactored["spent"]) || IsNaN(Field(body, "budget")) {
        return Err(Status(400, NotNumeric));
      }
      var e := Envelope(refactored["id"].n, refactored["name"], refactored["budget"].n, refactored["spent"].n);
      AddToNewEnvelope(e);
      r := Ok(e);
    }
  }

  /** Filtering out an id that sits at `index` shortens the array. */
  lemma {:induction false} DropsFound(id: JsValue, s: seq<Envelope>, index: nat)
    requires index < |s| && HasId(s[index], id)
    ensures |EnvelopeArrays.DeleteEnvelope(id, s)| < |s|
  {
    if index > 0 {
      DropsFound(id, s[1..], index - 1);
    }
  }
}
