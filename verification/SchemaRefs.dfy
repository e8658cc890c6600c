/** Counting the `$ref`s of a JSON schema and stripping those beyond a budget. */
module SchemaRefs {
  import opened JsonTree

  /** The object carries a textual `$ref`. */
  predicate IsRef(fields: seq<Field>) {
    exists i :: 0 <= i < |fields| && IsRefField(fields[i])
  }

  predicate IsRefField(f: Field) {
    f.key == "$ref" && f.value.Str?
  }

  /** `count_json_schema_refs`. */
  function Count(j: Json): (r: nat)
    decreases j, 0
  {
    match j
    case Arr(items) => CountItems(items)
    case Obj(fields) => (if IsRef(fields) then 1 else 0) + CountFields(fields)
    case _ => 0
  }

  function CountItems(items: seq<Json>): (r: nat)
    decreases items, 1
  {
    if items == [] then 0 else CountItems(items[..|items| - 1]) + Count(items[|items| - 1])
  }

  function CountFields(fields: seq<Field>): (r: nat)
    decreases fields, 1
  {
    if fields == [] then 0 else CountFields(fields[..|fields| - 1]) + Count(fields[|fields| - 1].value)
  }

  /** What an object whose `$ref` does not fit the budget is replaced by. */
  function Stub(fields: seq<Field>): (r: Json) {
    var description := Lookup(fields, "description");
    Obj([Field("type", Str("object"))]
        + if description.Str? && Trimmed(description.s, 160) != "" then [Field("description", Str(Trimmed(description.s, 160)))]
          else [])
  }

  /** `_strip_excess_schema_refs` with its budget threaded through: the result and what is left. */
  function Strip(j: Json, budget: nat): (r: (Json, nat))
    ensures r.1 <= budget
    ensures j.Str? <==> r.0.Str?
    ensures j.Obj? <==> r.0.Obj?
    decreases j, 0
  {
    match j
    case Arr(items) =>
      var (items', left) := StripItems(items, budget);
      (Arr(items'), left)
    case Obj(fields) =>
      if IsRef(fields) && budget == 0 then (Stub(fields), 0)
      else
        var (fields', left) := StripFields(fields, if IsRef(fields) then budget - 1 else budget);
        (Obj(fields'), left)
    case _ => (j, budget)
  }

  function StripItems(items: seq<Json>, budget: nat): (r: (seq<Json>, nat))
    ensures r.1 <= budget
    decreases items, 1
  {
    if items == [] then ([], budget)
    else
      var (init, left) := StripItems(items[..|items| - 1], budget);
      var (last, left') := Strip(items[|items| - 1], left);
      (init + [last], left')
  }

  function StripFields(fields: seq<Field>, budget: nat): (r: (seq<Field>, nat))
    ensures r.1 <= budget && |r.0| == |fields|
    ensures forall i :: 0 <= i < |fields| ==> r.0[i].key == fields[i].key && (r.0[i].value.Str? <==> fields[i].value.Str?)
    decreases fields, 1
  {
    if fields == [] then ([], budget)
    else
      var (init, left) := StripFields(fields[..|fields| - 1], budget);
      var (value, left') := Strip(fields[|fields| - 1].value, left);
      (init + [Field(fields[|fields| - 1].key, value)], left')
  }

  function Min(a: nat, b: nat): (r: nat) {
    if a < b then a else b
  }

  /** Stripping is exact: it keeps min(count, budget) `$ref`s, spends the budget on exactly
      those, and leaves a value within its budget unchanged. */
  lemma {:induction false} StripIsExact(j: Json, budget: nat)
    ensures Count(Strip(j, budget).0) == Min(Count(j), budget)
    ensures Strip(j, budget).1 == budget - Min(Count(j), budget)
    ensures Count(j) <= budget ==> Strip(j, budget).0 == j
    decreases j, 0
  {
    hide CountItems, StripItems, CountFields, StripFields, IsRef;
    match j
    case Arr(items) => StripItemsIsExact(items, budget);
    case Obj(fields) =>
      if IsRef(fields) && budget == 0 {
        StubHasNoRefs(fields);
      } else {
        var b := if IsRef(fields) then budget - 1 else budget;
        StripFieldsIsExact(fields, b);
        SameRefs(fields, StripFields(fields, b).0);
      }
    case _ =>
  }

  lemma {:induction false} StripItemsIsExact(items: seq<Json>, budget: nat)
    ensures CountItems(StripItems(items, budget).0) == Min(CountItems(items), budget)
    ensures StripItems(items, budget).1 == budget - Min(CountItems(items), budget)
    ensures CountItems(items) <= budget ==> StripItems(items, budget).0 == items
    decreases items, 1
  {
    if items != [] {
      hide Strip, Count, StripItems, CountItems;
      var n := |items| - 1;
      StripItemsIsExact(items[..n], budget);
      StripIsExact(items[n], StripItems(items[..n], budget).1);
      StripOneMore(items, budget);
      SpentInParts(CountItems(items[..n]), Count(items[n]), budget);
      hide Min;
    }
  }

  /** The last item is stripped with what the others leave of the budget. */
  lemma StripOneMore(items: seq<Json>, budget: nat)
    requires items != []
    ensures var n := |items| - 1;
            var init, last := StripItems(items[..n], budget), Strip(items[n], StripItems(items[..n], budget).1);
            && StripItems(items, budget).1 == last.1
            && CountItems(StripItems(items, budget).0) == CountItems(init.0) + Count(last.0)
            && CountItems(items) == CountItems(items[..n]) + Count(items[n])
            && (init.0 == items[..n] && last.0 == items[n] ==> StripItems(items, budget).0 == items)
  {
    hide Strip, Count;
    var n := |items| - 1;
    var init, last := StripItems(items[..n], budget), Strip(items[n], StripItems(items[..n], budget).1);
    assert StripItems(items, budget) == (init.0 + [last.0], last.1);
    hide StripItems;
    CountOneMore(init.0, last.0);
    Rejoined(items, init.0, last.0);
  }

  lemma Rejoined(items: seq<Json>, init: seq<Json>, last: Json)
    requires items != []
    ensures init == items[..|items| - 1] && last == items[|items| - 1] ==> init + [last] == items
  {
  }

  /** A budget spent on one part and then on another is spent on both. */
  lemma SpentInParts(a: nat, b: nat, budget: nat)
    ensures Min(a, budget) + Min(b, budget - Min(a, budget)) == Min(a + b, budget)
    ensures a + b <= budget ==> a <= budget && b <= budget - Min(a, budget)
  {
  }

  lemma CountOneMore(items: seq<Json>, last: Json)
    ensures CountItems(items + [last]) == CountItems(items) + Count(last)
  {
    hide Count;
    assert (items + [last])[..|items|] == items;
  }

  lemma {:induction false} StripFieldsIsExact(fields: seq<Field>, budget: nat)
    ensures CountFields(StripFields(fields, budget).0) == Min(CountFields(fields), budget)
    ensures StripFields(fields, budget).1 == budget - Min(CountFields(fields), budget)
    ensures CountFields(fields) <= budget ==> StripFields(fields, budget).0 == fields
    decreases fields, 1
  {
    if fields != [] {
      hide Strip, Count, StripFields, CountFields;
      var n := |fields| - 1;
      StripFieldsIsExact(fields[..n], budget);
      StripIsExact(fields[n].value, StripFields(fields[..n], budget).1);
      StripOneMoreField(fields, budget);
      SpentInParts(CountFields(fields[..n]), Count(fields[n].value), budget);
      hide Min;
    }
  }

  lemma StripOneMoreField(fields: seq<Field>, budget: nat)
    requires fields != []
    ensures var n := |fields| - 1;
            var init, last := StripFields(fields[..n], budget), Strip(fields[n].value, StripFields(fields[..n], budget).1);
            && StripFields(fields, budget).1 == last.1
            && CountFields(StripFields(fields, budget).0) == CountFields(init.0) + Count(last.0)
            && CountFields(fields) == CountFields(fields[..n]) + Count(fields[n].value)
            && (init.0 == fields[..n] && last.0 == fields[n].value ==> StripFields(fields, budget).0 == fields)
  {
    hide Strip, Count;
    var n := |fields| - 1;
    var init, last := StripFields(fields[..n], budget), Strip(fields[n].value, StripFields(fields[..n], budget).1);
    assert StripFields(fields, budget) == (init.0 + [Field(fields[n].key, last.0)], last.1);
    hide StripFields;
    CountOneMoreField(init.0, Field(fields[n].key, last.0));
    RejoinedFields(fields, init.0, last.0);
  }

  lemma CountOneMoreField(fields: seq<Field>, last: Field)
    ensures CountFields(fields + [last]) == CountFields(fields) + Count(last.value)
  {
    hide Count;
    assert (fields + [last])[..|fields|] == fields;
  }

  lemma RejoinedFields(fields: seq<Field>, init: seq<Field>, last: Json)
    requires fields != []
    ensures init == fields[..|fields| - 1] && last == fields[|fields| - 1].value
            ==> init + [Field(fields[|fields| - 1].key, last)] == fields
  {
  }

  /** Members with the same keys and the same text positions agree about being a `$ref`. */
  lemma SameRefs(a: seq<Field>, b: seq<Field>)
    requires |a| == |b|
    requires forall i :: 0 <= i < |a| ==> b[i].key == a[i].key && (b[i].value.Str? <==> a[i].value.Str?)
    ensures IsRef(a) <==> IsRef(b)
  {
    assert forall i :: 0 <= i < |a| ==> (IsRefField(a[i]) <==> IsRefField(b[i]));
  }

  lemma {:induction false} NoRefsInside(fields: seq<Field>)
    requires forall i :: 0 <= i < |fields| ==> Count(fields[i].value) == 0
    ensures CountFields(fields) == 0
  {
    if fields != [] { NoRefsInside(fields[..|fields| - 1]); }
  }

  lemma {:induction false} CountFieldsConcat(a: seq<Field>, b: seq<Field>)
    ensures CountFields(a + b) == CountFields(a) + CountFields(b)
  {
    if b == [] {
      assert a + b == a;
    } else {
      assert (a + b)[..|a + b| - 1] == a + b[..|b| - 1];
      CountFieldsConcat(a, b[..|b| - 1]);
    }
  }

  lemma StubHasNoRefs(fields: seq<Field>)
    ensures Count(Stub(fields)) == 0
  {
    NoRefsInside(Stub(fields).fields);
  }

  /** The same walk as the source performs it: one shared cell holds the remaining budget. */
  method StripExcessSchemaRefs(node: Json, remaining: array<nat>) returns (r: Json)
    requires remaining.Length == 1
    modifies remaining
    ensures (r, remaining[0]) == Strip(node, old(remaining[0]))
    decreases node, 0
  {
    match node {
      case Obj(fields) =>
        if IsRef(fields) {
          if remaining[0] == 0 { return Stub(fields); }
          remaining[0] := remaining[0] - 1;
        }
        var kept := StripMembers(fields, remaining);
        r := Obj(kept);
      case Arr(items) =>
        ghost var start := remaining[0];
        var kept: seq<Json> := [];
        var i := 0;
        while i < |items|
          invariant 0 <= i <= |items|
          invariant (kept, remaining[0]) == StripItems(items[..i], start)
        {
          assert items[..i + 1][..i] == items[..i];
          var item := StripExcessSchemaRefs(items[i], remaining);
          kept := kept + [item];
          i := i + 1;
        }
        assert items[..|items|] == items;
        r := Arr(kept);
      case _ => r := node;
    }
  }

  method StripMembers(fields: seq<Field>, remaining: array<nat>) returns (kept: seq<Field>)
    requires remaining.Length == 1
    modifies remaining
    ensures (kept, remaining[0]) == StripFields(fields, old(remaining[0]))
    decreases fields, 1
  {
    ghost var start := remaining[0];
    kept := [];
    var i := 0;
    while i < |fields|
      invariant 0 <= i <= |fields|
      invariant (kept, remaining[0]) == StripFields(fields[..i], start)
    {
      assert fields[..i + 1][..i] == fields[..i];
      var value := StripExcessSchemaRefs(fields[i].value, remaining);
      kept := kept + [Field(fields[i].key, value)];
      i := i + 1;
    }
    assert fields[..|fields|] == fields;
  }
}
