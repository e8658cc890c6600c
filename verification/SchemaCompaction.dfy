/** Compaction of an MCP tool schema into a `$ref` budget and a serialized-length budget. */
module SchemaCompaction {
  import opened JsonTree
  import opened SchemaRefs

  const ANNOTATIONS := {"examples", "default", "title", "$comment", "deprecated", "readOnly", "writeOnly"}
  const DEFINITIONS := {"$defs", "definitions"}

  // ---------------------------------------------------------------- pruning

  /** `_prune_schema_annotations`. */
  function Prune(j: Json, maxDescription: nat, dropDefs: bool): (r: Json)
    ensures j.Obj? <==> r.Obj?
    ensures j.Str? <==> r.Str?
    decreases j, 0
  {
    match j
    case Arr(items) => Arr(PruneItems(items, maxDescription, dropDefs))
    case Obj(fields) => Obj(PruneFields(fields, maxDescription, dropDefs))
    case _ => j
  }

  function PruneItems(items: seq<Json>, maxDescription: nat, dropDefs: bool): (r: seq<Json>)
    decreases items, 1
  {
    if items == [] then []
    else PruneItems(items[..|items| - 1], maxDescription, dropDefs) + [Prune(items[|items| - 1], maxDescription, dropDefs)]
  }

  /** The member as it survives pruning: nothing, or one member with the same key. */
  function PruneField(f: Field, maxDescription: nat, dropDefs: bool): (r: seq<Field>)
    ensures |r| <= 1 && (r != [] ==> r[0].key == f.key && (r[0].value.Str? <==> f.value.Str?))
    decreases f, 1
  {
    if f.key in ANNOTATIONS || (dropDefs && f.key in DEFINITIONS) then []
    else if f.key == "description" && f.value.Str? then
      if Trimmed(f.value.s, maxDescription) == "" then []
      else [Field(f.key, Str(Trimmed(f.value.s, maxDescription)))]
    else [Field(f.key, Prune(f.value, maxDescription, dropDefs))]
  }

  function PruneFields(fields: seq<Field>, maxDescription: nat, dropDefs: bool): (r: seq<Field>)
    decreases fields, 2
  {
    if fields == [] then []
    else PruneFields(fields[..|fields| - 1], maxDescription, dropDefs) + PruneField(fields[|fields| - 1], maxDescription, dropDefs)
  }

  /** No pruning stage lengthens a schema or adds a `$ref`. */
  lemma {:induction false} PruneShrinks(j: Json, n: nat, d: bool)
    ensures Size(Prune(j, n, d)) <= Size(j) && Count(Prune(j, n, d)) <= Count(j)
    decreases j, 0
  {
    match j
    case Arr(items) => PruneItemsShrinks(items, n, d);
    case Obj(fields) =>
      PruneFieldsShrinks(fields, n, d);
      PruneKeepsNoNewRef(fields, n, d);
    case _ =>
  }

  lemma {:induction false} PruneItemsShrinks(items: seq<Json>, n: nat, d: bool)
    ensures ItemsSize(PruneItems(items, n, d)) <= ItemsSize(items)
    ensures CountItems(PruneItems(items, n, d)) <= CountItems(items)
    decreases items, 1
  {
    if items != [] {
      var init, last := items[..|items| - 1], items[|items| - 1];
      PruneItemsShrinks(init, n, d);
      PruneShrinks(last, n, d);
      var pruned := PruneItems(init, n, d);
      assert (pruned + [Prune(last, n, d)])[..|pruned|] == pruned;
    }
  }

  lemma OneField(f: Field)
    ensures FieldsSize([f]) == FieldSize(f) + 1 && CountFields([f]) == Count(f.value)
  {
    assert [f][..0] == [];
  }

  lemma {:induction false} PruneFieldShrinks(f: Field, n: nat, d: bool)
    ensures FieldsSize(PruneField(f, n, d)) <= FieldSize(f) + 1
    ensures CountFields(PruneField(f, n, d)) <= Count(f.value)
    decreases f, 1
  {
    PruneShrinks(f.value, n, d);
    if f.value.Str? { TrimmedIsShorter(f.value.s, n); }
    var kept := PruneField(f, n, d);
    if kept != [] {
      OneField(kept[0]);
      assert kept == [kept[0]];
      assert Size(kept[0].value) <= Size(f.value) && Count(kept[0].value) <= Count(f.value);
    }
  }

  lemma {:induction false} PruneFieldsShrinks(fields: seq<Field>, n: nat, d: bool)
    ensures FieldsSize(PruneFields(fields, n, d)) <= FieldsSize(fields)
    ensures CountFields(PruneFields(fields, n, d)) <= CountFields(fields)
    decreases fields, 2
  {
    if fields != [] {
      var init, last := fields[..|fields| - 1], fields[|fields| - 1];
      PruneFieldsShrinks(init, n, d);
      PruneFieldShrinks(last, n, d);
      FieldsSizeConcat(PruneFields(init, n, d), PruneField(last, n, d));
      CountFieldsConcat(PruneFields(init, n, d), PruneField(last, n, d));
    }
  }

  lemma {:induction false} PruneKeepsNoNewRef(fields: seq<Field>, n: nat, d: bool)
    ensures IsRef(PruneFields(fields, n, d)) ==> IsRef(fields)
    decreases fields
  {
    if fields != [] {
      var init, last := fields[..|fields| - 1], fields[|fields| - 1];
      PruneKeepsNoNewRef(init, n, d);
      var pruned, kept := PruneFields(init, n, d), PruneField(last, n, d);
      if i :| 0 <= i < |pruned + kept| && IsRefField((pruned + kept)[i]) {
        if i < |pruned| {
          assert IsRefField(pruned[i]);
          var k :| 0 <= k < |init| && IsRefField(init[k]);
          assert fields[k] == init[k];
        } else {
          assert IsRefField(last) && fields[|fields| - 1] == last;
        }
      }
    }
  }

  // ---------------------------------------------------- structural fallback

  /** First 32 textual items of `required`. */
  function KeptRequired(working: seq<Field>): (r: seq<string>)
    ensures |r| <= 32
  {
    var raw := Lookup(working, "required");
    if raw.Arr? then FirstTexts(raw.items, 32) else []
  }

  function FirstTexts(items: seq<Json>, room: nat): (r: seq<string>)
    ensures |r| <= room
  {
    if items == [] || room == 0 then []
    else if items[0].Str? then [items[0].s] + FirstTexts(items[1..], room - 1)
    else FirstTexts(items[1..], room)
  }

  /** A property reduced to its name and, when textual and non-empty, its type. */
  function Outline(prop: Field): (r: Field) {
    var t := if prop.value.Obj? then Lookup(prop.value.fields, "type") else Null;
    Field(prop.key, Obj(if t.Str? && t.s != "" then [Field("type", t)] else []))
  }

  function Outlines(props: seq<Field>): (r: seq<Field>)
    ensures |r| == |props| && forall i :: 0 <= i < |r| ==> r[i] == Outline(props[i])
  {
    if props == [] then [] else Outlines(props[..|props| - 1]) + [Outline(props[|props| - 1])]
  }

  function RequiredAmong(required: seq<string>, props: seq<Field>): (r: seq<Json>) {
    if required == [] then []
    else RequiredAmong(required[..|required| - 1], props)
         + if HasKey(props, required[|required| - 1]) then [Str(required[|required| - 1])] else []
  }

  /** The minimal schema around the outlines `compact`. */
  function Minimal(required: seq<string>, compact: seq<Field>): (r: Json)
    ensures r.Obj?
  {
    Obj([Field("type", Str("object")), Field("properties", Obj(compact))]
        + if required == [] then [] else [Field("required", Arr(RequiredAmong(required, compact)))])
  }

  /** The minimal schema that lists exactly the properties `props`. */
  function Shape(required: seq<string>, props: seq<Field>): (r: Json)
    ensures r.Obj?
  {
    Obj([Field("type", Str("object")), Field("properties", Obj(Outlines(props)))]
        + if required == [] then [] else [Field("required", Arr(RequiredAmong(required, props)))])
  }

  const BARE := Obj([Field("type", Str("object"))])

  lemma {:induction false} LettersAreSingle(s: string)
    requires forall i :: 0 <= i < |s| ==> 'a' <= s[i] <= 'z'
    ensures TextLen(s) == |s|
  {
    if s != "" { LettersAreSingle(s[..|s| - 1]); }
  }

  lemma BareIs17()
    ensures Size(BARE) == 17 && Count(BARE) == 0
  {
    var t := Field("type", Str("object"));
    LettersAreSingle("type");
    LettersAreSingle("object");
    NoRefsInside([t]);
    OneField(t);
  }

  // ------------------------------------------------- properties of the shape

  lemma ShapeHasNoRefs(required: seq<string>, props: seq<Field>)
    ensures Count(Shape(required, props)) == 0
  {
    OutlinesHaveNoRefs(props);
    RequiredIsKept(required, props);
    TextsHaveNoRefs(RequiredAmong(required, props));
    hide Outlines, RequiredAmong, HasKey;
    NoRefsInside(Shape(required, props).fields);
  }

  lemma OutlinesHaveNoRefs(props: seq<Field>)
    ensures Count(Obj(Outlines(props))) == 0
  {
    var outlines := Outlines(props);
    hide Outlines;
    forall i | 0 <= i < |outlines| ensures Count(outlines[i].value) == 0 { NoRefsInside(outlines[i].value.fields); }
    NoRefsInside(outlines);
  }

  lemma {:induction false} TextsHaveNoRefs(items: seq<Json>)
    requires forall i :: 0 <= i < |items| ==> items[i].Str?
    ensures CountItems(items) == 0
  {
    if items != [] { TextsHaveNoRefs(items[..|items| - 1]); }
  }

  /** `required` lists only kept property names, all of them requested. */
  lemma {:induction false} RequiredIsKept(required: seq<string>, props: seq<Field>)
    ensures forall i :: 0 <= i < |RequiredAmong(required, props)| ==>
      var r := RequiredAmong(required, props)[i]; r.Str? && r.s in required && HasKey(props, r.s)
  {
    if required != [] {
      RequiredIsKept(required[..|required| - 1], props);
    }
  }

  lemma {:induction false} RequiredGrows(required: seq<string>, props: seq<Field>, k: nat)
    requires k < |props|
    ensures ItemsSize(RequiredAmong(required, props[..k])) <= ItemsSize(RequiredAmong(required, props[..k + 1]))
  {
    if required != [] {
      var init, name := required[..|required| - 1], required[|required| - 1];
      RequiredGrows(init, props, k);
      var a, b := RequiredAmong(init, props[..k]), RequiredAmong(init, props[..k + 1]);
      OneItem(a, Str(name));
      OneItem(b, Str(name));
      assert HasKey(props[..k], name) ==> HasKey(props[..k + 1], name) by {
        if i :| 0 <= i < k && props[..k][i].key == name { assert props[..k + 1][i].key == name; }
      }
      assert a + [] == a && b + [] == b;
    }
  }

  lemma OneItem(items: seq<Json>, last: Json)
    ensures ItemsSize(items + [last]) == ItemsSize(items) + Size(last) + 1
  {
    assert (items + [last])[..|items|] == items;
  }

  /** One property more makes the minimal schema longer, never shorter. */
  lemma ShapeGrows(required: seq<string>, props: seq<Field>, k: nat)
    requires k < |props|
    ensures Size(Shape(required, props[..k])) <= Size(Shape(required, props[..k + 1]))
  {
    hide Shape, Outlines, RequiredAmong, TextLen, FieldsSize, ItemsSize;
    var a, b := props[..k], props[..k + 1];
    assert b[..k] == a;
    OutlinesGrow(a, b[k]);
    assert b == a + [b[k]];
    RequiredGrows(required, props, k);
    ShapeSize(required, a);
    ShapeSize(required, b);
  }

  lemma OutlinesGrow(props: seq<Field>, p: Field)
    ensures FieldsSize(Outlines(props)) <= FieldsSize(Outlines(props + [p]))
  {
    assert (props + [p])[..|props|] == props;
    FieldsSizeConcat(Outlines(props), [Outline(p)]);
  }

  lemma ShapeSize(required: seq<string>, props: seq<Field>)
    ensures Size(Shape(required, props)) ==
      1 + FieldSize(Field("type", Str("object"))) + 1 + FieldSize(Field("properties", Obj(Outlines(props)))) + 1
      + if required == [] then 0 else FieldSize(Field("required", Arr(RequiredAmong(required, props)))) + 1
  {
    var t, p := Field("type", Str("object")), Field("properties", Obj(Outlines(props)));
    var q := Field("required", Arr(RequiredAmong(required, props)));
    OneField(t); OneField(p); OneField(q);
    FieldsSizeConcat([t], [p]);
    assert [t] + [p] == [t, p];
    FieldsSizeConcat([t, p], [q]);
    assert [t, p] + [] == [t, p];
  }

  predicate Fits(required: seq<string>, props: seq<Field>, k: nat, maxChars: nat)
    requires k <= |props|
  {
    Size(Shape(required, props[..k])) <= maxChars
  }

  /** Reference: the largest k <= n whose first k properties fit, searched from the top. */
  function LongestFit(required: seq<string>, props: seq<Field>, n: nat, maxChars: nat): (k: nat)
    requires n <= |props|
    ensures k <= n && (k > 0 ==> Fits(required, props, k, maxChars))
    ensures forall i :: k < i <= n ==> !Fits(required, props, i, maxChars)
  {
    if n == 0 || Fits(required, props, n, maxChars) then n else LongestFit(required, props, n - 1, maxChars)
  }

  lemma {:induction false} TooLongStaysTooLong(required: seq<string>, props: seq<Field>, i: nat, j: nat, maxChars: nat)
    requires i <= j <= |props| && !Fits(required, props, i, maxChars)
    ensures !Fits(required, props, j, maxChars)
    decreases j
  {
    hide Shape, Size;
    if i < j {
      TooLongStaysTooLong(required, props, i, j - 1, maxChars);
      ShapeGrows(required, props, j - 1);
    }
  }

  /** The last resort: outlines of the longest prefix of the properties that fits. */
  function Fallback(working: seq<Field>, maxChars: nat): (r: Json) {
    var required, raw := KeptRequired(working), Lookup(working, "properties");
    var base := if raw.Obj? && raw.fields != []
                then Shape(required, raw.fields[..LongestFit(required, raw.fields, |raw.fields|, maxChars)])
                else BARE;
    var extra := Lookup(working, "additionalProperties");
    var full := if extra.Bool? then Obj(base.fields + [Field("additionalProperties", extra)]) else base;
    var best := if Size(full) <= maxChars then full else base;
    if Size(best) <= maxChars then best else BARE
  }

  lemma FallbackMeetsBudgets(working: seq<Field>, maxChars: nat)
    ensures Size(Fallback(working, maxChars)) <= Max(maxChars, 17) && Count(Fallback(working, maxChars)) == 0
  {
    BareIs17();
    hide Size, Shape;
    var required, raw := KeptRequired(working), Lookup(working, "properties");
    var base := BARE;
    if raw.Obj? && raw.fields != [] {
      var props := raw.fields[..LongestFit(required, raw.fields, |raw.fields|, maxChars)];
      ShapeHasNoRefs(required, props);
      base := Shape(required, props);
    }
    var extra := Lookup(working, "additionalProperties");
    if extra.Bool? { AdditionalHasNoRefs(base.fields, extra); }
  }

  lemma AdditionalHasNoRefs(fields: seq<Field>, extra: Json)
    requires Count(Obj(fields)) == 0 && extra.Bool?
    ensures Count(Obj(fields + [Field("additionalProperties", extra)])) == 0
  {
    OneField(Field("additionalProperties", extra));
    CountFieldsConcat(fields, [Field("additionalProperties", extra)]);
    var all := fields + [Field("additionalProperties", extra)];
    forall i | 0 <= i < |all| ensures !IsRefField(all[i]) {
      if i < |fields| { assert all[i] == fields[i]; }
    }
  }

  lemma {:induction false} OutlinesKeepRequired(required: seq<string>, props: seq<Field>)
    ensures RequiredAmong(required, Outlines(props)) == RequiredAmong(required, props)
  {
    if required != [] {
      OutlinesKeepRequired(required[..|required| - 1], props);
      var name, outlines := required[|required| - 1], Outlines(props);
      assert forall i :: 0 <= i < |props| ==> outlines[i].key == props[i].key;
      hide Outlines, Outline;
      assert HasKey(outlines, name) <==> HasKey(props, name);
    }
  }

  /** What the loop builds from the outlines it has collected is the shape of the properties. */
  lemma MinimalIsShape(required: seq<string>, props: seq<Field>)
    ensures Minimal(required, Outlines(props)) == Shape(required, props)
  {
    OutlinesKeepRequired(required, props);
    hide Outlines, RequiredAmong;
  }

  lemma OneMoreOutline(props: seq<Field>, k: nat)
    requires k < |props|
    ensures Outlines(props[..k + 1]) == Outlines(props[..k]) + [Outline(props[k])]
  {
    assert props[..k + 1][..k] == props[..k];
  }

  /** The loop of the source: outlines are added to a shared dictionary one at a time; the first
      that makes the schema too long is taken out again, and the loop stops. */
  method StructuralFallback(working: seq<Field>, maxChars: nat) returns (minimal: Json)
    ensures minimal == Fallback(working, maxChars)
  {
    hide Size, Shape, Minimal, Lookup, KeptRequired, Outlines, Outline;
    var required := KeptRequired(working);
    var raw := Lookup(working, "properties");
    minimal := BARE;
    if raw.Obj? {
      var props := raw.fields;
      var compact: seq<Field> := [];
      var i := 0;
      NoOutlines(props);
      while i < |props|
        invariant 0 <= i <= |props| && compact == Outlines(props[..i])
        invariant i > 0 ==> Fits(required, props, i, maxChars)
        invariant minimal == if i == 0 then BARE else Shape(required, props[..i])
      {
        OneMoreOutline(props, i);
        MinimalIsShape(required, props[..i]);
        MinimalIsShape(required, props[..i + 1]);
        compact := compact + [Outline(props[i])];
        minimal := Minimal(required, compact);
        if Size(minimal) > maxChars {
          compact := compact[..|compact| - 1];
          minimal := Minimal(required, compact);
          forall j | i < j <= |props| ensures !Fits(required, props, j, maxChars) {
            TooLongStaysTooLong(required, props, i + 1, j, maxChars);
          }
          break;
        }
        i := i + 1;
      }
      assert props[..|props|] == props;
    }
    var extra := Lookup(working, "additionalProperties");
    if extra.Bool? {
      var candidate := Obj(minimal.fields + [Field("additionalProperties", extra)]);
      if Size(candidate) <= maxChars { minimal := candidate; }
    }
    if Size(minimal) > maxChars { minimal := BARE; }
  }

  lemma NoOutlines(props: seq<Field>)
    ensures Outlines(props[..0]) == []
  {
  }

  // -------------------------------------------------------------- compaction

  const STAGES: seq<(nat, bool)> := [(160, false), (64, true), (0, true)]

  /** The schema after the first `i` pruning stages. */
  function Stage(j: Json, i: nat): (r: Json)
    requires i <= |STAGES|
    ensures j.Obj? <==> r.Obj?
  {
    if i == 0 then j else Prune(Stage(j, i - 1), STAGES[i - 1].0, STAGES[i - 1].1)
  }

  lemma {:induction false} StagesShrink(j: Json, i: nat)
    requires i <= |STAGES|
    ensures Size(Stage(j, i)) <= Size(j) && Count(Stage(j, i)) <= Count(j)
  {
    if i > 0 {
      StagesShrink(j, i - 1);
      PruneShrinks(Stage(j, i - 1), STAGES[i - 1].0, STAGES[i - 1].1);
    }
  }

  /** First stage from `i` on that fits, or the structural fallback of the last one. */
  function FirstFitting(j: Json, i: nat, maxChars: nat): (r: Json)
    requires j.Obj? && i <= |STAGES|
    decreases |STAGES| - i
  {
    if Size(Stage(j, i)) <= maxChars then Stage(j, i)
    else if i == |STAGES| then Fallback(Stage(j, i).fields, maxChars)
    else FirstFitting(j, i + 1, maxChars)
  }

  function Compaction(schema: Json, maxChars: nat, maxRefs: nat): (r: Json)
    requires schema.Obj?
  {
    FirstFitting(Strip(schema, maxRefs).0, 0, maxChars)
  }

  lemma {:induction false} FirstFittingMeetsBudgets(j: Json, i: nat, maxChars: nat)
    requires j.Obj? && i <= |STAGES|
    ensures Size(FirstFitting(j, i, maxChars)) <= Max(maxChars, 17)
    ensures Count(FirstFitting(j, i, maxChars)) <= Count(j)
    decreases |STAGES| - i
  {
    StagesShrink(j, i);
    if Size(Stage(j, i)) > maxChars {
      if i == |STAGES| { FallbackMeetsBudgets(Stage(j, i).fields, maxChars); } else { FirstFittingMeetsBudgets(j, i + 1, maxChars); }
    }
  }

  /** Both budgets hold for every schema, and a schema within both is returned unchanged. */
  lemma CompactionMeetsBudgets(schema: Json, maxChars: nat, maxRefs: nat)
    requires schema.Obj?
    ensures Size(Compaction(schema, maxChars, maxRefs)) <= Max(maxChars, 17)
    ensures Count(Compaction(schema, maxChars, maxRefs)) <= maxRefs
    ensures Size(schema) <= maxChars && Count(schema) <= maxRefs ==> Compaction(schema, maxChars, maxRefs) == schema
  {
    StripIsExact(schema, maxRefs);
    FirstFittingMeetsBudgets(Strip(schema, maxRefs).0, 0, maxChars);
  }

  // ----------------------------------------------- which limits can be met

  /** The schema with its `$ref`s stripped and every pruning stage applied. */
  function FullyPruned(schema: Json, maxRefs: nat): (r: Json) {
    Stage(Strip(schema, maxRefs).0, |STAGES|)
  }

  lemma ShapeIsNoShorterThanBare(required: seq<string>, props: seq<Field>)
    ensures Size(Shape(required, props)) >= 17
  {
    LettersAreSingle("type");
    LettersAreSingle("object");
    ShapeSize(required, props);
    hide Shape, Outlines, RequiredAmong;
  }

  lemma MoreFieldsAreLonger(fields: seq<Field>, more: Field)
    ensures Size(Obj(fields + [more])) >= Size(Obj(fields))
  {
    FieldsSizeConcat(fields, [more]);
  }

  lemma FallbackIsNoShorterThanBare(working: seq<Field>, maxChars: nat)
    ensures Size(Fallback(working, maxChars)) >= 17
  {
    BareIs17();
    hide Size, Shape;
    var required, raw := KeptRequired(working), Lookup(working, "properties");
    var base := BARE;
    if raw.Obj? && raw.fields != [] {
      var props := raw.fields[..LongestFit(required, raw.fields, |raw.fields|, maxChars)];
      ShapeIsNoShorterThanBare(required, props);
      base := Shape(required, props);
    }
    var extra := Lookup(working, "additionalProperties");
    if extra.Bool? { MoreFieldsAreLonger(base.fields, Field("additionalProperties", extra)); }
  }

  lemma {:induction false} LaterStagesShrink(j: Json, i: nat, k: nat)
    requires i <= k <= |STAGES|
    ensures Size(Stage(j, k)) <= Size(Stage(j, i))
    decreases k
  {
    if i < k {
      LaterStagesShrink(j, i, k - 1);
      PruneShrinks(Stage(j, k - 1), STAGES[k - 1].0, STAGES[k - 1].1);
    }
  }

  lemma {:induction false} FirstFittingFitsExactly(j: Json, i: nat, maxChars: nat)
    requires j.Obj? && i <= |STAGES|
    ensures Size(FirstFitting(j, i, maxChars)) <= maxChars <==> maxChars >= 17 || Size(Stage(j, |STAGES|)) <= maxChars
    decreases |STAGES| - i
  {
    hide Size, Fallback, Stage;
    LaterStagesShrink(j, i, |STAGES|);
    FirstFittingMeetsBudgets(j, i, maxChars);
    if Size(Stage(j, i)) > maxChars {
      if i == |STAGES| { FallbackIsNoShorterThanBare(Stage(j, i).fields, maxChars); } else { FirstFittingFitsExactly(j, i + 1, maxChars); }
    }
  }

  /** The character limit is met exactly when it leaves room for the bare object schema, 17 characters,
      or when the fully pruned schema is itself that short. */
  lemma LimitIsMetExactly(schema: Json, maxChars: nat, maxRefs: nat)
    requires schema.Obj?
    ensures Size(Compaction(schema, maxChars, maxRefs)) <= maxChars <==>
              maxChars >= 17 || Size(FullyPruned(schema, maxRefs)) <= maxChars
  {
    FirstFittingFitsExactly(Strip(schema, maxRefs).0, 0, maxChars);
  }

  lemma NullMemberIsKept(j: Json, dropDefs: bool, maxDescription: nat)
    requires j == Obj([Field("a", Null)])
    ensures Prune(j, maxDescription, dropDefs) == j && Strip(j, 0).0 == j && Size(j) == 10
  {
    var f := Field("a", Null);
    LettersAreSingle("a");
    OneField(f);
    assert [f][..0] == [];
    assert f.key == "a";
    assert PruneField(f, maxDescription, dropDefs) == [f];
  }

  /** Both cases below 17 occur: `{}` meets a limit of 5, `{"a":null}` does not. */
  lemma SmallLimitsMayBeMissed()
    ensures Compaction(Obj([]), 5, 0) == Obj([]) && Size(Obj([])) == 2
    ensures Size(Compaction(Obj([Field("a", Null)]), 5, 0)) > 5
  {
    var j := Obj([Field("a", Null)]);
    forall n, d ensures Prune(j, n, d) == j && Strip(j, 0).0 == j && Size(j) == 10 { NullMemberIsKept(j, d, n); }
    hide Prune, Strip, Size;
    assert Stage(j, 1) == j;
    assert Stage(j, 2) == j;
    assert FullyPruned(j, 0) == j;
    LimitIsMetExactly(j, 5, 0);
  }

  /** `validate_mcp_tool_schema_budget`, for limits it accepts. */
  predicate WithinBudgets(schema: Json, maxChars: nat, maxRefs: nat) {
    Size(schema) <= maxChars && Count(schema) <= maxRefs
  }

  /** A compacted schema passes the repository's own validation exactly when the limit can be met,
      and then compacting it again changes nothing. */
  lemma CompactionValidates(schema: Json, maxChars: nat, maxRefs: nat)
    requires schema.Obj?
    ensures var r := Compaction(schema, maxChars, maxRefs);
            && r.Obj?
            && (WithinBudgets(r, maxChars, maxRefs) <==> maxChars >= 17 || Size(FullyPruned(schema, maxRefs)) <= maxChars)
            && (WithinBudgets(r, maxChars, maxRefs) ==> Compaction(r, maxChars, maxRefs) == r)
  {
    hide Size, Count, Stage;
    CompactionMeetsBudgets(schema, maxChars, maxRefs);
    LimitIsMetExactly(schema, maxChars, maxRefs);
    FirstFittingIsObject(Strip(schema, maxRefs).0, 0, maxChars);
    CompactionMeetsBudgets(Compaction(schema, maxChars, maxRefs), maxChars, maxRefs);
  }

  lemma {:induction false} FirstFittingIsObject(j: Json, i: nat, maxChars: nat)
    requires j.Obj? && i <= |STAGES|
    ensures FirstFitting(j, i, maxChars).Obj?
    decreases |STAGES| - i
  {
    if i < |STAGES| { FirstFittingIsObject(j, i + 1, maxChars); }
  }

  datatype Outcome = Compacted(schema: Json) | NotMapping | BadCharBudget | BadRefBudget

  /** `compact_mcp_tool_schema`. The two later re-stripping branches are proved dead. */
  method CompactMcpToolSchema(schema: Json, maxChars: int, maxRefs: int) returns (r: Outcome)
    ensures r.NotMapping? <==> !schema.Obj?
    ensures r.BadCharBudget? <==> schema.Obj? && maxChars <= 0
    ensures r.BadRefBudget? <==> schema.Obj? && maxChars > 0 && maxRefs < 0
    ensures r.Compacted? ==> r.schema == Compaction(schema, maxChars, maxRefs)
    ensures r.Compacted? ==> Size(r.schema) <= Max(maxChars, 17) && Count(r.schema) <= maxRefs
  {
    hide Size, Count, Strip, Prune, Fallback;
    if !schema.Obj? { return NotMapping; }
    if maxChars <= 0 { return BadCharBudget; }
    if maxRefs < 0 { return BadRefBudget; }
    CompactionMeetsBudgets(schema, maxChars, maxRefs);
    StripIsExact(schema, maxRefs);
    var working := schema;
    if Count(working) > maxRefs {
      var budget := new nat[1] [maxRefs];
      working := StripExcessSchemaRefs(working, budget);
      if Count(working) > maxRefs { assert false; }
    }
    if Size(working) <= maxChars { return Compacted(working); }
    ghost var start := working;
    var stage := 0;
    while stage < |STAGES|
      invariant 0 <= stage <= |STAGES| && working == Stage(start, stage)
      invariant Size(working) > maxChars
      invariant FirstFitting(start, 0, maxChars) == FirstFitting(start, stage, maxChars)
    {
      var candidate := Prune(working, STAGES[stage].0, STAGES[stage].1);
      StagesShrink(start, stage + 1);
      assert candidate == Stage(start, stage + 1);
      if Count(candidate) > maxRefs { assert false; }
      if Size(candidate) <= maxChars { return Compacted(candidate); }
      working := candidate;
      stage := stage + 1;
    }
    var minimal := StructuralFallback(working.fields, maxChars);
    r := Compacted(minimal);
  }
}
