/** What compaction does to a schema, read off the values at paths of keys and positions. */
module SchemaMeaning {
  import opened Options
  import opened JsonTree
  import opened SchemaRefs
  import opened SchemaCompaction

  datatype Turn = Key(key: string) | Index(i: nat)

  type Route = seq<Turn>

  /** The value of a member, if there is one. */
  function Member(fields: seq<Field>, key: string): (j: Option<Json>)
    ensures j.Some? ==> exists f :: f in fields && f.key == key && f.value == j.value
  {
    if fields == [] then None
    else if fields[0].key == key then Some(fields[0].value)
    else Member(fields[1..], key)
  }

  /** One turn into a value. */
  function Child(j: Json, t: Turn): (r: Option<Json>) {
    match t
    case Key(k) => if j.Obj? then Member(j.fields, k) else None
    case Index(i) => if j.Arr? && i < |j.items| then Some(j.items[i]) else None
  }

  /** The value at the end of a route, if there is one. */
  function At(j: Json, p: Route): (r: Option<Json>) {
    if p == [] then Some(j) else if Child(j, p[0]).Some? then At(Child(j, p[0]).value, p[1..]) else None
  }

  predicate UniqueKeys(fields: seq<Field>) {
    forall i, j :: 0 <= i < j < |fields| ==> fields[i].key != fields[j].key
  }

  /** No object on any route names a member twice, as no dictionary does. */
  ghost predicate Proper(j: Json) {
    forall p :: At(j, p).Some? && At(j, p).value.Obj? ==> UniqueKeys(At(j, p).value.fields)
  }

  lemma ProperChild(j: Json, t: Turn)
    requires Proper(j) && Child(j, t).Some?
    ensures Proper(Child(j, t).value) && (j.Obj? ==> UniqueKeys(j.fields))
  {
    assert At(j, []) == Some(j);
    var c := Child(j, t).value;
    forall p | At(c, p).Some? && At(c, p).value.Obj? ensures UniqueKeys(At(c, p).value.fields) {
      assert ([t] + p)[1..] == p && At(j, [t] + p) == At(c, p);
    }
  }

  // ---------------------------------------------------------------- cutting a text

  predicate AllSpace(s: string) {
    forall i :: 0 <= i < |s| ==> IsSpace(s[i])
  }

  /** `t` is the first `n` characters of `s` without the whitespace at its ends. */
  ghost predicate IsCut(s: string, n: nat, t: string) {
    exists before, kept, after :: IsStripped(s, before, kept, after) && t == if |kept| <= n then kept else kept[..n]
  }

  predicate IsStripped(s: string, before: string, kept: string, after: string) {
    && s == before + kept + after && AllSpace(before) && AllSpace(after)
    && (kept != "" ==> !IsSpace(kept[0]) && !IsSpace(kept[|kept| - 1]))
  }

  /** The whitespace at the ends of a text is made of these characters and no others. */
  lemma SpacesAre(c: char)
    ensures IsSpace(c) <==>
      c as int in {9, 10, 11, 12, 13, 28, 29, 30, 31, 32, 0x85, 0xA0, 0x1680, 0x2000, 0x2001, 0x2002, 0x2003, 0x2004, 0x2005,
                   0x2006, 0x2007, 0x2008, 0x2009, 0x200A, 0x2028, 0x2029, 0x202F, 0x205F, 0x3000}
  {
  }

  lemma TrimmedIsCut(s: string, n: nat)
    ensures IsCut(s, n, Trimmed(s, n))
  {
    var lo := TrimStart(s);
    var hi := TrimEnd(s, lo);
    StrippedAt(s, lo, hi);
    TrimmedSlice(s, n);
    CutOf(s, n, s[..lo], s[lo..hi], s[hi..]);
  }

  lemma CutOf(s: string, n: nat, before: string, kept: string, after: string)
    requires IsStripped(s, before, kept, after)
    ensures IsCut(s, n, if |kept| <= n then kept else kept[..n])
  {
    hide IsStripped;
  }

  lemma TrimmedSlice(s: string, n: nat)
    ensures var kept := s[TrimStart(s)..TrimEnd(s, TrimStart(s))];
            Trimmed(s, n) == if |kept| <= n then kept else kept[..n]
  {
    hide TrimStart, TrimEnd;
    var lo := TrimStart(s);
    var hi := TrimEnd(s, lo);
    var kept := s[lo..hi];
    if |kept| > n { assert kept[..n] == s[lo..lo + n]; }
  }

  lemma StrippedAt(s: string, lo: nat, hi: nat)
    requires lo <= hi <= |s| && (forall i :: 0 <= i < lo ==> IsSpace(s[i])) && (forall i :: hi <= i < |s| ==> IsSpace(s[i]))
    requires lo < hi ==> !IsSpace(s[lo]) && !IsSpace(s[hi - 1])
    ensures IsStripped(s, s[..lo], s[lo..hi], s[hi..])
  {
    hide IsSpace;
    assert s == s[..lo] + s[lo..hi] + s[hi..];
  }

  // ------------------------------------------------------------------------ pruning

  /** A key that every pruning drops, or, with `dropDefs`, one that names definitions. */
  predicate Dropped(key: string, dropDefs: bool) {
    || key in {"examples", "default", "title", "$comment", "deprecated", "readOnly", "writeOnly"}
    || (dropDefs && key in {"$defs", "definitions"})
  }

  predicate IsDescription(t: Turn, v: Json) {
    t == Key("description") && v.Str?
  }

  /** What pruning leaves at the end of a route: nothing behind a dropped key; of a textual description its cut, if that
  is not empty; otherwise a value of the same kind, arrays of the same length and any other leaf as it is. */
  ghost predicate PrunedAt(j: Json, r: Json, n: nat, dropDefs: bool, p: Route)
    decreases |p|
  {
    if p == [] then
      match j
      case Arr(items) => r.Arr? && |r.items| == |items|
      case Obj(_) => r.Obj?
      case _ => r == j
    else if Child(j, p[0]).None? || (p[0].Key? && Dropped(p[0].key, dropDefs)) then At(r, p).None?
    else if IsDescription(p[0], Child(j, p[0]).value) then
      exists t :: IsCut(Child(j, p[0]).value.s, n, t) && At(r, p) == if |p| == 1 && t != "" then Some(Str(t)) else None
    else Child(r, p[0]).Some? && PrunedAt(Child(j, p[0]).value, Child(r, p[0]).value, n, dropDefs, p[1..])
  }

  ghost predicate IsPruned(j: Json, r: Json, n: nat, dropDefs: bool) {
    forall p :: PrunedAt(j, r, n, dropDefs, p)
  }

  lemma {:induction false} PrunedItems(items: seq<Json>, n: nat, d: bool)
    ensures |PruneItems(items, n, d)| == |items|
    ensures forall i :: 0 <= i < |items| ==> PruneItems(items, n, d)[i] == Prune(items[i], n, d)
  {
    hide Prune;
    if items != [] { PrunedItems(items[..|items| - 1], n, d); }
  }

  lemma {:induction false} MemberInParts(a: seq<Field>, b: seq<Field>, key: string)
    ensures Member(a + b, key) == if Member(a, key).Some? then Member(a, key) else Member(b, key)
  {
    if a == [] {
      assert a + b == b;
    } else {
      assert (a + b)[1..] == a[1..] + b;
      MemberInParts(a[1..], b, key);
    }
  }

  lemma OneMember(f: Field, key: string)
    ensures Member([f], key) == if f.key == key then Some(f.value) else None
  {
    assert [f][1..] == [];
  }

  lemma {:induction false} NoMember(fields: seq<Field>, key: string)
    ensures Member(fields, key).None? <==> forall f :: f in fields ==> f.key != key
  {
    if fields != [] { NoMember(fields[1..], key); }
  }

  /** What pruning makes of a member depends on that member alone. */
  lemma {:induction false} PrunedMember(fields: seq<Field>, n: nat, d: bool, key: string)
    requires UniqueKeys(fields)
    ensures Member(PruneFields(fields, n, d), key) ==
      match Member(fields, key)
      case None => None
      case Some(v) => if PruneField(Field(key, v), n, d) == [] then None else Some(PruneField(Field(key, v), n, d)[0].value)
  {
    if fields != [] {
      var init, last := fields[..|fields| - 1], fields[|fields| - 1];
      PrunedMember(init, n, d, key);
      LastPruned(fields, n, d);
      MemberInParts(init, [last], key);
      OneMember(last, key);
      MemberInParts(PruneFields(init, n, d), PruneField(last, n, d), key);
      PrunedAlone(last, n, d, key);
      if last.key == key { NoMember(init, key); }
      hide *;
    }
  }

  lemma LastPruned(fields: seq<Field>, n: nat, d: bool)
    requires fields != []
    ensures var init, last := fields[..|fields| - 1], fields[|fields| - 1];
            fields == init + [last] && PruneFields(fields, n, d) == PruneFields(init, n, d) + PruneField(last, n, d)
  {
    hide PruneField;
  }

  lemma PrunedAlone(f: Field, n: nat, d: bool, key: string)
    ensures Member(PruneField(f, n, d), key) ==
      if f.key == key && PruneField(f, n, d) != [] then Some(PruneField(f, n, d)[0].value) else None
  {
    hide PruneField;
    var r := PruneField(f, n, d);
    if r != [] {
      assert r == [r[0]];
      OneMember(r[0], key);
    }
  }

  /** Pruning does what it should at the end of every route. */
  lemma {:induction false} PruneIsPruned(j: Json, n: nat, d: bool, p: Route)
    requires Proper(j)
    ensures PrunedAt(j, Prune(j, n, d), n, d, p)
    decreases |p|
  {
    if p == [] {
      if j.Arr? { PrunedItems(j.items, n, d); }
    } else {
      PruneOneTurn(j, n, d, p[0]);
      if Child(j, p[0]).Some? {
        ProperChild(j, p[0]);
        PruneIsPruned(Child(j, p[0]).value, n, d, p[1..]);
        if IsDescription(p[0], Child(j, p[0]).value) { TrimmedIsCut(Child(j, p[0]).value.s, n); }
      }
      hide Prune, Trimmed, Proper, IsCut, PrunedAt;
      PrunedTurn(j, Prune(j, n, d), n, d, p);
    }
  }

  /** What pruning makes of the values one turn away. */
  lemma PruneOneTurn(j: Json, n: nat, d: bool, t: Turn)
    requires Proper(j)
    ensures var before, after := Child(j, t), Child(Prune(j, n, d), t);
            if before.None? || (t.Key? && Dropped(t.key, d)) then after.None?
            else if IsDescription(t, before.value) then
              after == if Trimmed(before.value.s, n) == "" then None else Some(Str(Trimmed(before.value.s, n)))
            else after == Some(Prune(before.value, n, d))
  {
    hide Trimmed, PruneItems, PruneFields, Member;
    if j.Arr? {
      PrunedItems(j.items, n, d);
    } else if j.Obj? && t.Key? {
      assert At(j, []) == Some(j);
      PrunedMember(j.fields, n, d, t.key);
      if Member(j.fields, t.key).Some? { PrunedValue(t.key, Member(j.fields, t.key).value, n, d); }
      hide PruneField, Prune;
      assert Prune(j, n, d) == Obj(PruneFields(j.fields, n, d)) by { PruneOfObject(j, n, d); }
    }
    hide Proper;
  }

  lemma PruneOfObject(j: Json, n: nat, d: bool)
    requires j.Obj?
    ensures Prune(j, n, d) == Obj(PruneFields(j.fields, n, d))
  {
    hide PruneFields;
  }

  lemma PrunedValue(key: string, v: Json, n: nat, d: bool)
    ensures var kept := PruneField(Field(key, v), n, d);
            if Dropped(key, d) then kept == []
            else if IsDescription(Key(key), v) then
              kept == if Trimmed(v.s, n) == "" then [] else [Field(key, Str(Trimmed(v.s, n)))]
            else kept == [Field(key, Prune(v, n, d))]
  {
    hide Trimmed, Prune;
  }

  lemma PrunedTurn(j: Json, r: Json, n: nat, d: bool, p: Route)
    requires p != []
    requires var before, after := Child(j, p[0]), Child(r, p[0]);
             if before.None? || (p[0].Key? && Dropped(p[0].key, d)) then after.None?
             else if IsDescription(p[0], before.value) then
               exists t :: IsCut(before.value.s, n, t) && after == if t == "" then None else Some(Str(t))
             else after.Some? && PrunedAt(before.value, after.value, n, d, p[1..])
    ensures PrunedAt(j, r, n, d, p)
  {
    hide IsCut;
    var before, after := Child(j, p[0]), Child(r, p[0]);
    if before.Some? && !(p[0].Key? && Dropped(p[0].key, d)) && IsDescription(p[0], before.value) {
      var t :| IsCut(before.value.s, n, t) && after == if t == "" then None else Some(Str(t));
      if t != "" && |p| > 1 { assert Child(Str(t), p[1]).None?; }
      assert At(r, p) == if |p| == 1 && t != "" then Some(Str(t)) else None;
    }
  }

  // ----------------------------------------------------------------- keys stay unique

  lemma {:induction false} PrunedKeysStayUnique(fields: seq<Field>, n: nat, d: bool)
    requires UniqueKeys(fields)
    ensures UniqueKeys(PruneFields(fields, n, d))
    ensures forall f :: f in PruneFields(fields, n, d) ==> exists g :: g in fields && g.key == f.key
  {
    hide PruneField;
    if fields != [] {
      var init, last := fields[..|fields| - 1], fields[|fields| - 1];
      PrunedKeysStayUnique(init, n, d);
      assert fields == init + [last];
      var kept := PruneField(last, n, d);
      if kept != [] { assert kept == [kept[0]] && kept[0].key == last.key; }
    }
  }

  /** The value at the end of a route after pruning is the pruned value, or a text. */
  lemma {:induction false} PrunedValueAt(j: Json, n: nat, d: bool, p: Route)
    requires Proper(j)
    ensures var r := At(Prune(j, n, d), p);
            r.Some? ==> At(j, p).Some? && (r.value.Str? || r == Some(Prune(At(j, p).value, n, d)))
    decreases |p|
  {
    hide Prune, Trimmed, Proper;
    if p != [] {
      PruneOneTurn(j, n, d, p[0]);
      var after := Child(Prune(j, n, d), p[0]);
      if after.Some? {
        ProperChild(j, p[0]);
        if IsDescription(p[0], Child(j, p[0]).value) {
          if |p| > 1 { assert Child(after.value, p[1]).None?; }
        } else {
          PrunedValueAt(Child(j, p[0]).value, n, d, p[1..]);
        }
      }
    }
  }

  lemma PruneStaysProper(j: Json, n: nat, d: bool)
    requires Proper(j)
    ensures Proper(Prune(j, n, d))
  {
    forall p | At(Prune(j, n, d), p).Some? && At(Prune(j, n, d), p).value.Obj?
      ensures UniqueKeys(At(Prune(j, n, d), p).value.fields)
    {
      PrunedValueAt(j, n, d, p);
      var v := At(j, p).value;
      assert v.Obj?;
      PruneOfObject(v, n, d);
      PrunedKeysStayUnique(v.fields, n, d);
    }
  }

  // ------------------------------------------------------------- stripping references

  /** What is left of a budget after so many references. */
  function Left(budget: nat, used: nat): (left: nat) {
    if used >= budget then 0 else budget - used
  }

  /** Where the first member of that name stands. */
  function Position(fields: seq<Field>, key: string): (k: nat)
    ensures k <= |fields| && (k < |fields| ==> fields[k].key == key) && forall i :: 0 <= i < k ==> fields[i].key != key
  {
    if fields == [] || fields[0].key == key then 0 else 1 + Position(fields[1..], key)
  }

  lemma {:induction false} MemberAtPosition(fields: seq<Field>, key: string)
    ensures var k := Position(fields, key); Member(fields, key) == if k < |fields| then Some(fields[k].value) else None
  {
    if fields != [] && fields[0].key != key { MemberAtPosition(fields[1..], key); }
  }

  /** The object carries a textual reference. */
  predicate HasRef(j: Json) {
    j.Obj? && exists f :: f in j.fields && f.key == "$ref" && f.value.Str?
  }

  /** References in a value met before the part one turn away. */
  function RefsAhead(j: Json, t: Turn): (n: nat) {
    match j
    case Arr(items) => if t.Index? && t.i < |items| then CountItems(items[..t.i]) else 0
    case Obj(fields) =>
      (if HasRef(j) then 1 else 0) + if t.Key? then CountFields(fields[..Position(fields, t.key)]) else 0
    case _ => 0
  }

  /** What an object is replaced by when no reference is left for it: its type and its description, cut to 160. */
  ghost predicate IsStub(j: Json, r: Json)
    requires j.Obj?
  {
    var d := Lookup(j.fields, "description");
    if d.Str? then exists t :: IsCut(d.s, 160, t) && r == StubWith(t) else r == StubWith("")
  }

  function StubWith(description: string): (r: Json) {
    Obj([Field("type", Str("object"))] + if description == "" then [] else [Field("description", Str(description))])
  }

  /** What stripping leaves at the end of a route. The budget goes to references in document order; an object met when it
  is used up becomes a stub; everything else stays, with its parts treated alike. */
  ghost predicate StrippedRight(j: Json, r: Json, budget: nat, p: Route)
    decreases |p|
  {
    if HasRef(j) && budget == 0 then IsStub(j, r)
    else if p == [] then
      match j
      case Arr(items) => r.Arr? && |r.items| == |items|
      case Obj(fields) => r.Obj? && |r.fields| == |fields| && forall i :: 0 <= i < |fields| ==> r.fields[i].key == fields[i].key
      case _ => r == j
    else if Child(j, p[0]).None? || Child(r, p[0]).None? then Child(j, p[0]).None? && Child(r, p[0]).None?
    else StrippedRight(Child(j, p[0]).value, Child(r, p[0]).value, Left(budget, RefsAhead(j, p[0])), p[1..])
  }

  lemma RefIsRef(fields: seq<Field>)
    ensures HasRef(Obj(fields)) <==> IsRef(fields)
  {
    if f :| f in fields && f.key == "$ref" && f.value.Str? {
      var i :| 0 <= i < |fields| && fields[i] == f;
      assert IsRefField(fields[i]);
    }
  }

  lemma {:induction false} StrippedItem(items: seq<Json>, budget: nat, i: nat)
    requires i < |items|
    ensures |StripItems(items, budget).0| == |items|
    ensures StripItems(items, budget).0[i] == Strip(items[i], Left(budget, CountItems(items[..i]))).0
    decreases |items|
  {
    hide *;
    var n := |items| - 1;
    LastItemStripped(items, budget);
    StripItemsLength(items, budget);
    if i < n {
      StrippedItem(items[..n], budget, i);
      assert items[..n][..i] == items[..i];
    } else {
      StripItemsIsExact(items[..n], budget);
      LeftIs(budget, CountItems(items[..n]));
    }
  }

  lemma LastItemStripped(items: seq<Json>, budget: nat)
    requires items != []
    ensures var (before, left) := StripItems(items[..|items| - 1], budget);
            |before| == |items| - 1 && StripItems(items, budget).0 == before + [Strip(items[|items| - 1], left).0]
  {
    StripItemsLength(items[..|items| - 1], budget);
    hide Strip;
  }

  lemma LeftIs(budget: nat, used: nat)
    ensures budget - Min(used, budget) == Left(budget, used)
  {
  }

  lemma {:induction false} StripItemsLength(items: seq<Json>, budget: nat)
    ensures |StripItems(items, budget).0| == |items|
  {
    hide Strip;
    if items != [] { StripItemsLength(items[..|items| - 1], budget); }
  }

  lemma {:induction false} StrippedField(fields: seq<Field>, budget: nat, i: nat)
    requires i < |fields|
    ensures StripFields(fields, budget).0[i].value == Strip(fields[i].value, Left(budget, CountFields(fields[..i]))).0
    decreases |fields|
  {
    hide *;
    var n := |fields| - 1;
    LastStripped(fields, budget);
    if i < n {
      StrippedField(fields[..n], budget, i);
      assert fields[..n][..i] == fields[..i];
    } else {
      StripFieldsIsExact(fields[..n], budget);
      LeftIs(budget, CountFields(fields[..n]));
    }
  }

  lemma LastStripped(fields: seq<Field>, budget: nat)
    requires fields != []
    ensures var n := |fields| - 1;
            var (before, left) := StripFields(fields[..n], budget);
            StripFields(fields, budget).0 == before + [Field(fields[n].key, Strip(fields[n].value, left).0)]
  {
    hide Strip;
  }

  lemma {:induction false} SameKeysSamePosition(a: seq<Field>, b: seq<Field>, key: string)
    requires |a| == |b| && forall i :: 0 <= i < |a| ==> a[i].key == b[i].key
    ensures Position(a, key) == Position(b, key)
  {
    if a != [] && a[0].key != key { SameKeysSamePosition(a[1..], b[1..], key); }
  }

  lemma StubIsStub(fields: seq<Field>)
    ensures IsStub(Obj(fields), Stub(fields))
  {
    var d := Lookup(fields, "description");
    if d.Str? { TrimmedIsCut(d.s, 160); }
    hide Trimmed, Lookup, IsCut;
  }

  lemma StripOneTurn(j: Json, budget: nat, t: Turn)
    requires !(HasRef(j) && budget == 0) && Child(j, t).Some?
    ensures Child(Strip(j, budget).0, t) == Some(Strip(Child(j, t).value, Left(budget, RefsAhead(j, t))).0)
  {
    hide Strip, Member, HasRef, CountItems, CountFields;
    if j.Arr? {
      StripOfArray(j, budget);
      StrippedItem(j.items, budget, t.i);
    } else {
      StripOneKey(j, budget, t.key);
    }
  }

  lemma StripOfArray(j: Json, budget: nat)
    requires j.Arr?
    ensures Strip(j, budget).0 == Arr(StripItems(j.items, budget).0) && |StripItems(j.items, budget).0| == |j.items|
  {
    StripItemsLength(j.items, budget);
    hide StripItems;
  }

  lemma StripOneKey(j: Json, budget: nat, key: string)
    requires j.Obj? && !(HasRef(j) && budget == 0) && Member(j.fields, key).Some?
    ensures Child(Strip(j, budget).0, Key(key)) == Some(Strip(Member(j.fields, key).value, Left(budget, RefsAhead(j, Key(key)))).0)
  {
    hide Strip, StripFields, Member, Position, IsRef, HasRef, CountFields;
    RefIsRef(j.fields);
    assert Obj(j.fields) == j;
    var b := if IsRef(j.fields) then budget - 1 else budget;
    var k := Position(j.fields, key);
    MemberAtPosition(j.fields, key);
    SameKeysSamePosition(j.fields, StripFields(j.fields, b).0, key);
    MemberAtPosition(StripFields(j.fields, b).0, key);
    StrippedField(j.fields, b, k);
    StripOfObject(j, budget);
    assert Left(b, CountFields(j.fields[..k])) == Left(budget, RefsAhead(j, Key(key)));
  }

  lemma StripOfObject(j: Json, budget: nat)
    requires j.Obj? && !(IsRef(j.fields) && budget == 0)
    ensures Strip(j, budget).0 == Obj(StripFields(j.fields, if IsRef(j.fields) then budget - 1 else budget).0)
  {
    hide StripFields;
  }

  /** Stripping does what it should at the end of every route. */
  lemma {:induction false} StripIsRight(j: Json, budget: nat, p: Route)
    ensures StrippedRight(j, Strip(j, budget).0, budget, p)
    decreases |p|
  {
    if j.Obj? { RefIsRef(j.fields); }
    if HasRef(j) && budget == 0 {
      StubIsStub(j.fields);
    } else if p == [] {
      if j.Arr? { StripItemsLength(j.items, budget); }
    } else if Child(j, p[0]).Some? {
      hide Strip, HasRef;
      StripOneTurn(j, budget, p[0]);
      StripIsRight(Child(j, p[0]).value, Left(budget, RefsAhead(j, p[0])), p[1..]);
    } else {
      NoChildAfterStrip(j, budget, p[0]);
    }
  }

  lemma NoChildAfterStrip(j: Json, budget: nat, t: Turn)
    requires !(HasRef(j) && budget == 0) && Child(j, t).None?
    ensures Child(Strip(j, budget).0, t).None?
  {
    if j.Arr? {
      StripItemsLength(j.items, budget);
    } else if j.Obj? && t.Key? {
      RefIsRef(j.fields);
      StripOfObject(j, budget);
      var after := StripFields(j.fields, if IsRef(j.fields) then budget - 1 else budget).0;
      MemberAtPosition(j.fields, t.key);
      SameKeysSamePosition(j.fields, after, t.key);
      MemberAtPosition(after, t.key);
      hide Strip, StripFields, Member, Position;
    }
  }

  lemma StubIsProper(fields: seq<Field>, p: Route)
    ensures var v := At(Stub(fields), p); v.Some? && v.value.Obj? ==> UniqueKeys(v.value.fields)
  {
    hide Trimmed, Lookup;
    var stub := Stub(fields).fields;
    if p != [] && p[0].Key? {
      NoMember(stub, p[0].key);
      var c := Member(stub, p[0].key);
      if c.Some? && |p| > 1 { assert Child(c.value, p[1]).None?; }
    }
  }

  lemma {:induction false} StripStaysProper(j: Json, budget: nat, p: Route)
    requires Proper(j)
    ensures var v := At(Strip(j, budget).0, p); v.Some? && v.value.Obj? ==> UniqueKeys(v.value.fields)
    decreases |p|
  {
    if HasRef(j) && budget == 0 {
      RefIsRef(j.fields);
      StubIsProper(j.fields, p);
    } else if p == [] {
      StripIsRight(j, budget, []);
      assert At(j, []) == Some(j);
      hide Strip;
    } else if Child(j, p[0]).Some? {
      StripOneTurn(j, budget, p[0]);
      ProperChild(j, p[0]);
      StripStaysProper(Child(j, p[0]).value, Left(budget, RefsAhead(j, p[0])), p[1..]);
      hide Strip, Proper, HasRef;
    } else {
      NoChildAfterStrip(j, budget, p[0]);
    }
  }

  // ------------------------------------------------------------- the structural fallback

  /** The textual items among these. */
  function TextsAmong(items: seq<Json>): (r: seq<string>) {
    if items == [] then [] else (if items[0].Str? then [items[0].s] else []) + TextsAmong(items[1..])
  }

  lemma {:induction false} FirstTextsAre(items: seq<Json>, room: nat)
    ensures var all := TextsAmong(items); FirstTexts(items, room) == if |all| <= room then all else all[..room]
    decreases |items|
  {
    if items != [] && room > 0 { FirstTextsAre(items[1..], if items[0].Str? then room - 1 else room); }
  }

  lemma {:induction false} LookupIsMember(fields: seq<Field>, key: string)
    ensures Lookup(fields, key) == if Member(fields, key).Some? then Member(fields, key).value else Null
  {
    if fields != [] { LookupIsMember(fields[1..], key); }
  }

  /** The outline of a property: its name and, if it is an object with a textual, non-empty type, that type. */
  predicate IsOutlineOf(prop: Field, r: Field) {
    && r.key == prop.key
    && r.value == match Child(prop.value, Key("type"))
                  case Some(Str(t)) => if t == "" then Obj([]) else Obj([Field("type", Str(t))])
                  case _ => Obj([])
  }

  lemma OutlineIs(prop: Field)
    ensures IsOutlineOf(prop, Outline(prop))
  {
    if prop.value.Obj? { LookupIsMember(prop.value.fields, "type"); }
  }

  /** Filtering the requested names keeps each name that is a key of `props`, in order. */
  lemma {:induction false} RequiredAmongAdds(a: seq<string>, b: seq<string>, props: seq<Field>)
    ensures RequiredAmong(a + b, props) == RequiredAmong(a, props) + RequiredAmong(b, props)
    ensures forall name :: RequiredAmong([name], props) == if exists f :: f in props && f.key == name then [Str(name)] else []
  {
    forall name ensures RequiredAmong([name], props) == if exists f :: f in props && f.key == name then [Str(name)] else [] {
      assert [name][..0] == [];
      if f :| f in props && f.key == name {
        var i :| 0 <= i < |props| && props[i] == f;
        assert props[i].key == name;
      }
    }
    if b == [] {
      assert a + b == a;
    } else {
      hide HasKey;
      RequiredAmongAdds(a, b[..|b| - 1], props);
      assert (a + b)[..|a + b| - 1] == a + b[..|b| - 1];
    }
  }

  /** The requested names a fallback keeps: the first 32 texts of "required". */
  function Requested(working: Json): (r: seq<string>) {
    var raw := Child(working, Key("required"));
    var all := if raw.Some? && raw.value.Arr? then TextsAmong(raw.value.items) else [];
    if |all| <= 32 then all else all[..32]
  }

  function Properties(working: Json): (r: seq<Field>) {
    var raw := Child(working, Key("properties"));
    if raw.Some? && raw.value.Obj? then raw.value.fields else []
  }

  /** Outlines of the first k properties. */
  predicate AreOutlines(props: seq<Field>, k: nat, outlines: seq<Field>) {
    k == |outlines| <= |props| && forall i :: 0 <= i < k ==> IsOutlineOf(props[i], outlines[i])
  }

  /** The type; the outlines, if there are properties; and, if names are requested, those that are outlined. */
  function Around(props: seq<Field>, names: seq<string>, outlines: seq<Field>): (r: Json) {
    Obj([Field("type", Str("object"))]
        + (if props == [] then [] else [Field("properties", Obj(outlines))])
        + (if props == [] || names == [] then [] else [Field("required", Arr(RequiredAmong(names, outlines)))]))
  }

  /** A minimal object schema with the first k properties. */
  ghost predicate IsMinimal(working: Json, k: nat, r: Json) {
    exists outlines :: AreOutlines(Properties(working), k, outlines) && r == Around(Properties(working), Requested(working), outlines)
  }

  lemma RequestedAre(fields: seq<Field>)
    ensures KeptRequired(fields) == Requested(Obj(fields))
  {
    LookupIsMember(fields, "required");
    var raw := Lookup(fields, "required");
    if raw.Arr? { FirstTextsAre(raw.items, 32); }
  }

  lemma PropertiesAre(fields: seq<Field>)
    ensures var raw := Lookup(fields, "properties"); Properties(Obj(fields)) == if raw.Obj? then raw.fields else []
  {
    LookupIsMember(fields, "properties");
  }

  lemma OutlinesAreOutlines(props: seq<Field>, k: nat, outlines: seq<Field>)
    requires k <= |props|
    ensures AreOutlines(props, k, outlines) <==> outlines == Outlines(props[..k])
  {
    var all := Outlines(props[..k]);
    forall i | 0 <= i < k ensures IsOutlineOf(props[i], all[i]) { OutlineIs(props[i]); }
    hide Outlines, Outline;
    if AreOutlines(props, k, outlines) {
      forall i | 0 <= i < k ensures outlines[i] == all[i] { assert outlines[i].key == all[i].key && outlines[i].value == all[i].value; }
    }
  }

  lemma AroundIsShape(props: seq<Field>, names: seq<string>, k: nat)
    requires k <= |props|
    ensures Around(props, names, Outlines(props[..k])) == if props == [] then BARE else Shape(names, props[..k])
  {
    OutlinesKeepRequired(names, props[..k]);
    hide Outlines, RequiredAmong;
  }

  /** The minimal schema with k properties is that one and no other. */
  lemma MinimalIs(working: Json, k: nat, r: Json)
    requires k <= |Properties(working)|
    ensures IsMinimal(working, k, r) <==>
      r == if Properties(working) == [] then BARE else Shape(Requested(working), Properties(working)[..k])
  {
    hide Properties, Requested, Outlines, AreOutlines, Around, Shape;
    var props, names := Properties(working), Requested(working);
    AroundIsShape(props, names, k);
    OutlinesAreOutlines(props, k, Outlines(props[..k]));
    if IsMinimal(working, k, r) {
      var outlines :| AreOutlines(props, k, outlines) && r == Around(props, names, outlines);
      OutlinesAreOutlines(props, k, outlines);
    }
  }

  /** The last resort: with the most properties that fit; then with a boolean "additionalProperties" if that still fits;
  or nothing but the type. */
  ghost predicate IsLastResort(working: Json, maxChars: nat, r: Json) {
    var extra := Child(working, Key("additionalProperties"));
    exists k: nat, minimal ::
      && IsMinimal(working, k, minimal) && (k > 0 ==> Size(minimal) <= maxChars)
      && (forall more: nat, longer :: k < more && IsMinimal(working, more, longer) ==> Size(longer) > maxChars)
      && Completed(extra, minimal, maxChars, r)
  }

  predicate Completed(extra: Option<Json>, minimal: Json, maxChars: nat, r: Json) {
    var full := if minimal.Obj? && extra.Some? && extra.value.Bool? then Obj(minimal.fields + [Field("additionalProperties", extra.value)])
                else minimal;
    r == if Size(full) <= maxChars then full else if Size(minimal) <= maxChars then minimal else Obj([Field("type", Str("object"))])
  }

  lemma FallbackIsLastResort(fields: seq<Field>, maxChars: nat)
    ensures IsLastResort(Obj(fields), maxChars, Fallback(fields, maxChars))
  {
    var working := Obj(fields);
    var props, names := Properties(working), Requested(working);
    RequestedAre(fields);
    PropertiesAre(fields);
    LookupIsMember(fields, "additionalProperties");
    var k := if props == [] then 0 else LongestFit(names, props, |props|, maxChars);
    var minimal := if props == [] then BARE else Shape(names, props[..k]);
    hide Properties, Requested, Shape, Size, IsMinimal, KeptRequired, Lookup, Member;
    MinimalIs(working, k, minimal);
    forall more: nat, longer | k < more && IsMinimal(working, more, longer) ensures Size(longer) > maxChars {
      MinimalCounts(working, more, longer);
      MinimalIs(working, more, longer);
      assert !Fits(names, props, more, maxChars);
    }
    assert Completed(Child(working, Key("additionalProperties")), minimal, maxChars, Fallback(fields, maxChars));
  }

  lemma MinimalCounts(working: Json, k: nat, r: Json)
    requires IsMinimal(working, k, r)
    ensures k <= |Properties(working)|
  {
  }

  // ------------------------------------------------------------------- the result

  ghost predicate RefsStripped(j: Json, r: Json, budget: nat) {
    forall p :: StrippedRight(j, r, budget, p)
  }

  /** What compaction answers, stage by stage: the schema with its references stripped if that fits; otherwise the first
  that fits of three prunings, each of the one before; otherwise the last resort. */
  ghost predicate IsCompacted(schema: Json, maxChars: nat, maxRefs: nat, r: Json) {
    exists w, a, b, c :: AreStages(schema, maxRefs, w, a, b, c) && IsFirstThatFits(w, a, b, c, maxChars, r)
  }

  ghost predicate AreStages(schema: Json, maxRefs: nat, w: Json, a: Json, b: Json, c: Json) {
    RefsStripped(schema, w, maxRefs) && IsPruned(w, a, 160, false) && IsPruned(a, b, 64, true) && IsPruned(b, c, 0, true)
  }

  ghost predicate IsFirstThatFits(w: Json, a: Json, b: Json, c: Json, maxChars: nat, r: Json) {
    if Size(w) <= maxChars then r == w
    else if Size(a) <= maxChars then r == a
    else if Size(b) <= maxChars then r == b
    else if Size(c) <= maxChars then r == c
    else IsLastResort(c, maxChars, r)
  }

  lemma PruneIsPrunedEverywhere(j: Json, n: nat, d: bool)
    requires Proper(j)
    ensures IsPruned(j, Prune(j, n, d), n, d) && Proper(Prune(j, n, d))
  {
    hide Prune, Proper, PrunedAt;
    forall p ensures PrunedAt(j, Prune(j, n, d), n, d, p) { PruneIsPruned(j, n, d, p); }
    PruneStaysProper(j, n, d);
  }

  lemma StripIsRightEverywhere(j: Json, budget: nat)
    requires Proper(j)
    ensures RefsStripped(j, Strip(j, budget).0, budget) && Proper(Strip(j, budget).0)
  {
    hide Strip, StrippedRight;
    forall p ensures StrippedRight(j, Strip(j, budget).0, budget, p) { StripIsRight(j, budget, p); }
    forall p | At(Strip(j, budget).0, p).Some? && At(Strip(j, budget).0, p).value.Obj?
      ensures UniqueKeys(At(Strip(j, budget).0, p).value.fields)
    {
      StripStaysProper(j, budget, p);
    }
  }

  lemma StagesAre(w: Json)
    ensures Stage(w, 0) == w && Stage(w, 1) == Prune(w, 160, false)
    ensures Stage(w, 2) == Prune(Stage(w, 1), 64, true) && Stage(w, 3) == Prune(Stage(w, 2), 0, true)
  {
    hide Prune;
  }

  lemma FirstFittingIs(w: Json, maxChars: nat)
    requires w.Obj?
    ensures FirstFitting(w, 0, maxChars) ==
      if Size(w) <= maxChars then w
      else if Size(Stage(w, 1)) <= maxChars then Stage(w, 1)
      else if Size(Stage(w, 2)) <= maxChars then Stage(w, 2)
      else if Size(Stage(w, 3)) <= maxChars then Stage(w, 3)
      else Fallback(Stage(w, 3).fields, maxChars)
  {
    StagesAre(w);
    hide Stage, Size, Fallback;
    assert |STAGES| == 3;
    assert FirstFitting(w, 3, maxChars) == if Size(Stage(w, 3)) <= maxChars then Stage(w, 3) else Fallback(Stage(w, 3).fields, maxChars);
    assert FirstFitting(w, 2, maxChars) == if Size(Stage(w, 2)) <= maxChars then Stage(w, 2) else FirstFitting(w, 3, maxChars);
    assert FirstFitting(w, 1, maxChars) == if Size(Stage(w, 1)) <= maxChars then Stage(w, 1) else FirstFitting(w, 2, maxChars);
  }

  /** Compaction of every schema, said without naming how it is computed. */
  lemma CompactionIs(schema: Json, maxChars: nat, maxRefs: nat)
    requires schema.Obj? && Proper(schema)
    ensures IsCompacted(schema, maxChars, maxRefs, Compaction(schema, maxChars, maxRefs))
  {
    hide Prune, Strip, Proper, IsPruned, RefsStripped, Size, IsLastResort, Fallback, FirstFitting, Stage;
    var w := Strip(schema, maxRefs).0;
    StagesAre(w);
    FirstFittingIs(w, maxChars);
    StripIsRightEverywhere(schema, maxRefs);
    PruneIsPrunedEverywhere(w, 160, false);
    PruneIsPrunedEverywhere(Stage(w, 1), 64, true);
    PruneIsPrunedEverywhere(Stage(w, 2), 0, true);
    FallbackIsLastResort(Stage(w, 3).fields, maxChars);
    assert Obj(Stage(w, 3).fields) == Stage(w, 3);
    assert AreStages(schema, maxRefs, w, Stage(w, 1), Stage(w, 2), Stage(w, 3));
    hide AreStages;
    assert IsFirstThatFits(w, Stage(w, 1), Stage(w, 2), Stage(w, 3), maxChars, Compaction(schema, maxChars, maxRefs));
    hide IsFirstThatFits;
  }
}
