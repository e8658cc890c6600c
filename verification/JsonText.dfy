/** The compact serialization itself, whose length the budgets are about. */
module JsonText {
  import opened JsonTree

  const HEX := "0123456789abcdef"

  /** A character inside a JSON text: the seven short escapes, \u00XY for other control characters, or itself. */
  function Escaped(c: char): (text: string) {
    match c
    case '\"' => "\\\""
    case '\\' => "\\\\"
    case '\n' => "\\n"
    case '\r' => "\\r"
    case '\t' => "\\t"
    case '\U{0008}' => "\\b"
    case '\U{000C}' => "\\f"
    case _ => if c < ' ' then "\\u00" + [HEX[c as int / 16], HEX[c as int % 16]] else [c]
  }

  function Inside(s: string): (text: string) {
    if s == "" then "" else Inside(s[..|s| - 1]) + Escaped(s[|s| - 1])
  }

  function Quoted(s: string): (text: string) {
    "\"" + Inside(s) + "\""
  }

  /** The value with separators "," and ":" and without spaces. */
  function Serialized(j: Json): (text: string)
    decreases j, 0
  {
    match j
    case Null => "null"
    case Bool(b) => if b then "true" else "false"
    case Number(text) => text
    case Str(s) => Quoted(s)
    case Arr(items) => "[" + Items(items) + "]"
    case Obj(fields) => "{" + Members(fields) + "}"
  }

  function Items(items: seq<Json>): (text: string)
    decreases items, 1
  {
    if items == [] then ""
    else if |items| == 1 then Serialized(items[0])
    else Items(items[..|items| - 1]) + "," + Serialized(items[|items| - 1])
  }

  function OneMemberText(f: Field): (text: string)
    decreases f, 1
  {
    Quoted(f.key) + ":" + Serialized(f.value)
  }

  function Members(fields: seq<Field>): (text: string)
    decreases fields, 2
  {
    if fields == [] then ""
    else if |fields| == 1 then OneMemberText(fields[0])
    else Members(fields[..|fields| - 1]) + "," + OneMemberText(fields[|fields| - 1])
  }

  lemma {:induction false} InsideLength(s: string)
    ensures |Inside(s)| == TextLen(s)
  {
    if s != "" {
      InsideLength(s[..|s| - 1]);
      assert |Escaped(s[|s| - 1])| == CharLen(s[|s| - 1]);
    }
  }

  /** The size of a value is the length of its serialization. */
  lemma {:induction false} SizeIsLength(j: Json)
    ensures |Serialized(j)| == Size(j)
    decreases j, 0
  {
    match j
    case Str(s) => InsideLength(s);
    case Arr(items) => ItemsLength(items);
    case Obj(fields) => MembersLength(fields);
    case _ =>
  }

  lemma {:induction false} ItemsLength(items: seq<Json>)
    ensures ItemsSize(items) == if items == [] then 0 else |Items(items)| + 1
    decreases items, 1
  {
    hide Serialized, Size;
    if items != [] {
      var n := |items| - 1;
      ItemsLength(items[..n]);
      SizeIsLength(items[n]);
      if n == 0 { assert items[..n] == []; }
    }
  }

  lemma {:induction false} MembersLength(fields: seq<Field>)
    ensures FieldsSize(fields) == if fields == [] then 0 else |Members(fields)| + 1
    decreases fields, 2
  {
    hide Serialized, Size, TextLen, Inside;
    if fields != [] {
      var n := |fields| - 1;
      MembersLength(fields[..n]);
      SizeIsLength(fields[n].value);
      InsideLength(fields[n].key);
      if n == 0 { assert fields[..n] == []; }
    }
  }

  /** The order of members does not matter to the length, so sorting the keys does not either. */
  lemma SwappedMembers(a: seq<Field>, f: Field, g: Field, b: seq<Field>)
    ensures |Serialized(Obj(a + [f, g] + b))| == |Serialized(Obj(a + [g, f] + b))|
  {
    SizeIsLength(Obj(a + [f, g] + b));
    SizeIsLength(Obj(a + [g, f] + b));
    hide Serialized, FieldSize;
    FieldsSizeConcat(a + [f, g], b);
    FieldsSizeConcat(a + [g, f], b);
    FieldsSizeConcat(a, [f, g]);
    FieldsSizeConcat(a, [g, f]);
    FieldsSizeConcat([f], [g]);
    FieldsSizeConcat([g], [f]);
    assert [f] + [g] == [f, g] && [g] + [f] == [g, f];
  }
}
