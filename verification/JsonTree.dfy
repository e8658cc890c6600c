/** JSON values as trees, with the length of their compact serialization. */
module JsonTree {

  /** Object members keep insertion order; numbers keep their printed text. */
  datatype Json =
    | Null
    | Bool(b: bool)
    | Number(text: string)
    | Str(s: string)
    | Arr(items: seq<Json>)
    | Obj(fields: seq<Field>)

  datatype Field = Field(key: string, value: Json)

  /** Characters that `json.dumps(ensure_ascii=False)` writes for one character. */
  function CharLen(c: char): (n: nat)
    ensures 1 <= n <= 6
  {
    if c in {'\"', '\\', '\n', '\r', '\t', '\U{0008}', '\U{000C}'} then 2
    else if c < ' ' then 6
    else 1
  }

  function TextLen(s: string): (r: nat) {
    if s == "" then 0 else TextLen(s[..|s| - 1]) + CharLen(s[|s| - 1])
  }

  /** Length of the value serialized with separators "," and ":"; member order is irrelevant to it. */
  function Size(j: Json): (r: nat)
    decreases j, 0
  {
    match j
    case Null => 4
    case Bool(b) => if b then 4 else 5
    case Number(text) => |text|
    case Str(s) => 2 + TextLen(s)
    case Arr(items) => 1 + Max(1, ItemsSize(items))
    case Obj(fields) => 1 + Max(1, FieldsSize(fields))
  }

  function Max(a: nat, b: nat): (r: nat) {
    if a < b then b else a
  }

  /** Every item with the comma or bracket after it. */
  function ItemsSize(items: seq<Json>): (r: nat)
    decreases items, 1
  {
    if items == [] then 0 else ItemsSize(items[..|items| - 1]) + Size(items[|items| - 1]) + 1
  }

  function FieldSize(f: Field): (r: nat)
    decreases f, 1
  {
    2 + TextLen(f.key) + 1 + Size(f.value)
  }

  /** Every member with the comma or brace after it. */
  function FieldsSize(fields: seq<Field>): (r: nat)
    decreases fields, 2
  {
    if fields == [] then 0 else FieldsSize(fields[..|fields| - 1]) + FieldSize(fields[|fields| - 1]) + 1
  }

  predicate HasKey(fields: seq<Field>, key: string) {
    exists i :: 0 <= i < |fields| && fields[i].key == key
  }

  /** Value of a member, Null when it is missing. */
  function Lookup(fields: seq<Field>, key: string): (j: Json)
    ensures j != Null ==> HasKey(fields, key)
  {
    if fields == [] then Null
    else if fields[0].key == key then fields[0].value
    else Lookup(fields[1..], key)
  }

  // ------------------------------------------------------------ size lemmas

  lemma {:induction false} FieldsSizeConcat(a: seq<Field>, b: seq<Field>)
    ensures FieldsSize(a + b) == FieldsSize(a) + FieldsSize(b)
  {
    if b == [] {
      assert a + b == a;
    } else {
      assert (a + b)[..|a + b| - 1] == a + b[..|b| - 1];
      FieldsSizeConcat(a, b[..|b| - 1]);
    }
  }

  lemma {:induction false} TextLenConcat(a: string, b: string)
    ensures TextLen(a + b) == TextLen(a) + TextLen(b)
  {
    if b == "" {
      assert a + b == a;
    } else {
      assert (a + b)[..|a + b| - 1] == a + b[..|b| - 1];
      TextLenConcat(a, b[..|b| - 1]);
    }
  }

  /** Cutting text at both ends never lengthens it. */
  lemma TextLenSlice(s: string, i: nat, j: nat)
    requires i <= j <= |s|
    ensures TextLen(s[i..j]) <= TextLen(s)
  {
    TextLenSplit(s, i);
    TextLenSplit(s[i..], j - i);
    assert s[i..][..j - i] == s[i..j];
  }

  lemma TextLenSplit(s: string, i: nat)
    requires i <= |s|
    ensures TextLen(s) == TextLen(s[..i]) + TextLen(s[i..])
  {
    TextLenConcat(s[..i], s[i..]);
    assert s[..i] + s[i..] == s;
  }

  // ----------------------------------------------------------------- strip()

  /** The whitespace that Python's `str.strip` removes. */
  predicate IsSpace(c: char) {
    || '\t' <= c <= '\r' || '\U{001C}' <= c <= ' '
    || c == '\U{0085}' || c == '\U{00A0}' || c == '\U{1680}'
    || '\U{2000}' <= c <= '\U{200A}' || c == '\U{2028}' || c == '\U{2029}'
    || c == '\U{202F}' || c == '\U{205F}' || c == '\U{3000}'
  }

  function TrimStart(s: string): (i: nat)
    ensures i <= |s| && (i < |s| ==> !IsSpace(s[i]))
    ensures forall k :: 0 <= k < i ==> IsSpace(s[k])
  {
    if s == "" || !IsSpace(s[0]) then 0 else 1 + TrimStart(s[1..])
  }

  function TrimEnd(s: string, lo: nat): (j: nat)
    requires lo <= |s|
    ensures lo <= j <= |s| && (j > lo ==> !IsSpace(s[j - 1]))
    ensures forall k :: j <= k < |s| ==> IsSpace(s[k])
    decreases |s|
  {
    if |s| == lo || !IsSpace(s[|s| - 1]) then |s| else TrimEnd(s[..|s| - 1], lo)
  }

  /** `s.strip()[:n]`, as the span of `s` it keeps. */
  function Trimmed(s: string, n: nat): (t: string)
    ensures |t| <= n
  {
    var lo := TrimStart(s);
    var hi := TrimEnd(s, lo);
    s[lo..if hi - lo <= n then hi else lo + n]
  }

  lemma TrimmedIsShorter(s: string, n: nat)
    ensures TextLen(Trimmed(s, n)) <= TextLen(s)
  {
    var lo := TrimStart(s);
    var hi := TrimEnd(s, lo);
    TextLenSlice(s, lo, if hi - lo <= n then hi else lo + n);
  }
}
