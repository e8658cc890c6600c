/** Byte strings and the search for the next newline. */
module Bytes {

  newtype byte = b: int | 0 <= b < 256

  const LF: byte := 10

  /** `find(b"\n")`: index of the first newline, or the length when there is none. */
  function Find(s: seq<byte>): (k: nat)
    ensures k <= |s| && (k < |s| ==> s[k] == LF)
    ensures forall i :: 0 <= i < k ==> s[i] != LF
  {
    if s == [] || s[0] == LF then 0 else 1 + Find(s[1..])
  }

  lemma {:induction false} FindInPrefix(a: seq<byte>, b: seq<byte>)
    ensures Find(a + b) == if Find(a) < |a| then Find(a) else |a| + Find(b)
  {
    if a == [] {
      assert a + b == b;
    } else {
      assert (a + b)[1..] == a[1..] + b;
      FindInPrefix(a[1..], b);
    }
  }

  lemma SplitAt(a: seq<byte>, b: seq<byte>, k: nat)
    requires k <= |a|
    ensures (a + b)[..k] == a[..k] && (a + b)[k..] == a[k..] + b
  {
  }

  lemma {:induction false} NoNewline(message: seq<byte>)
    requires LF !in message
    ensures Find(message) == |message|
  {
    if message != [] { NoNewline(message[1..]); }
  }

  /** A newline-free prefix is exactly what stands before the first newline. */
  lemma CutAtNewline(raw: seq<byte>, rest: seq<byte>)
    requires LF !in raw
    ensures var p := raw + [LF] + rest; Find(p) == |raw| < |p| && p[..|raw|] == raw && p[|raw| + 1..] == rest
  {
    assert raw + [LF] + rest == raw + ([LF] + rest);
    NoNewline(raw);
    FindInPrefix(raw, [LF] + rest);
    SplitAt(raw, [LF] + rest, |raw|);
    hide Find;
    assert (raw + [LF] + rest)[|raw| + 1..] == rest;
  }

  /** Every frame or line followed by its newline. */
  function Framed(frames: seq<seq<byte>>): (r: seq<byte>) {
    if frames == [] then [] else frames[0] + [LF] + Framed(frames[1..])
  }
}
