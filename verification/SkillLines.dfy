/** Line splitting of skill resources. */
module SkillLines {
  /** A line and the terminator that ends it; only a last line may lack one. */
  datatype Line = Line(body: string, terminator: string)

  predicate IsBreak(c: char) {
    c == '\r' || c == '\n' || c == '\U{2028}' || c == '\U{2029}'
  }

  predicate NoBreak(text: string, from: nat, to: nat)
    requires to <= |text|
  {
    forall i :: from <= i < to ==> !IsBreak(text[i])
  }

  /** Position of the first break at or after `from`, or the end. */
  function NextBreak(text: string, from: nat): (k: nat)
    requires from <= |text|
    ensures from <= k <= |text| && NoBreak(text, from, k) && (k < |text| ==> IsBreak(text[k]))
    decreases |text| - from
  {
    if from == |text| || IsBreak(text[from]) then from else NextBreak(text, from + 1)
  }

  /** A carriage return and a line feed right after it end one line. */
  function Width(text: string, k: nat): (w: nat)
    requires k < |text|
    ensures 1 <= w <= 2 && k + w <= |text|
  {
    if text[k] == '\r' && k + 1 < |text| && text[k + 1] == '\n' then 2 else 1
  }

  /** The lines of `text` from position `at`. */
  function Scan(text: string, at: nat): (r: seq<Line>)
    requires at <= |text|
    decreases |text| - at
  {
    if at == |text| then []
    else
      var k := NextBreak(text, at);
      if k == |text| then [Line(text[at..], "")]
      else [Line(text[at..k], text[k..k + Width(text, k)])] + Scan(text, k + Width(text, k))
  }

  function Bodies(lines: seq<Line>): (r: seq<string>)
    ensures |r| == |lines| && forall i :: 0 <= i < |r| ==> r[i] == lines[i].body
  {
    seq(|lines|, i requires 0 <= i < |lines| => lines[i].body)
  }

  /** What `_iter_skill_text_lines` yields. */
  function Lines(text: string): (r: seq<string>) {
    Bodies(Scan(text, 0))
  }

  method IterSkillTextLines(text: string) returns (yielded: seq<string>)
    ensures yielded == Lines(text)
  {
    hide Bodies, Scan, NextBreak, IsBreak;
    yielded := [];
    var start, index := 0, 0;
    while index < |text|
      invariant start <= index <= |text| && NoBreak(text, start, index)
      invariant Lines(text) == yielded + Bodies(Scan(text, start))
    {
      if IsBreak(text[index]) {
        NextLine(text, start, index);
        Regroup(yielded, text[start..index], Bodies(Scan(text, index + Width(text, index))));
        yielded := yielded + [text[start..index]];
        index := index + if text[index] == '\r' && index + 1 < |text| && text[index + 1] == '\n' then 2 else 1;
        start := index;
      } else {
        index := index + 1;
      }
    }
    LastLine(text, start);
    if start < |text| {
      yielded := yielded + [text[start..]];
    }
  }

  lemma Regroup(a: seq<string>, x: string, b: seq<string>)
    ensures a + ([x] + b) == (a + [x]) + b
  {
  }

  lemma BreakIsUnique(text: string, from: nat, k: nat)
    requires from <= k <= |text| && NoBreak(text, from, k) && (k < |text| ==> IsBreak(text[k]))
    ensures NextBreak(text, from) == k
  {
  }

  lemma FirstBody(line: Line, rest: seq<Line>)
    ensures Bodies([line] + rest) == [line.body] + Bodies(rest)
  {
  }

  lemma NextLine(text: string, start: nat, index: nat)
    requires start <= index < |text| && NoBreak(text, start, index) && IsBreak(text[index])
    ensures Bodies(Scan(text, start)) == [text[start..index]] + Bodies(Scan(text, index + Width(text, index)))
  {
    BreakIsUnique(text, start, index);
    FirstBody(Line(text[start..index], text[index..index + Width(text, index)]), Scan(text, index + Width(text, index)));
    hide Bodies, Width, NoBreak, IsBreak;
  }

  lemma LastLine(text: string, start: nat)
    requires start <= |text| && NoBreak(text, start, |text|)
    ensures Bodies(Scan(text, start)) == if start < |text| then [text[start..]] else []
  {
    BreakIsUnique(text, start, |text|);
  }

  // ------------------------------------------------------ splitting and joining are inverse

  function Rebuilt(lines: seq<Line>): (r: string) {
    if lines == [] then "" else lines[0].body + lines[0].terminator + Rebuilt(lines[1..])
  }

  predicate Terminates(t: string) {
    t == "\r\n" || (|t| == 1 && IsBreak(t[0]))
  }

  /** Lines without breaks inside, each properly ended; a missing terminator only on a non-empty last
  line, and no line feed right after a lone carriage return. */
  predicate Proper(lines: seq<Line>) {
    lines == [] || (FirstIsProper(lines[0], Rebuilt(lines[1..])) && Proper(lines[1..]))
  }

  predicate FirstIsProper(line: Line, rest: string) {
    && NoBreak(line.body, 0, |line.body|)
    && (if line.terminator == "" then line.body != "" && rest == ""
        else Terminates(line.terminator) && !(line.terminator == "\r" && "\n" <= rest))
  }

  lemma PieceIsProper(text: string, at: nat, k: nat)
    requires at <= k < |text| && NoBreak(text, at, k) && IsBreak(text[k])
    ensures FirstIsProper(Line(text[at..k], text[k..k + Width(text, k)]), text[k + Width(text, k)..])
    ensures text[at..k] + text[k..k + Width(text, k)] + text[k + Width(text, k)..] == text[at..]
  {
    assert text[k..k + Width(text, k)][0] == text[k];
  }

  lemma ScanUnfolds(text: string, at: nat, k: nat)
    requires at < |text| && k == NextBreak(text, at)
    ensures Scan(text, at)
            == if k == |text| then [Line(text[at..], "")]
               else [Line(text[at..k], text[k..k + Width(text, k)])] + Scan(text, k + Width(text, k))
  {
    hide NextBreak, Width, NoBreak, IsBreak;
  }

  lemma ProperGrows(first: Line, rest: seq<Line>)
    requires Proper(rest) && FirstIsProper(first, Rebuilt(rest))
    ensures Proper([first] + rest) && Rebuilt([first] + rest) == first.body + first.terminator + Rebuilt(rest)
  {
    hide FirstIsProper;
    assert ([first] + rest)[1..] == rest;
  }

  lemma PieceRebuilds(text: string, at: nat, k: nat, rest: seq<Line>)
    requires at <= k < |text| && NoBreak(text, at, k) && IsBreak(text[k])
    requires Proper(rest) && Rebuilt(rest) == text[k + Width(text, k)..]
    ensures var lines := [Line(text[at..k], text[k..k + Width(text, k)])] + rest; Proper(lines) && Rebuilt(lines) == text[at..]
  {
    PieceIsProper(text, at, k);
    hide *;
    ProperGrows(Line(text[at..k], text[k..k + Width(text, k)]), rest);
  }

  /** Nothing is lost: the scanned lines with their terminators give the text back. */
  lemma {:induction false} ScanRebuilds(text: string, at: nat)
    requires at <= |text|
    ensures Rebuilt(Scan(text, at)) == text[at..] && Proper(Scan(text, at))
    decreases |text| - at
  {
    hide *;
    if at == |text| {
      EndRebuilds(text);
    } else {
      var k := NextBreak(text, at);
      ScanUnfolds(text, at, k);
      if k == |text| {
        LastPieceIsProper(text, at);
      } else {
        ScanRebuilds(text, k + Width(text, k));
        PieceRebuilds(text, at, k, Scan(text, k + Width(text, k)));
      }
    }
  }

  lemma EndRebuilds(text: string)
    ensures Rebuilt(Scan(text, |text|)) == text[|text|..] && Proper(Scan(text, |text|)) && Scan(text, |text|) == []
  {
    assert Scan(text, |text|) == [];
  }

  lemma LastPieceIsProper(text: string, at: nat)
    requires at < |text| && NoBreak(text, at, |text|)
    ensures Rebuilt([Line(text[at..], "")]) == text[at..] && Proper([Line(text[at..], "")])
  {
    assert Rebuilt([Line(text[at..], "")]) == text[at..] + "" + "";
  }

  /** Every proper list of lines is what its text scans to. */
  lemma {:induction false} RebuiltScans(text: string, at: nat, lines: seq<Line>)
    requires at <= |text| && text[at..] == Rebuilt(lines) && Proper(lines)
    ensures Scan(text, at) == lines
    decreases |lines|
  {
    hide FirstIsProper, Reads, Scan;
    if lines == [] {
      assert at == |text|;
      NothingToScan(text);
    } else {
      ProperSplits(lines);
      hide Rebuilt, Proper;
      var first, rest := lines[0], Rebuilt(lines[1..]);
      ReadsParts(text, at, first.body, first.terminator, rest);
      ReadsLength(text, at, first.body, first.terminator, rest);
      ScansRead(text, at, first, rest);
      if first.terminator == "" {
        NoTerminatorNoRest(first, rest);
        EmptyRest(lines[1..]);
      } else {
        RebuiltScans(text, at + |first.body| + |first.terminator|, lines[1..]);
      }
    }
  }

  lemma NothingToScan(text: string)
    ensures Scan(text, |text|) == []
  {
  }

  lemma ProperSplits(lines: seq<Line>)
    requires Proper(lines) && lines != []
    ensures FirstIsProper(lines[0], Rebuilt(lines[1..])) && Proper(lines[1..])
    ensures Rebuilt(lines) == lines[0].body + lines[0].terminator + Rebuilt(lines[1..])
    ensures lines == [lines[0]] + lines[1..]
  {
    hide FirstIsProper;
  }

  lemma NoTerminatorNoRest(first: Line, rest: string)
    requires FirstIsProper(first, rest) && first.terminator == ""
    ensures rest == ""
  {
  }

  lemma EmptyRest(lines: seq<Line>)
    requires Proper(lines) && Rebuilt(lines) == ""
    ensures lines == []
  {
  }

  /** `text` from `at` reads `body`, then `terminator`, then `rest`. */
  predicate Reads(text: string, at: nat, body: string, terminator: string, rest: string) {
    && |text| == at + |body| + |terminator| + |rest|
    && text[at..at + |body|] == body
    && text[at + |body|..at + |body| + |terminator|] == terminator
    && text[at + |body| + |terminator|..] == rest
  }

  lemma ReadsParts(text: string, at: nat, body: string, terminator: string, rest: string)
    requires at <= |text| && text[at..] == body + terminator + rest
    ensures Reads(text, at, body, terminator, rest)
  {
    var tail := text[at..];
    assert tail[..|body|] == body && tail[|body|..|body| + |terminator|] == terminator;
    assert tail[|body| + |terminator|..] == rest;
  }

  lemma ReadsCharacters(text: string, at: nat, body: string, terminator: string, rest: string)
    requires Reads(text, at, body, terminator, rest)
    ensures forall i :: at <= i < at + |body| ==> text[i] == body[i - at]
    ensures terminator != "" ==> text[at + |body|] == terminator[0]
    ensures |terminator| > 1 ==> text[at + |body| + 1] == terminator[1]
    ensures |rest| > 0 ==> text[at + |body| + |terminator|] == rest[0]
  {
  }

  lemma ReadsLine(text: string, at: nat, first: Line, rest: string)
    requires FirstIsProper(first, rest) && Reads(text, at, first.body, first.terminator, rest)
    ensures NextBreak(text, at) == at + |first.body|
    ensures first.terminator != "" ==> Width(text, at + |first.body|) == |first.terminator|
  {
    ReadsCharacters(text, at, first.body, first.terminator, rest);
    hide Reads;
    assert |text| == at + |first.body| + |first.terminator| + |rest| by { ReadsLength(text, at, first.body, first.terminator, rest); }
    BreakIsUnique(text, at, at + |first.body|);
    hide NextBreak, NoBreak;
  }

  lemma ReadsLength(text: string, at: nat, body: string, terminator: string, rest: string)
    requires Reads(text, at, body, terminator, rest)
    ensures |text| == at + |body| + |terminator| + |rest| && text[at + |body| + |terminator|..] == rest
  {
  }

  lemma ScansRead(text: string, at: nat, first: Line, rest: string)
    requires FirstIsProper(first, rest) && Reads(text, at, first.body, first.terminator, rest)
    ensures Scan(text, at)
            == if first.terminator == "" then [first] else [first] + Scan(text, at + |first.body| + |first.terminator|)
  {
    hide *;
    ReadsLine(text, at, first, rest);
    ReadsSlices(text, at, first, rest);
    ScanUnfolds(text, at, at + |first.body|);
  }

  lemma ReadsSlices(text: string, at: nat, first: Line, rest: string)
    requires FirstIsProper(first, rest) && Reads(text, at, first.body, first.terminator, rest)
    ensures at < |text| && at + |first.body| + |first.terminator| <= |text|
    ensures first.terminator == "" <==> at + |first.body| == |text|
    ensures text[at..at + |first.body|] == first.body
    ensures text[at + |first.body|..at + |first.body| + |first.terminator|] == first.terminator
    ensures first.terminator == "" ==> text[at..] == first.body
  {
    hide NoBreak, IsBreak;
  }

  /** A text has no more lines than characters. */
  lemma {:induction false} FewLines(text: string, at: nat)
    requires at <= |text|
    ensures |Scan(text, at)| <= |text| - at
    decreases |text| - at
  {
    hide Scan, IsBreak, Width;
    if at < |text| {
      var k := NextBreak(text, at);
      ScanUnfolds(text, at, k);
      if k < |text| { FewLines(text, k + Width(text, k)); }
    } else {
      EndRebuilds(text);
    }
  }

  /** Four characters end a line, and no other does. */
  lemma BreaksAre(c: char)
    ensures IsBreak(c) <==> c as int in {0x0A, 0x0D, 0x2028, 0x2029}
  {
  }
}
