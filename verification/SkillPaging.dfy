/** Bounded pages over the lines of a skill resource. */
module SkillPaging {
  import opened SkillLines

  const MAX_CHARS := 8 * 1024
  const MAX_LINES := 200
  const MAX_START := 0x7fff_ffff

  datatype Page = Page(content: string, startLine: nat, nextLine: nat, totalLines: nat, hasMore: bool)

  /** `LineTooLong` is the error of a line that no page can hold. */
  datatype Answer = Ok(page: Page) | LineTooLong

  /** `"\n".join(lines)`. */
  function Join(lines: seq<string>): (r: string) {
    if lines == [] then ""
    else if |lines| == 1 then lines[0]
    else Join(lines[..|lines| - 1]) + "\n" + lines[|lines| - 1]
  }

  /** How many of the first lines fit on one page, taken until one does not. */
  function Fitting(lines: seq<string>): (k: nat)
    ensures k <= |lines|
  {
    if lines == [] then 0
    else
      var k := Fitting(lines[..|lines| - 1]);
      if k == |lines| - 1 && |Join(lines)| <= MAX_CHARS then |lines| else k
  }

  /** The lines a page may take: from line `start`, at most `max` of them. */
  function Window(lines: seq<string>, start: nat, max: nat): (w: seq<string>)
    requires start >= 1
    ensures |w| <= max && (1 <= max && start <= |lines| ==> w != [])
  {
    if start > |lines| then []
    else if start - 1 + max >= |lines| then lines[start - 1..]
    else lines[start - 1..start - 1 + max]
  }

  /** `_skill_text_page` on the lines of a text. */
  function PageOf(lines: seq<string>, start: nat, max: nat): (r: Answer)
    requires start >= 1
  {
    var w := Window(lines, start, max);
    var k := Fitting(w);
    if k < |w| && |w[k]| > MAX_CHARS then LineTooLong
    else Ok(Page(Join(w[..k]), start, start + k, |lines|, start + k <= |lines|))
  }

  // ------------------------------------------------------------- what a page can hold

  lemma {:induction false} JoinGrows(lines: seq<string>, k: nat)
    requires k <= |lines|
    ensures |Join(lines[..k])| <= |Join(lines)|
    ensures k < |lines| ==> |lines[k]| <= |Join(lines)|
    decreases |lines|
  {
    if k == |lines| {
      assert lines[..k] == lines;
    } else if |lines| > 1 {
      var init := lines[..|lines| - 1];
      if k < |init| {
        JoinGrows(init, k);
        assert init[..k] == lines[..k];
      }
    }
  }

  /** The page takes the longest prefix that fits. */
  lemma {:induction false} FittingIsLongest(lines: seq<string>, k: nat)
    requires k <= |lines|
    ensures k <= Fitting(lines) <==> |Join(lines[..k])| <= MAX_CHARS
    decreases |lines|
  {
    if lines == [] {
      assert lines[..k] == [];
    } else if k == |lines| {
      assert lines[..k] == lines;
      FittingIsLongest(lines[..|lines| - 1], |lines| - 1);
      JoinGrows(lines, |lines| - 1);
      assert lines[..|lines| - 1][..|lines| - 1] == lines[..|lines| - 1];
    } else {
      assert lines[..|lines| - 1][..k] == lines[..k];
      FittingIsLongest(lines[..|lines| - 1], k);
    }
  }

  /** While there are lines left, a page that is not refused moves on, within the character cap. */
  lemma PageMovesOn(lines: seq<string>, start: nat, max: nat)
    requires 1 <= start && 1 <= max
    ensures var a := PageOf(lines, start, max);
            a.Ok? ==>
              && |a.page.content| <= MAX_CHARS
              && a.page.startLine == start <= a.page.nextLine <= start + max
              && (start <= |lines| ==> start < a.page.nextLine <= |lines| + 1)
              && a.page.hasMore == (a.page.nextLine <= |lines|)
  {
    var w := Window(lines, start, max);
    FittingIsLongest(w, Fitting(w));
    if w != [] {
      FittingIsLongest(w, 1);
      assert w[..1] == [w[0]];
    }
  }

  /** A page is refused exactly when the first line that does not fit could not fit on any page. */
  lemma RefusedForOneLine(lines: seq<string>, start: nat, max: nat)
    requires 1 <= start && 1 <= max
    ensures PageOf(lines, start, max).LineTooLong?
      <==> exists k: nat :: Refuses(lines, start, max, k)
  {
    var w := Window(lines, start, max);
    var k := Fitting(w);
    if k < |w| && |w[k]| > MAX_CHARS {
      FittingIsLongest(w, k);
      assert Refuses(lines, start, max, k);
    }
    if j: nat :| Refuses(lines, start, max, j) {
      FittingIsLongest(w, j);
      FittingIsLongest(w, j + 1);
      JoinGrows(w[..j + 1], j);
      assert w[..j + 1][j] == w[j];
    }
  }

  /** The first `k` lines of the window fit together and line `k` alone is over the cap. */
  ghost predicate Refuses(lines: seq<string>, start: nat, max: nat, k: nat)
    requires start >= 1
  {
    var w := Window(lines, start, max);
    k < |w| && |Join(w[..k])| <= MAX_CHARS && |w[k]| > MAX_CHARS
  }

  // ------------------------------------------------------------------------ the method

  lemma WindowGrows(lines: seq<string>, i: nat, start: nat, max: nat)
    requires 1 <= start && i < |lines|
    ensures Window(lines[..i + 1], start, max)
         == Window(lines[..i], start, max) + if start <= i + 1 < start + max then [lines[i]] else []
  {
  }

  lemma WindowIsPrefix(lines: seq<string>, i: nat, start: nat, max: nat)
    requires 1 <= start && i <= |lines|
    ensures Window(lines[..i], start, max) <= Window(lines, start, max)
  {
  }

  lemma FitsOneMore(lines: seq<string>, line: string)
    ensures Fitting(lines + [line])
         == if Fitting(lines) == |lines| && |Join(lines + [line])| <= MAX_CHARS then |lines| + 1 else Fitting(lines)
    ensures |Join(lines + [line])| == |Join(lines)| + |line| + if lines == [] then 0 else 1
  {
    assert (lines + [line])[..|lines|] == lines;
  }

  /** Once a line did not fit, later lines do not change the page. */
  lemma FittingStops(seen: seq<string>, w: seq<string>)
    requires seen <= w && Fitting(seen) < |seen|
    ensures Fitting(w) == Fitting(seen)
  {
    hide Fitting, Join;
    var k := Fitting(seen);
    FittingIsLongest(seen, k);
    FittingIsLongest(seen, k + 1);
    assert w[..k] == seen[..k] && w[..k + 1] == seen[..k + 1];
    FittingIsLongest(w, k);
    FittingIsLongest(w, k + 1);
  }

  /** The page refused because of `line`, the first one after `seen` that does not fit. */
  lemma RefusedHere(lines: seq<string>, start: nat, max: nat, seen: seq<string>, line: string)
    requires 1 <= start && Fitting(seen) == |seen| && |line| > MAX_CHARS
    requires seen + [line] <= Window(lines, start, max)
    ensures PageOf(lines, start, max).LineTooLong?
  {
    FitsOneMore(seen, line);
    JoinGrows(seen + [line], |seen|);
    FittingStops(seen + [line], Window(lines, start, max));
  }

  /** `_skill_text_page` after decoding; binary control characters are refused before it. */
  method SkillTextPage(text: string, startLine: nat, maxLines: nat) returns (answer: Answer)
    requires 1 <= startLine <= MAX_START && 1 <= maxLines <= MAX_LINES
    ensures answer == PageOf(Lines(text), startLine, maxLines)
  {
    hide Lines, Window, Fitting, Join;
    var lines := IterSkillTextLines(text);
    var selected: seq<string> := [];
    var charCount, pageFull, totalLines := 0, false, 0;
    var endLine := startLine + maxLines;
    ghost var seen := Window(lines[..0], startLine, maxLines);
    EmptyWindow(lines, startLine, maxLines);
    for i := 0 to |lines|
      invariant totalLines == i && seen == Window(lines[..i], startLine, maxLines)
      invariant selected == seen[..Fitting(seen)] && charCount == |Join(selected)| <= MAX_CHARS
      invariant pageFull <==> Fitting(seen) < |seen|
      invariant pageFull ==> |seen[Fitting(seen)]| <= MAX_CHARS
    {
      var lineNumber, line := i + 1, lines[i];
      totalLines := lineNumber;
      ghost var before := seen;
      WindowGrows(lines, i, startLine, maxLines);
      seen := Window(lines[..i + 1], startLine, maxLines);
      if lineNumber < startLine || lineNumber >= endLine {
        assert seen == before;
        continue;
      }
      FitsOneMore(before, line);
      assert seen == before + [line] && seen[..Fitting(before)] == before[..Fitting(before)];
      if pageFull { continue; }
      assert before[..|before|] == before;
      var extraChars := |line| + if selected != [] then 1 else 0;
      if |line| > MAX_CHARS {
        WindowIsPrefix(lines, i + 1, startLine, maxLines);
        RefusedHere(lines, startLine, maxLines, before, line);
        return LineTooLong;
      }
      if charCount + extraChars <= MAX_CHARS {
        selected := selected + [line];
        charCount := charCount + extraChars;
        assert seen[..|seen|] == seen == selected;
      } else {
        pageFull := true;
      }
    }
    assert lines[..|lines|] == lines;
    var nextLine := startLine + |selected|;
    answer := Ok(Page(Join(selected), startLine, nextLine, totalLines, nextLine <= totalLines));
  }

  lemma EmptyWindow(lines: seq<string>, start: nat, max: nat)
    requires 1 <= start
    ensures Window(lines[..0], start, max) == [] && Fitting([]) == 0 && Join([]) == ""
  {
  }

  // ---------------------------------------------------------------- following the pages

  /** The pages a reader gets who starts at `start` and follows `next_line` while there is more. */
  datatype Trip = Trip(pages: seq<Page>, refused: bool)

  /** `sizes(t)` is the page size asked for in turn `t`. */
  function Follow(lines: seq<string>, start: nat, sizes: nat -> nat, turn: nat): (r: Trip)
    requires 1 <= start && forall t :: 1 <= sizes(t)
    decreases |lines| + 1 - start
  {
    var a := PageOf(lines, start, sizes(turn));
    PageMovesOn(lines, start, sizes(turn));
    if a.LineTooLong? then Trip([], true)
    else if !a.page.hasMore then Trip([a.page], false)
    else
      var rest := Follow(lines, a.page.nextLine, sizes, turn + 1);
      Trip([a.page] + rest.pages, rest.refused)
  }

  function Contents(pages: seq<Page>): (r: seq<string>)
    ensures |r| == |pages| && forall i :: 0 <= i < |r| ==> r[i] == pages[i].content
  {
    seq(|pages|, i requires 0 <= i < |pages| => pages[i].content)
  }

  predicate AllShort(lines: seq<string>) {
    forall i :: 0 <= i < |lines| ==> |lines[i]| <= MAX_CHARS
  }

  lemma PageHolds(lines: seq<string>, start: nat, max: nat)
    requires 1 <= start <= |lines| && 1 <= max
    ensures var a := PageOf(lines, start, max);
            && (AllShort(lines[start - 1..]) ==> a.Ok?)
            && (a.Ok? ==>
                 && start < a.page.nextLine <= |lines| + 1
                 && a.page.content == Join(lines[start - 1..a.page.nextLine - 1])
                 && AllShort(lines[start - 1..a.page.nextLine - 1]))
  {
    var w := Window(lines, start, max);
    var k := Fitting(w);
    PageMovesOn(lines, start, max);
    FittingIsLongest(w, k);
    assert w[..k] == lines[start - 1..start - 1 + k];
    forall i | 0 <= i < k ensures |w[i]| <= MAX_CHARS { JoinGrows(w[..k], i); }
    if k < |w| && |w[k]| > MAX_CHARS { assert lines[start - 1..][k] == w[k]; }
  }

  lemma {:induction false} JoinParts(a: seq<string>, b: seq<string>)
    requires a != [] && b != []
    ensures Join(a + b) == Join(a) + "\n" + Join(b)
    decreases |b|
  {
    assert (a + b)[..|a + b| - 1] == a + b[..|b| - 1];
    if |b| == 1 {
      assert a + [] == a;
    } else {
      JoinParts(a, b[..|b| - 1]);
    }
  }

  lemma JoinRanges(lines: seq<string>, from: nat, mid: nat)
    requires from < mid < |lines|
    ensures Join(lines[from..]) == Join(lines[from..mid]) + "\n" + Join(lines[mid..])
  {
    assert lines[from..] == lines[from..mid] + lines[mid..];
    JoinParts(lines[from..mid], lines[mid..]);
  }

  lemma AllShortRanges(lines: seq<string>, from: nat, mid: nat)
    requires from <= mid <= |lines|
    ensures AllShort(lines[from..]) <==> AllShort(lines[from..mid]) && AllShort(lines[mid..])
  {
    assert lines[from..] == lines[from..mid] + lines[mid..];
  }

  /** Each page starts where the one before ended, and the last one ends the text. */
  predicate Chained(pages: seq<Page>, start: nat, end: nat) {
    && pages != [] && pages[0].startLine == start && pages[|pages| - 1].nextLine == end
    && (forall i :: 0 <= i < |pages| ==> pages[i].startLine < pages[i].nextLine)
    && (forall i :: 0 < i < |pages| ==> pages[i].startLine == pages[i - 1].nextLine)
  }

  /** Following `next_line` reads every remaining line exactly once and in order, whatever page sizes
  are asked for, if and only if no remaining line is over the cap. */
  lemma {:induction false} FollowReadsEveryLine(lines: seq<string>, start: nat, sizes: nat -> nat, turn: nat)
    requires 1 <= start <= |lines| && forall t :: 1 <= sizes(t)
    ensures var trip := Follow(lines, start, sizes, turn);
            && (trip.refused <==> !AllShort(lines[start - 1..]))
            && (!trip.refused ==> Chained(trip.pages, start, |lines| + 1) && Join(Contents(trip.pages)) == Join(lines[start - 1..]))
            && (forall i :: 0 <= i < |trip.pages| ==> |trip.pages[i].content| <= MAX_CHARS)
    decreases |lines| + 1 - start
  {
    hide PageOf, Join, AllShort, Contents, Chained;
    var a := PageOf(lines, start, sizes(turn));
    PageHolds(lines, start, sizes(turn));
    PageMovesOn(lines, start, sizes(turn));
    if a.Ok? {
      var next := a.page.nextLine;
      AllShortRanges(lines, start - 1, next - 1);
      if next <= |lines| {
        var rest := Follow(lines, next, sizes, turn + 1);
        FollowReadsEveryLine(lines, next, sizes, turn + 1);
        JoinRanges(lines, start - 1, next - 1);
        if !rest.refused { OnePageMore(a.page, rest.pages, next, |lines| + 1); }
      } else {
        assert lines[start - 1..next - 1] == lines[start - 1..];
        AllShortEnds(lines);
        LastPage(a.page);
      }
    }
  }

  lemma AllShortEnds(lines: seq<string>)
    ensures AllShort(lines[|lines|..])
  {
  }

  lemma LastPage(p: Page)
    requires p.startLine < p.nextLine
    ensures Chained([p], p.startLine, p.nextLine) && Join(Contents([p])) == p.content
  {
  }

  lemma OnePageMore(p: Page, rest: seq<Page>, next: nat, end: nat)
    requires p.startLine < p.nextLine == next && Chained(rest, next, end)
    ensures Chained([p] + rest, p.startLine, end)
    ensures Join(Contents([p] + rest)) == p.content + "\n" + Join(Contents(rest))
  {
    hide Join, Contents;
    ContentsOfFirst(p, rest);
    OneContent(p.content);
    JoinParts([p.content], Contents(rest));
  }

  lemma ContentsOfFirst(p: Page, rest: seq<Page>)
    ensures Contents([p] + rest) == [p.content] + Contents(rest)
  {
  }

  lemma OneContent(content: string)
    ensures Join([content]) == content
  {
  }

  /** The next line of any page of a text of legal size may be asked for. */
  lemma NextLineIsLegal(text: string, start: nat, max: nat)
    requires 1 <= start && 1 <= max && |text| < MAX_START
    ensures var a := PageOf(Lines(text), start, max); a.Ok? && a.page.hasMore ==> start < a.page.nextLine <= MAX_START
  {
    FewLines(text, 0);
    PageMovesOn(Lines(text), start, max);
  }

  // --------------------------------------------------- a short line lost to a long one

  /** A text of one short line and one line over the cap. */
  function ShortThenLong(): (text: string) {
    "a\n" + seq(MAX_CHARS + 1, i => 'x')
  }

  lemma ShortThenLongLines()
    ensures Lines(ShortThenLong()) == ["a", seq(MAX_CHARS + 1, i => 'x')]
  {
    var long := seq(MAX_CHARS + 1, i => 'x');
    var lines := [Line("a", "\n"), Line(long, "")];
    assert lines[1..] == [Line(long, "")] && lines[1..][1..] == [];
    assert Rebuilt([]) == "" && Proper([]);
    assert Rebuilt(lines[1..]) == long + "" + "" == long;
    assert NoBreak(long, 0, |long|) && NoBreak("a", 0, 1);
    assert FirstIsProper(lines[1], "") && FirstIsProper(lines[0], long);
    assert Rebuilt(lines) == "a" + "\n" + long == ShortThenLong();
    assert ShortThenLong()[0..] == ShortThenLong();
    RebuiltScans(ShortThenLong(), 0, lines);
  }

  /** Asked for both lines, the page is refused, although the first would fit; asked for one line, it is given. */
  lemma ShortLineIsRefusedWithLongOne()
    ensures PageOf(Lines(ShortThenLong()), 1, 2) == LineTooLong
    ensures PageOf(Lines(ShortThenLong()), 1, 1) == Ok(Page("a", 1, 2, 2, true))
  {
    ShortThenLongLines();
    var lines := Lines(ShortThenLong());
    var two, one := Window(lines, 1, 2), Window(lines, 1, 1);
    assert two == lines && one == ["a"];
    hide Lines, ShortThenLong;
    FitsOneMore(["a"], lines[1]);
    assert two == ["a"] + [lines[1]];
    FitsOneMore([], "a");
    assert [] + ["a"] == ["a"];
    assert one[..1] == ["a"];
  }

  // ---------------------------------------------------------------------- one page, exactly

  /** A page that is not refused holds the lines from `start` on, joined by line feeds, and as many as fit: it ends at
  the end of the text, at the number of lines asked for, or before a line with which it would exceed 8192 characters. */
  lemma PageIs(lines: seq<string>, start: nat, max: nat)
    requires 1 <= start && 1 <= max && PageOf(lines, start, max).Ok?
    ensures var p := PageOf(lines, start, max).page;
            && p.startLine == start && p.totalLines == |lines| && (p.hasMore <==> p.nextLine <= |lines|)
            && (start > |lines| ==> p.content == "" && p.nextLine == start)
            && (start <= |lines| ==>
                  && start < p.nextLine <= start + max && p.nextLine <= |lines| + 1
                  && p.content == Join(lines[start - 1..p.nextLine - 1]) && |p.content| <= 8192
                  && (p.nextLine == start + max || p.nextLine == |lines| + 1 || |Join(lines[start - 1..p.nextLine])| > 8192))
  {
    PageMovesOn(lines, start, max);
    var w := Window(lines, start, max);
    var k := Fitting(w);
    if start <= |lines| {
      PageHolds(lines, start, max);
      if k < |w| {
        FittingIsLongest(w, k + 1);
        assert w[..k + 1] == lines[start - 1..start + k];
      }
    }
  }

  /** Joining puts one line feed between neighbours and nothing else. */
  lemma JoinIs(line: string, lines: seq<string>)
    ensures Join([line]) == line
    ensures lines != [] ==> Join([line] + lines) == line + "\n" + Join(lines)
  {
    if lines != [] { JoinParts([line], lines); }
  }
}
