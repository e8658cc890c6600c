/** The incremental server-sent-events reader of HTTP subscriptions: the LF and CRLF subset of
sections 9.2.5 and 9.2.6 of the WHATWG HTML standard, with `data` as the only field. */
module SseReader {
  import opened Bytes

  const CR: byte := 13
  const COLON: byte := 58
  const SPACE: byte := 32
  const DATA: seq<byte> := [100, 97, 116, 97]

  /** What an event leads to: go on, end the stream, a dispatch that times out or raises, or no dispatch
  at all because the payload is not JSON. */
  datatype Verdict = More | Last | Broken | Malformed

  datatype Stop = Reading | Ended | LineTooLong | EventTooLong | BadJson | DispatchFailed

  /** `dispatch` sees all events so far, the new one last. */
  datatype Config = Config(max: nat, dispatch: seq<seq<byte>> -> Verdict)

  /** `events` are the payloads handed to dispatch. */
  datatype State = State(pending: seq<byte>, data: seq<seq<byte>>, eventBytes: nat, events: seq<seq<byte>>, stop: Stop)

  function Init(): (r: State) {
    State([], [], 0, [], Reading)
  }

  function WithoutCr(line: seq<byte>): (r: seq<byte>) {
    if line != [] && line[|line| - 1] == CR then line[..|line| - 1] else line
  }

  /** The data lines of an event, joined by newlines. */
  function Join(lines: seq<seq<byte>>): (r: seq<byte>) {
    if lines == [] then []
    else if |lines| == 1 then lines[0]
    else lines[0] + [LF] + Join(lines[1..])
  }

  predicate IsData(line: seq<byte>) {
    line == DATA || DATA + [COLON] <= line
  }

  /** Value of a `data` line: what follows the colon, less one leading space. */
  function DataValue(line: seq<byte>): (r: seq<byte>)
    requires IsData(line)
  {
    if line == DATA then []
    else
      var value := line[|DATA| + 1..];
      if value != [] && value[0] == SPACE then value[1..] else value
  }

  /** The effect of one complete line on everything but the pending bytes. */
  function TakeLine(st: State, raw: seq<byte>, cfg: Config): (r: State)
    ensures r.pending == st.pending
  {
    var line := WithoutCr(raw);
    if line == [] then
      if st.data == [] then st.(eventBytes := 0)
      else
        var events := st.events + [Join(st.data)];
        match cfg.dispatch(events)
        case More => st.(events := events, data := [], eventBytes := 0)
        case Last => st.(events := events, data := [], eventBytes := 0, stop := Ended)
        case Broken => st.(events := events, stop := DispatchFailed)
        case Malformed => st.(stop := BadJson)
    else if line[0] == COLON || !IsData(line) then st
    else
      var value := DataValue(line);
      var size := st.eventBytes + |value| + 1;
      if size > cfg.max then st.(eventBytes := size, stop := EventTooLong)
      else st.(eventBytes := size, data := st.data + [value])
  }

  /** Takes every complete line from the pending bytes, until the stream stops. */
  function Drain(st: State, cfg: Config): (r: State)
    decreases |st.pending|
  {
    var k := Find(st.pending);
    if st.stop != Reading || k == |st.pending| then st
    else Drain(TakeLine(st.(pending := st.pending[k + 1..]), st.pending[..k], cfg), cfg)
  }

  function Feed(st: State, chunk: seq<byte>, cfg: Config): (r: State) {
    if st.stop != Reading then st
    else if |st.pending + chunk| > cfg.max then st.(pending := st.pending + chunk, stop := LineTooLong)
    else Drain(st.(pending := st.pending + chunk), cfg)
  }

  function FeedAll(st: State, chunks: seq<seq<byte>>, cfg: Config): (r: State)
    decreases |chunks|
  {
    if chunks == [] then st else FeedAll(Feed(st, chunks[0], cfg), chunks[1..], cfg)
  }

  function Concat(chunks: seq<seq<byte>>): (r: seq<byte>) {
    if chunks == [] then [] else chunks[0] + Concat(chunks[1..])
  }

  /** What a consumer can see: leftover bytes of a stopped stream are never looked at. */
  function Seen(st: State): (r: State) {
    if st.stop == Reading then st else st.(pending := [])
  }

  // ------------------------------------------------------------ chunking

  lemma TakeLineIgnoresPending(st: State, raw: seq<byte>, cfg: Config, p: seq<byte>)
    ensures TakeLine(st.(pending := p), raw, cfg) == TakeLine(st, raw, cfg).(pending := p)
  {
    hide WithoutCr, IsData, Join;
  }

  lemma DrainStep(st: State, cfg: Config)
    ensures var k := Find(st.pending);
            Drain(st, cfg) == if st.stop != Reading || k == |st.pending| then st
                              else Drain(TakeLine(st.(pending := st.pending[k + 1..]), st.pending[..k], cfg), cfg)
  {
    hide Find, TakeLine;
  }

  /** Bytes that arrive later may as well have been there from the start. */
  lemma {:induction false} DrainAppend(st: State, more: seq<byte>, cfg: Config)
    ensures var d := Drain(st, cfg);
            Drain(st.(pending := st.pending + more), cfg) == Drain(d.(pending := d.pending + more), cfg)
    decreases |st.pending|
  {
    hide TakeLine, Drain, Find;
    var k, p := Find(st.pending), st.pending;
    DrainStep(st, cfg);
    if st.stop == Reading && k < |p| {
      var next := TakeLine(st.(pending := p[k + 1..]), p[..k], cfg);
      DrainAppend(next, more, cfg);
      FindInPrefix(p, more);
      SplitAt(p, more, k);
      SplitAt(p, more, k + 1);
      DrainStep(st.(pending := p + more), cfg);
      TakeLineIgnoresPending(st.(pending := p[k + 1..]), p[..k], cfg, p[k + 1..] + more);
      assert st.(pending := p[k + 1..]).(pending := p[k + 1..] + more) == st.(pending := p[k + 1..] + more);
    }
  }

  lemma DrainStopped(st: State, cfg: Config)
    requires st.stop != Reading
    ensures Drain(st, cfg) == st
  {
  }

  lemma {:induction false} FeedStopped(st: State, chunks: seq<seq<byte>>, cfg: Config)
    requires st.stop != Reading
    ensures FeedAll(st, chunks, cfg) == st
    decreases |chunks|
  {
    if chunks != [] { FeedStopped(st, chunks[1..], cfg); }
  }

  lemma {:induction false} DrainLeavesNoLine(st: State, cfg: Config)
    ensures Drain(st, cfg).stop == Reading ==> Find(Drain(st, cfg).pending) == |Drain(st, cfg).pending|
    decreases |st.pending|
  {
    hide TakeLine, Find;
    var k := Find(st.pending);
    if st.stop == Reading && k < |st.pending| {
      DrainLeavesNoLine(TakeLine(st.(pending := st.pending[k + 1..]), st.pending[..k], cfg), cfg);
    }
  }

  lemma {:induction false} UntrippedFeed(st: State, chunks: seq<seq<byte>>, cfg: Config)
    requires Find(st.pending) == |st.pending| && st.stop == Reading
    requires FeedAll(st, chunks, cfg).stop != LineTooLong
    ensures Seen(FeedAll(st, chunks, cfg)) == Seen(Drain(st.(pending := st.pending + Concat(chunks)), cfg))
    decreases |chunks|
  {
    hide Drain, TakeLine, Find;
    if chunks == [] {
      assert st.pending + [] == st.pending;
      DrainStep(st, cfg);
    } else {
      var chunk, rest := chunks[0], Concat(chunks[1..]);
      var fed := Feed(st, chunk, cfg);
      if fed.stop != Reading { FeedStopped(fed, chunks[1..], cfg); }
      assert st.pending + Concat(chunks) == (st.pending + chunk) + rest;
      DrainAppend(st.(pending := st.pending + chunk), rest, cfg);
      assert st.(pending := st.pending + chunk).(pending := (st.pending + chunk) + rest) == st.(pending := st.pending + Concat(chunks));
      if fed.stop == Reading {
        DrainLeavesNoLine(st.(pending := st.pending + chunk), cfg);
        UntrippedFeed(fed, chunks[1..], cfg);
      } else {
        DrainStopped(fed.(pending := fed.pending + rest), cfg);
      }
    }
  }

  lemma {:induction false} DrainNeverGrows(st: State, cfg: Config)
    ensures |Drain(st, cfg).pending| <= |st.pending|
    ensures st.stop != LineTooLong ==> Drain(st, cfg).stop != LineTooLong
    decreases |st.pending|
  {
    hide Find, Join, IsData;
    var k := Find(st.pending);
    if st.stop == Reading && k < |st.pending| {
      DrainNeverGrows(TakeLine(st.(pending := st.pending[k + 1..]), st.pending[..k], cfg), cfg);
    }
  }

  /** A stream no longer than the limit never trips the pending limit. */
  lemma {:induction false} ShortStreamsNeverTrip(st: State, chunks: seq<seq<byte>>, cfg: Config)
    requires st.stop != LineTooLong && |st.pending| + |Concat(chunks)| <= cfg.max
    ensures FeedAll(st, chunks, cfg).stop != LineTooLong
    decreases |chunks|
  {
    hide Drain;
    if chunks != [] {
      DrainNeverGrows(st.(pending := st.pending + chunks[0]), cfg);
      ShortStreamsNeverTrip(Feed(st, chunks[0], cfg), chunks[1..], cfg);
    }
  }

  /** However the bytes are split into chunks, the reader sees exactly what it sees of the whole stream at
      once, unless, and only unless, a chunk trips the pending limit. */
  lemma ChunkingIsInvisible(st: State, chunks: seq<seq<byte>>, cfg: Config)
    requires Find(st.pending) == |st.pending| && st.stop == Reading
    ensures FeedAll(st, chunks, cfg).stop != LineTooLong
       <==> Seen(FeedAll(st, chunks, cfg)) == Seen(Drain(st.(pending := st.pending + Concat(chunks)), cfg))
  {
    DrainNeverGrows(st.(pending := st.pending + Concat(chunks)), cfg);
    hide Drain, FeedAll, Find, Concat;
    if FeedAll(st, chunks, cfg).stop != LineTooLong { UntrippedFeed(st, chunks, cfg); }
  }

  lemma {:induction false} DrainKeepsEvents(st: State, cfg: Config)
    ensures st.events <= Drain(st, cfg).events
    decreases |st.pending|
  {
    hide Find, TakeLine;
    var k := Find(st.pending);
    if st.stop == Reading && k < |st.pending| {
      var next := TakeLine(st.(pending := st.pending[k + 1..]), st.pending[..k], cfg);
      LineKeepsEvents(st.(pending := st.pending[k + 1..]), st.pending[..k], cfg);
      DrainKeepsEvents(next, cfg);
      PrefixChains(st.events, next.events, Drain(next, cfg).events);
    }
  }

  lemma LineKeepsEvents(st: State, raw: seq<byte>, cfg: Config)
    ensures st.events <= TakeLine(st, raw, cfg).events
  {
    hide Join, IsData, DataValue, WithoutCr;
  }

  lemma PrefixChains(a: seq<seq<byte>>, b: seq<seq<byte>>, c: seq<seq<byte>>)
    requires a <= b <= c
    ensures a <= c
  {
  }

  /** However the bytes arrive, what is dispatched is a part of what the whole stream would dispatch, from its start. */
  lemma {:induction false} EventsAreAPrefix(st: State, chunks: seq<seq<byte>>, cfg: Config)
    requires Find(st.pending) == |st.pending| && st.stop == Reading
    ensures FeedAll(st, chunks, cfg).events <= Drain(st.(pending := st.pending + Concat(chunks)), cfg).events
    decreases |chunks|
  {
    hide Drain, TakeLine, Find;
    if chunks == [] {
      assert st.pending + [] == st.pending;
      DrainStep(st, cfg);
    } else {
      var chunk, rest := chunks[0], Concat(chunks[1..]);
      var fed := Feed(st, chunk, cfg);
      assert st.pending + Concat(chunks) == (st.pending + chunk) + rest;
      DrainAppend(st.(pending := st.pending + chunk), rest, cfg);
      assert st.(pending := st.pending + chunk).(pending := (st.pending + chunk) + rest) == st.(pending := st.pending + Concat(chunks));
      if fed.stop == Reading {
        DrainLeavesNoLine(st.(pending := st.pending + chunk), cfg);
        EventsAreAPrefix(fed, chunks[1..], cfg);
      } else {
        FeedStopped(fed, chunks[1..], cfg);
        DrainKeepsEvents(st.(pending := st.pending + Concat(chunks)), cfg);
        DrainStopped(fed.(pending := fed.pending + rest), cfg);
      }
    }
  }

  /** Two splits of the same bytes: if neither trips the pending limit, they dispatch the same events and stop the same
      way; one that trips it dispatches the first of the events of one that does not, and no others. */
  lemma SameBytesSameEvents(a: seq<seq<byte>>, b: seq<seq<byte>>, cfg: Config)
    requires Concat(a) == Concat(b)
    ensures var x, y := FeedAll(Init(), a, cfg), FeedAll(Init(), b, cfg);
            && (x.stop != LineTooLong && y.stop != LineTooLong ==> Seen(x) == Seen(y))
            && (y.stop != LineTooLong ==> x.events <= y.events)
  {
    hide FeedAll, Drain, Concat;
    ChunkingIsInvisible(Init(), a, cfg);
    ChunkingIsInvisible(Init(), b, cfg);
    EventsAreAPrefix(Init(), a, cfg);
  }

  // ------------------------------------------------------- when the limit is tripped

  /** The bytes behind the last newline. */
  function Partial(s: seq<byte>): (r: seq<byte>)
    ensures Find(r) == |r| <= |s|
  {
    if Find(s) == |s| then s else Partial(s[Find(s) + 1..])
  }

  lemma {:induction false} DrainLeavesPartial(st: State, cfg: Config)
    ensures Drain(st, cfg).stop == Reading ==> Drain(st, cfg).pending == Partial(st.pending)
    decreases |st.pending|
  {
    hide TakeLine, Find;
    var k := Find(st.pending);
    if st.stop == Reading && k < |st.pending| {
      DrainLeavesPartial(TakeLine(st.(pending := st.pending[k + 1..]), st.pending[..k], cfg), cfg);
    }
  }

  /** The bytes so far do not end the stream, and `chunk` is more than the limit admits behind their unfinished line. */
  predicate Trips(before: seq<byte>, chunk: seq<byte>, cfg: Config) {
    Drain(Init().(pending := before), cfg).stop == Reading && |Partial(before)| + |chunk| > cfg.max
  }

  lemma {:induction false} FeedLast(st: State, chunks: seq<seq<byte>>, cfg: Config)
    requires chunks != []
    ensures FeedAll(st, chunks, cfg) == Feed(FeedAll(st, chunks[..|chunks| - 1], cfg), chunks[|chunks| - 1], cfg)
    decreases |chunks|
  {
    hide Feed;
    if |chunks| > 1 {
      FeedLast(Feed(st, chunks[0], cfg), chunks[1..], cfg);
      assert chunks[1..][..|chunks| - 2] == chunks[..|chunks| - 1][1..];
    }
  }

  lemma LastChunkTrips(before: seq<seq<byte>>, chunk: seq<byte>, cfg: Config)
    requires FeedAll(Init(), before, cfg).stop != LineTooLong
    ensures Feed(FeedAll(Init(), before, cfg), chunk, cfg).stop == LineTooLong <==> Trips(Concat(before), chunk, cfg)
  {
    hide Find, Drain, FeedAll, Partial, Concat;
    var st := FeedAll(Init(), before, cfg);
    UntrippedFeed(Init(), before, cfg);
    assert [] + Concat(before) == Concat(before);
    DrainLeavesPartial(Init().(pending := Concat(before)), cfg);
    DrainNeverGrows(st.(pending := st.pending + chunk), cfg);
  }

  /** The limit is not one on lines, as its error message says: it is tripped exactly when some chunk,
      together with the unfinished line before it, is longer than the limit, whatever lines the chunk ends. */
  lemma {:induction false} LimitIsOnChunks(chunks: seq<seq<byte>>, cfg: Config)
    ensures FeedAll(Init(), chunks, cfg).stop == LineTooLong
       <==> exists i :: 0 <= i < |chunks| && Trips(Concat(chunks[..i]), chunks[i], cfg)
  {
    hide Feed, FeedAll, Trips, Partial, Find, Concat;
    if chunks == [] {
      NothingFed(cfg);
    } else {
      var n := |chunks| - 1;
      var init := chunks[..n];
      LimitIsOnChunks(init, cfg);
      FeedLast(Init(), chunks, cfg);
      assert forall i :: 0 <= i < n ==> init[..i] == chunks[..i] && init[i] == chunks[i];
      if FeedAll(Init(), init, cfg).stop != LineTooLong {
        LastChunkTrips(init, chunks[n], cfg);
      } else {
        StoppedStays(init, chunks[n], cfg);
      }
    }
  }

  lemma NothingFed(cfg: Config)
    ensures FeedAll(Init(), [], cfg).stop == Reading
  {
  }

  lemma StoppedStays(before: seq<seq<byte>>, chunk: seq<byte>, cfg: Config)
    requires FeedAll(Init(), before, cfg).stop != Reading
    ensures Feed(FeedAll(Init(), before, cfg), chunk, cfg) == FeedAll(Init(), before, cfg)
  {
  }

  /** Three comment lines of one byte: read one by one they pass a limit of four bytes, at once they do not. */
  lemma ShortLinesTripTogether(dispatch: seq<seq<byte>> -> Verdict)
    ensures var line, cfg := [COLON, LF], Config(4, dispatch);
            && FeedAll(Init(), [line, line, line], cfg).stop == Reading
            && FeedAll(Init(), [line + line + line], cfg).stop == LineTooLong
  {
    var line, cfg := [COLON, LF], Config(4, dispatch);
    CommentIsIgnored(cfg);
    hide Feed;
    assert [line][1..] == [] && FeedAll(Init(), [line], cfg) == Init();
    assert [line, line][1..] == [line] && FeedAll(Init(), [line, line], cfg) == Init();
    assert [line, line, line][1..] == [line, line];
    assert |Init().pending + (line + line + line)| == 6;
    StopsAtOnce(line + line + line, cfg);
    assert [line + line + line][1..] == [];
  }

  lemma CommentIsIgnored(cfg: Config)
    requires cfg.max == 4
    ensures Feed(Init(), [COLON, LF], cfg) == Init()
  {
    var st := Init().(pending := [COLON, LF]);
    assert [] + [COLON, LF] == [COLON, LF];
    assert Find([COLON, LF]) == 1 by { assert [COLON, LF][1..] == [LF]; }
    DrainStep(st, cfg);
    assert [COLON, LF][..1] == [COLON] && [COLON, LF][2..] == [];
    DrainStep(Init(), cfg);
  }

  lemma StopsAtOnce(chunk: seq<byte>, cfg: Config)
    requires |chunk| > cfg.max
    ensures Feed(Init(), chunk, cfg).stop == LineTooLong
  {
    assert [] + chunk == chunk;
  }

  // -------------------------------------------------------------- round trip

  const LF_ONLY: seq<byte> := [LF]
  const CR_LF: seq<byte> := [CR, LF]

  /** A line as a server may send it: a data line with or without the optional space, a data line without
      colon, a comment, or a line of some other field. */
  datatype Sent = Data(value: seq<byte>, spaced: bool) | Bare | Comment(text: seq<byte>) | Other(line: seq<byte>)

  /** The bytes of the line: "data: x", "data:x", "data", ":x" or the line itself. */
  function TextOf(l: Sent): (r: seq<byte>) {
    match l
    case Data(value, spaced) => [100, 97, 116, 97, 58] + (if spaced then [32] else []) + value
    case Bare => [100, 97, 116, 97]
    case Comment(text) => [58] + text
    case Other(line) => line
  }

  /** Without the optional space a value does not begin with one; another field is not called "data". */
  predicate Unambiguous(l: Sent) {
    match l
    case Data(value, spaced) => spaced || value == [] || value[0] != 32
    case Other(line) => line != [] && line[0] != 58 && line != [100, 97, 116, 97] && !([100, 97, 116, 97, 58] <= line)
    case _ => true
  }

  /** The value a line carries, if it is a data line. */
  function ValueOf(l: Sent): (r: seq<seq<byte>>)
    ensures |r| <= 1
  {
    match l
    case Data(value, _) => [value]
    case Bare => [[]]
    case _ => []
  }

  /** What the data lines among these carry. */
  function Values(lines: seq<Sent>): (r: seq<seq<byte>>) {
    if lines == [] then [] else ValueOf(lines[0]) + Values(lines[1..])
  }

  /** A line that a newline style can carry. */
  predicate Plain(line: seq<byte>, nl: seq<byte>) {
    && nl in {LF_ONLY, CR_LF} && LF !in line
    && (nl == LF_ONLY && line != [] ==> line[|line| - 1] != CR)
  }

  /** One event: its lines, then an empty line. */
  function EncodeEvent(lines: seq<Sent>, nl: seq<byte>): (r: seq<byte>) {
    if lines == [] then nl else TextOf(lines[0]) + nl + EncodeEvent(lines[1..], nl)
  }

  function EncodeAll(events: seq<seq<Sent>>, nl: seq<byte>): (r: seq<byte>) {
    if events == [] then [] else EncodeEvent(events[0], nl) + EncodeAll(events[1..], nl)
  }

  function SizeOf(values: seq<seq<byte>>): (r: nat) {
    if values == [] then 0 else |values[0]| + 1 + SizeOf(values[1..])
  }

  predicate Carried(l: Sent, nl: seq<byte>) {
    Plain(TextOf(l), nl) && Unambiguous(l)
  }

  predicate Sendable(lines: seq<Sent>, nl: seq<byte>, cfg: Config) {
    SizeOf(Values(lines)) <= cfg.max && forall i :: 0 <= i < |lines| ==> Carried(lines[i], nl)
  }

  /** The data of the events that have any; an event of comments and other fields alone is not dispatched. */
  function Contents(events: seq<seq<Sent>>): (r: seq<seq<seq<byte>>>) {
    if events == [] then []
    else (if Values(events[0]) == [] then [] else [Values(events[0])]) + Contents(events[1..])
  }

  /** Each payload, ended by a newline, is the event's data lines, each ended by a newline. */
  predicate ArePayloads(payloads: seq<seq<byte>>, contents: seq<seq<seq<byte>>>) {
    |payloads| == |contents| && forall i :: 0 <= i < |payloads| ==> payloads[i] + [LF] == Framed(contents[i])
  }

  /** The joined lines and a newline are the lines, each with a newline. */
  lemma {:induction false} JoinIsFramed(lines: seq<seq<byte>>)
    requires lines != []
    ensures Join(lines) + [LF] == Framed(lines)
  {
    if |lines| == 1 {
      assert lines[1..] == [] && lines[0] + [LF] + [] == lines[0] + [LF];
    } else {
      JoinIsFramed(lines[1..]);
      assert Join(lines) + [LF] == lines[0] + [LF] + (Join(lines[1..]) + [LF]);
    }
  }

  lemma SamePayload(a: seq<byte>, b: seq<byte>)
    requires a + [LF] == b + [LF]
    ensures a == b
  {
    assert (a + [LF])[..|a|] == a && (b + [LF])[..|b|] == b;
  }

  /** A line as it stands before its newline: with the CR of a CRLF. */
  function Raw(line: seq<byte>, nl: seq<byte>): (r: seq<byte>) {
    if nl == CR_LF then line + [CR] else line
  }

  lemma LineSplits(line: seq<byte>, nl: seq<byte>, rest: seq<byte>)
    requires Plain(line, nl)
    ensures var p := line + nl + rest;
            && Find(p) == |Raw(line, nl)| < |p|
            && p[..Find(p)] == Raw(line, nl) && p[Find(p) + 1..] == rest
            && WithoutCr(Raw(line, nl)) == line
  {
    var raw := Raw(line, nl);
    assert line + nl + rest == raw + [LF] + rest by {
      if nl == CR_LF { assert line + [CR, LF] == line + [CR] + [LF]; }
    }
    assert LF !in raw;
    CutAtNewline(raw, rest);
    hide Find;
    assert nl == CR_LF ==> raw[..|raw| - 1] == line;
  }

  lemma DataLineValue(value: seq<byte>, spaced: bool)
    requires Unambiguous(Data(value, spaced))
    ensures IsData(TextOf(Data(value, spaced))) && DataValue(TextOf(Data(value, spaced))) == value
  {
    var whole := TextOf(Data(value, spaced));
    var rest := (if spaced then [32] else []) + value;
    assert whole == DATA + [COLON] + rest;
    assert whole[|DATA| + 1..] == rest;
    assert spaced ==> rest[1..] == value;
  }

  lemma SizeOfMore(v: seq<seq<byte>>, rest: seq<seq<byte>>)
    requires |v| <= 1
    ensures SizeOf(v + rest) == SizeOf(v) + SizeOf(rest)
  {
    if v == [] {
      assert v + rest == rest;
    } else {
      assert (v + rest)[1..] == rest && v[1..] == [];
    }
  }

  lemma SizeOfOne(value: seq<byte>)
    ensures SizeOf([value]) == |value| + 1
  {
    assert [value][1..] == [];
  }

  /** One line adds its value, if it has one, to the data of the event, and changes nothing else. */
  lemma SentLine(st: State, l: Sent, cfg: Config, raw: seq<byte>)
    requires Unambiguous(l) && WithoutCr(raw) == TextOf(l) && TextOf(l) != []
    requires st.eventBytes + SizeOf(ValueOf(l)) <= cfg.max
    ensures TakeLine(st, raw, cfg) == st.(data := st.data + ValueOf(l), eventBytes := st.eventBytes + SizeOf(ValueOf(l)))
  {
    hide WithoutCr, Join;
    match l
    case Data(value, spaced) =>
      DataLineValue(value, spaced);
      SizeOfOne(value);
      assert TextOf(l)[0] == 100;
    case Bare =>
      SizeOfOne([]);
    case Comment(text) =>
      assert st.data + [] == st.data;
    case Other(line) =>
      assert st.data + [] == st.data;
      assert !IsData(line);
  }

  lemma DrainSentLine(st: State, l: Sent, nl: seq<byte>, rest: seq<byte>, cfg: Config)
    requires st.stop == Reading && Carried(l, nl) && st.eventBytes + SizeOf(ValueOf(l)) <= cfg.max
    ensures Drain(st.(pending := TextOf(l) + nl + rest), cfg)
         == Drain(st.(pending := rest, data := st.data + ValueOf(l), eventBytes := st.eventBytes + SizeOf(ValueOf(l))), cfg)
  {
    hide Drain, Find, Join, TakeLine, ValueOf, SizeOf;
    assert TextOf(l) != [];
    LineSplits(TextOf(l), nl, rest);
    SentLine(st.(pending := rest), l, cfg, Raw(TextOf(l), nl));
    hide WithoutCr, Raw, TextOf, Unambiguous, Plain;
    DrainStep(st.(pending := TextOf(l) + nl + rest), cfg);
  }

  /** The empty line dispatches the data collected, if there is any. */
  lemma DrainBlankLine(st: State, nl: seq<byte>, rest: seq<byte>, cfg: Config)
    requires st.stop == Reading && nl in {LF_ONLY, CR_LF}
    requires st.data != [] ==> cfg.dispatch(st.events + [Join(st.data)]) == More
    ensures Drain(st.(pending := nl + rest), cfg)
         == Drain(st.(pending := rest, data := [], eventBytes := 0,
                      events := if st.data == [] then st.events else st.events + [Join(st.data)]), cfg)
  {
    hide Drain, Find, Join, IsData, DataValue;
    assert [] + nl + rest == nl + rest;
    LineSplits([], nl, rest);
    hide WithoutCr, Raw;
    DrainStep(st.(pending := nl + rest), cfg);
  }

  lemma {:induction false} DrainEvent(st: State, lines: seq<Sent>, nl: seq<byte>, rest: seq<byte>, cfg: Config)
    requires st.stop == Reading && nl in {LF_ONLY, CR_LF}
    requires st.eventBytes + SizeOf(Values(lines)) <= cfg.max && forall i :: 0 <= i < |lines| ==> Carried(lines[i], nl)
    requires st.data + Values(lines) != [] ==> cfg.dispatch(st.events + [Join(st.data + Values(lines))]) == More
    ensures var data := st.data + Values(lines);
            Drain(st.(pending := EncodeEvent(lines, nl) + rest), cfg) ==
            Drain(st.(pending := rest, data := [], eventBytes := 0,
                      events := if data == [] then st.events else st.events + [Join(data)]), cfg)
    decreases |lines|
  {
    hide Drain, Join, Carried, TextOf, SizeOf, ValueOf;
    if lines == [] {
      assert st.data + Values(lines) == st.data;
      DrainBlankLine(st, nl, rest, cfg);
    } else {
      var after := EncodeEvent(lines[1..], nl) + rest;
      assert EncodeEvent(lines, nl) + rest == TextOf(lines[0]) + nl + after;
      SizeOfMore(ValueOf(lines[0]), Values(lines[1..]));
      assert Values(lines) == ValueOf(lines[0]) + Values(lines[1..]);
      hide Values;
      DrainSentLine(st, lines[0], nl, after, cfg);
      var st' := st.(data := st.data + ValueOf(lines[0]), eventBytes := st.eventBytes + SizeOf(ValueOf(lines[0])));
      assert st'.data + Values(lines[1..]) == st.data + Values(lines);
      DrainEvent(st', lines[1..], nl, rest, cfg);
    }
  }

  lemma SendableMeans(event: seq<Sent>, nl: seq<byte>, cfg: Config)
    requires Sendable(event, nl, cfg)
    ensures SizeOf(Values(event)) <= cfg.max && forall i :: 0 <= i < |event| ==> Carried(event[i], nl)
  {
  }

  /** The first payload is the joined data of the first event that has any. */
  lemma FirstPayload(events: seq<seq<Sent>>, payloads: seq<seq<byte>>)
    requires events != [] && ArePayloads(payloads, Contents(events))
    ensures var v := Values(events[0]);
            if v == [] then ArePayloads(payloads, Contents(events[1..]))
            else |payloads| > 0 && payloads[0] == Join(v) && ArePayloads(payloads[1..], Contents(events[1..]))
  {
    var v := Values(events[0]);
    hide Values;
    if v == [] {
      assert Contents(events) == Contents(events[1..]);
    } else {
      assert Contents(events)[0] == v && Contents(events)[1..] == Contents(events[1..]);
      JoinIsFramed(v);
      SamePayload(payloads[0], Join(v));
    }
  }

  /** Encoded events, read with anything behind them, are dispatched as the payloads of those with data, in order. */
  lemma {:induction false} EventsThenRest(st: State, events: seq<seq<Sent>>, payloads: seq<seq<byte>>, nl: seq<byte>, rest: seq<byte>, cfg: Config)
    requires st == Init().(events := st.events) && nl in {LF_ONLY, CR_LF} && ArePayloads(payloads, Contents(events))
    requires forall i :: 0 <= i < |events| ==> Sendable(events[i], nl, cfg)
    requires forall i :: 0 < i <= |payloads| ==> cfg.dispatch(st.events + payloads[..i]) == More
    ensures Drain(st.(pending := EncodeAll(events, nl) + rest), cfg) == Drain(st.(events := st.events + payloads, pending := rest), cfg)
    decreases |events|
  {
    hide Drain, Join, EncodeEvent, Sendable, ArePayloads, Values, Find;
    if events == [] {
      NoPayloads(payloads);
      assert [] + rest == rest && st.events + payloads == st.events;
    } else {
      var v, after := Values(events[0]), EncodeAll(events[1..], nl) + rest;
      FirstPayload(events, payloads);
      SendableMeans(events[0], nl, cfg);
      assert [] + v == v;
      assert EncodeAll(events, nl) + rest == EncodeEvent(events[0], nl) + after;
      if v == [] {
        DrainEvent(st, events[0], nl, after, cfg);
        EventsThenRest(st, events[1..], payloads, nl, rest, cfg);
      } else {
        assert payloads[..1] == [payloads[0]];
        DrainEvent(st, events[0], nl, after, cfg);
        var st' := st.(events := st.events + [payloads[0]]);
        forall i | 0 < i <= |payloads| - 1 ensures cfg.dispatch(st'.events + payloads[1..][..i]) == More {
          assert st'.events + payloads[1..][..i] == st.events + payloads[..i + 1];
        }
        EventsThenRest(st', events[1..], payloads[1..], nl, rest, cfg);
        assert st'.events + payloads[1..] == st.events + payloads;
      }
    }
  }

  /** Reading undoes writing: a stream of events, with LF or CRLF newlines, comments and other fields, is dispatched
      as the payloads of those with data, in order, for any split into chunks that trips no limit. */
  lemma EventsComeBack(st: State, events: seq<seq<Sent>>, payloads: seq<seq<byte>>, nl: seq<byte>, cfg: Config)
    requires st == Init().(events := st.events) && nl in {LF_ONLY, CR_LF} && ArePayloads(payloads, Contents(events))
    requires forall i :: 0 <= i < |events| ==> Sendable(events[i], nl, cfg)
    requires forall i :: 0 < i <= |payloads| ==> cfg.dispatch(st.events + payloads[..i]) == More
    ensures Drain(st.(pending := EncodeAll(events, nl)), cfg) == st.(events := st.events + payloads)
  {
    hide Drain, EncodeAll, Contents, ArePayloads, Sendable;
    EventsThenRest(st, events, payloads, nl, [], cfg);
    assert EncodeAll(events, nl) + [] == EncodeAll(events, nl);
    DrainNothing(st.(events := st.events + payloads, pending := []), cfg);
  }

  /** An event whose dispatch does not go on ends the reading, whatever follows it: at the end of the stream, for a
  failed dispatch, or, without being handed on, for data that is no JSON. */
  lemma {:induction false} EventStops(st: State, lines: seq<Sent>, payload: seq<byte>, nl: seq<byte>, rest: seq<byte>, cfg: Config)
    requires st.stop == Reading && nl in {LF_ONLY, CR_LF} && st.data + Values(lines) != []
    requires payload + [LF] == Framed(st.data + Values(lines))
    requires st.eventBytes + SizeOf(Values(lines)) <= cfg.max && forall i :: 0 <= i < |lines| ==> Carried(lines[i], nl)
    requires cfg.dispatch(st.events + [payload]) != More
    ensures var t, verdict := Drain(st.(pending := EncodeEvent(lines, nl) + rest), cfg), cfg.dispatch(st.events + [payload]);
            && t.stop == (if verdict == Last then Ended else if verdict == Broken then DispatchFailed else BadJson)
            && t.events == if verdict == Malformed then st.events else st.events + [payload]
    decreases |lines|
  {
    hide Drain, Join, Carried, TextOf, SizeOf, ValueOf;
    if lines == [] {
      assert st.data + Values(lines) == st.data;
      JoinIsFramed(st.data);
      SamePayload(payload, Join(st.data));
      BlankLineStops(st, nl, rest, cfg);
    } else {
      var after := EncodeEvent(lines[1..], nl) + rest;
      assert EncodeEvent(lines, nl) + rest == TextOf(lines[0]) + nl + after;
      SizeOfMore(ValueOf(lines[0]), Values(lines[1..]));
      assert Values(lines) == ValueOf(lines[0]) + Values(lines[1..]);
      hide Values;
      DrainSentLine(st, lines[0], nl, after, cfg);
      var st' := st.(data := st.data + ValueOf(lines[0]), eventBytes := st.eventBytes + SizeOf(ValueOf(lines[0])));
      assert st'.data + Values(lines[1..]) == st.data + Values(lines);
      EventStops(st', lines[1..], payload, nl, rest, cfg);
    }
  }

  lemma BlankLineStops(st: State, nl: seq<byte>, rest: seq<byte>, cfg: Config)
    requires st.stop == Reading && nl in {LF_ONLY, CR_LF} && st.data != [] && cfg.dispatch(st.events + [Join(st.data)]) != More
    ensures var t, verdict := Drain(st.(pending := nl + rest), cfg), cfg.dispatch(st.events + [Join(st.data)]);
            && t.stop == (if verdict == Last then Ended else if verdict == Broken then DispatchFailed else BadJson)
            && t.events == if verdict == Malformed then st.events else st.events + [Join(st.data)]
  {
    hide Drain, Find, Join, IsData, DataValue;
    assert [] + nl + rest == nl + rest;
    LineSplits([], nl, rest);
    hide WithoutCr, Raw;
    DrainStep(st.(pending := nl + rest), cfg);
    DrainStopped(TakeLine(st.(pending := rest), Raw([], nl), cfg), cfg);
  }

  /** An event with more data than the limit ends the reading before it is dispatched. */
  lemma {:induction false} OversizedEventStops(st: State, lines: seq<Sent>, nl: seq<byte>, rest: seq<byte>, cfg: Config)
    requires st.stop == Reading && st.eventBytes <= cfg.max < st.eventBytes + SizeOf(Values(lines))
    requires forall i :: 0 <= i < |lines| ==> Carried(lines[i], nl)
    ensures var t := Drain(st.(pending := EncodeEvent(lines, nl) + rest), cfg); t.stop == EventTooLong && t.events == st.events
    decreases |lines|
  {
    hide Drain, Join, Carried, TextOf, SizeOf, ValueOf;
    if lines == [] {
      NoSize();
    } else {
      var after := EncodeEvent(lines[1..], nl) + rest;
      assert EncodeEvent(lines, nl) + rest == TextOf(lines[0]) + nl + after;
      SizeOfMore(ValueOf(lines[0]), Values(lines[1..]));
      assert Values(lines) == ValueOf(lines[0]) + Values(lines[1..]);
      hide Values;
      if st.eventBytes + SizeOf(ValueOf(lines[0])) <= cfg.max {
        DrainSentLine(st, lines[0], nl, after, cfg);
        var st' := st.(data := st.data + ValueOf(lines[0]), eventBytes := st.eventBytes + SizeOf(ValueOf(lines[0])));
        OversizedEventStops(st', lines[1..], nl, rest, cfg);
      } else {
        OversizedLineStops(st, lines[0], nl, after, cfg);
      }
    }
  }

  lemma NoSize()
    ensures SizeOf(Values([])) == 0
  {
  }

  lemma OversizedLineStops(st: State, l: Sent, nl: seq<byte>, rest: seq<byte>, cfg: Config)
    requires st.stop == Reading && Carried(l, nl) && st.eventBytes <= cfg.max < st.eventBytes + SizeOf(ValueOf(l))
    ensures var t := Drain(st.(pending := TextOf(l) + nl + rest), cfg); t.stop == EventTooLong && t.events == st.events
  {
    hide Drain, Find, Join, TakeLine;
    LineSplits(TextOf(l), nl, rest);
    OversizedLine(st.(pending := rest), l, cfg, Raw(TextOf(l), nl));
    hide WithoutCr, Raw, TextOf, Unambiguous, Plain, ValueOf, SizeOf;
    DrainStep(st.(pending := TextOf(l) + nl + rest), cfg);
    DrainStopped(TakeLine(st.(pending := rest), Raw(TextOf(l), nl), cfg), cfg);
  }

  lemma OversizedLine(st: State, l: Sent, cfg: Config, raw: seq<byte>)
    requires Unambiguous(l) && WithoutCr(raw) == TextOf(l)
    requires st.eventBytes <= cfg.max < st.eventBytes + SizeOf(ValueOf(l))
    ensures var t := TakeLine(st, raw, cfg); t.stop == EventTooLong && t.events == st.events
  {
    hide WithoutCr, Join;
    match l
    case Data(value, spaced) =>
      DataLineValue(value, spaced);
      SizeOfOne(value);
      assert TextOf(l)[0] == 100;
    case Bare =>
      SizeOfOne([]);
    case _ =>
  }

  lemma NoPayloads(payloads: seq<seq<byte>>)
    ensures ArePayloads(payloads, Contents([])) ==> payloads == []
  {
  }

  lemma DrainNothing(st: State, cfg: Config)
    requires st.pending == []
    ensures Drain(st, cfg) == st
  {
  }

  lemma EventsSurviveChunking(events: seq<seq<Sent>>, payloads: seq<seq<byte>>, nl: seq<byte>, chunks: seq<seq<byte>>, cfg: Config)
    requires nl in {LF_ONLY, CR_LF} && Concat(chunks) == EncodeAll(events, nl) && ArePayloads(payloads, Contents(events))
    requires forall i :: 0 <= i < |events| ==> Sendable(events[i], nl, cfg)
    requires forall i :: 0 < i <= |payloads| ==> cfg.dispatch(payloads[..i]) == More
    requires FeedAll(Init(), chunks, cfg).stop != LineTooLong
    ensures FeedAll(Init(), chunks, cfg) == Init().(events := payloads)
  {
    hide Drain, FeedAll, EncodeAll, Sendable, ArePayloads, Contents;
    UntrippedFeed(Init(), chunks, cfg);
    assert [] + Concat(chunks) == EncodeAll(events, nl);
    forall i | 0 < i <= |payloads| ensures cfg.dispatch(Init().events + payloads[..i]) == More {
      assert [] + payloads[..i] == payloads[..i];
    }
    EventsComeBack(Init(), events, payloads, nl, cfg);
    assert [] + payloads == payloads;
  }

  // ------------------------------------------------------------- the object

  /** The worker's loop variables. */
  class Worker {
    var pending: seq<byte>
    var dataLines: seq<seq<byte>>
    var eventBytes: nat
    var events: seq<seq<byte>>
    var stop: Stop
    const cfg: Config

    function View(): (r: State)
      reads this
    {
      State(pending, dataLines, eventBytes, events, stop)
    }

    constructor (cfg: Config)
      ensures View() == Init() && this.cfg == cfg
    {
      this.cfg := cfg;
      pending, dataLines, eventBytes, events, stop := [], [], 0, [], Reading;
    }

    /** One complete line, already cut from the pending bytes. */
    method HandleLine(raw: seq<byte>)
      requires stop == Reading
      modifies this
      ensures View() == TakeLine(old(View()), raw, cfg)
    {
      var line := WithoutCr(raw);
      if line == [] {
        if dataLines != [] {
          var payload := Join(dataLines);
          var verdict := cfg.dispatch(events + [payload]);
          if verdict == Malformed { stop := BadJson; return; }
          events := events + [payload];
          if verdict == Broken { stop := DispatchFailed; return; }
          dataLines := [];
          if verdict == Last { stop := Ended; }
        }
        eventBytes := 0;
      } else if line[0] != COLON && IsData(line) {
        var value := DataValue(line);
        eventBytes := eventBytes + |value| + 1;
        if eventBytes > cfg.max { stop := EventTooLong; return; }
        dataLines := dataLines + [value];
      }
    }

    /** One chunk from the connection. */
    method Receive(chunk: seq<byte>)
      modifies this
      ensures View() == Feed(old(View()), chunk, cfg)
    {
      hide TakeLine, Drain, Find;
      if stop != Reading { return; }
      pending := pending + chunk;
      if |pending| > cfg.max { stop := LineTooLong; return; }
      ghost var start := View();
      while stop == Reading
        invariant Drain(View(), cfg) == Drain(start, cfg)
        decreases |pending|
      {
        DrainStep(View(), cfg);
        var newline := Find(pending);
        if newline == |pending| { return; }
        var raw := pending[..newline];
        pending := pending[newline + 1..];
        HandleLine(raw);
      }
      DrainStopped(View(), cfg);
    }
  }
}
