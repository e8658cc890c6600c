/** Newline framing of MCP messages over a child process's stdin and stdout. */
module StdioFramer {

  import opened Bytes

  const READ_SIZE := 65536

  datatype Read = Frame(raw: seq<byte>) | TooLong | Closed

  /** What reading one message from a byte stream that then ends must give. */
  function FirstFrame(stream: seq<byte>, limit: nat): (r: Read) {
    var k := Find(stream);
    if k > limit then TooLong
    else if k < |stream| then Frame(stream[..k])
    else Closed
  }

  /** What is left of the stream behind its first frame. */
  function Behind(stream: seq<byte>, limit: nat): (rest: seq<byte>)
    requires FirstFrame(stream, limit).Frame?
    ensures |rest| < |stream|
  {
    stream[|FirstFrame(stream, limit).raw| + 1..]
  }

  /** All frames of a stream. */
  function Frames(stream: seq<byte>, limit: nat): (r: seq<seq<byte>>)
    decreases |stream|
  {
    var first := FirstFrame(stream, limit);
    if first.Frame? then [first.raw] + Frames(Behind(stream, limit), limit) else []
  }

  /** The bytes behind the last frame; `FirstFrame` of them says why reading stops. */
  function Tail(stream: seq<byte>, limit: nat): (tail: seq<byte>)
    ensures !FirstFrame(tail, limit).Frame?
    decreases |stream|
  {
    if FirstFrame(stream, limit).Frame? then Tail(Behind(stream, limit), limit) else stream
  }

  /** What the part received so far decides about the whole stream. */
  lemma Decide(buffer: seq<byte>, rest: seq<byte>, limit: nat)
    ensures var k, stream := Find(buffer), buffer + rest;
            && (k < |buffer| ==> FirstFrame(stream, limit) == (if k > limit then TooLong else Frame(buffer[..k]))
                                 && stream[k + 1..] == buffer[k + 1..] + rest)
            && (k == |buffer| > limit ==> FirstFrame(stream, limit) == TooLong)
            && (k == |buffer| <= limit && rest == [] ==> FirstFrame(stream, limit) == Closed)
  {
    hide Find, FirstFrame;
    var k := Find(buffer);
    if k < |buffer| {
      FoundInBuffer(buffer, rest, limit);
    } else {
      NotInBuffer(buffer, rest, limit);
    }
  }

  lemma FoundInBuffer(buffer: seq<byte>, rest: seq<byte>, limit: nat)
    requires Find(buffer) < |buffer|
    ensures var k, stream := Find(buffer), buffer + rest;
            && FirstFrame(stream, limit) == (if k > limit then TooLong else Frame(buffer[..k]))
            && stream[k + 1..] == buffer[k + 1..] + rest
  {
    hide Find;
    var k, stream := Find(buffer), buffer + rest;
    FindInPrefix(buffer, rest);
    assert FirstFrame(stream, limit) == if k > limit then TooLong else Frame(stream[..k]);
    hide FirstFrame;
    SplitAt(buffer, rest, k);
    SplitAt(buffer, rest, k + 1);
  }

  lemma NotInBuffer(buffer: seq<byte>, rest: seq<byte>, limit: nat)
    requires Find(buffer) == |buffer|
    ensures |buffer| > limit ==> FirstFrame(buffer + rest, limit) == TooLong
    ensures |buffer| <= limit && rest == [] ==> FirstFrame(buffer + rest, limit) == Closed
  {
    FindInPrefix(buffer, rest);
    hide Find;
    assert rest == [] ==> Find(rest) == 0;
  }

  /** The child's stdout: `rest` is everything it will still write before it closes. Any
      non-empty prefix within the requested size may arrive. */
  class Pipe {
    var rest: seq<byte>

    constructor (rest: seq<byte>)
      ensures this.rest == rest
    {
      this.rest := rest;
    }

    method Read(n: nat) returns (chunk: seq<byte>)
      requires n >= 1
      modifies this
      ensures chunk + rest == old(rest) && |chunk| <= n
      ensures chunk == [] <==> old(rest) == []
    {
      if rest == [] { return []; }
      var k :| 1 <= k <= n && k <= |rest|;
      chunk, rest := rest[..k], rest[k..];
    }
  }

  /** At most one byte more than a limit of one of these turns. */
  ghost predicate InForce(n: nat, limits: nat -> nat, first: nat, last: nat) {
    exists t :: first <= t <= last && n <= limits(t) + 1
  }

  lemma StillInForce(peak: nat, high: nat, limits: nat -> nat, first: nat, last: nat, held: nat)
    requires first <= last && held <= peak && (high == held || InForce(high, limits, first, last))
    ensures InForce(peak, limits, 0, first) ==> InForce(peak, limits, 0, last)
    ensures high > peak ==> InForce(high, limits, 0, last)
  {
  }

  class Framer {
    var buffer: seq<byte>
    const stdout: Pipe

    constructor (stdout: Pipe)
      ensures this.stdout == stdout && buffer == []
    {
      this.stdout, buffer := stdout, [];
    }

    /** Everything received and not yet returned, plus everything still to come. */
    ghost function Unread(): (result: seq<byte>)
      reads this, stdout
    {
      buffer + stdout.rest
    }

    /** `_read_message` up to JSON decoding. The limit is read anew in every turn of the loop, because the
        active request may change it while the call waits for bytes; `turn` is the turn that decided and
        `peak` the most bytes the buffer ever held during the call. */
    method ReadMessage(limits: nat -> nat, first: nat) returns (r: Read, turn: nat, ghost peak: nat)
      requires forall t :: limits(t) >= 1
      modifies this`buffer, stdout
      ensures turn >= first && r == FirstFrame(old(Unread()), limits(turn))
      ensures Unread() == if r.Frame? then old(Unread())[|r.raw| + 1..] else old(Unread())
      ensures |buffer| <= peak && (peak == old(|buffer|) || InForce(peak, limits, first, turn))
    {
      ghost var stream := Unread();
      turn, peak := first, |buffer|;
      while true
        invariant turn >= first && Unread() == stream
        invariant |buffer| <= peak && (peak == old(|buffer|) || InForce(peak, limits, first, turn))
        decreases |stdout.rest|
      {
        var limit := limits(turn);
        Decide(buffer, stdout.rest, limit);
        hide Find, FirstFrame;
        var newline := Find(buffer);
        if newline < |buffer| {
          if newline > limit { return TooLong, turn, peak; }
          r := Frame(buffer[..newline]);
          buffer := buffer[newline + 1..];
          return;
        }
        if |buffer| > limit { return TooLong, turn, peak; }
        var room := limit + 1 - |buffer|;
        var chunk := stdout.Read(if room < READ_SIZE then room else READ_SIZE);
        if chunk == [] { return Closed, turn, peak; }
        buffer := buffer + chunk;
        peak := if |buffer| > peak then |buffer| else peak;
        turn := turn + 1;
      }
    }

    /** The response pump: read until a message cannot be read. The frames and what is left make up the
        stream, each frame fits a limit in force while it was read, and a limit that never changes
        gives exactly the frames and the tail of the stream. `peak`, the most bytes the buffer ever held,
        is what it began with or at most one byte more than a limit in force. */
    method ReadAll(limits: nat -> nat) returns (frames: seq<seq<byte>>, end: Read, turn: nat, ghost peak: nat)
      requires forall t :: limits(t) >= 1
      modifies this`buffer, stdout
      ensures Framed(frames) + Unread() == old(Unread())
      ensures forall i :: 0 <= i < |frames| ==> FitsSome(frames[i], limits)
      ensures end == FirstFrame(Unread(), limits(turn)) && !end.Frame?
      ensures |buffer| <= peak && (peak == old(|buffer|) || InForce(peak, limits, 0, turn))
      ensures Fixed(limits) ==>
                frames == Frames(old(Unread()), limits(0)) && Unread() == Tail(old(Unread()), limits(0))
    {
      hide FirstFrame, ReadSoFar, InForce, Frames, Tail, Framed, FitsSome;
      ghost var stream := Unread();
      frames, turn, peak := [], 0, |buffer|;
      NothingRead(stream, limits);
      while true
        invariant ReadSoFar(stream, frames, Unread(), limits)
        invariant |buffer| <= peak && (peak == old(|buffer|) || InForce(peak, limits, 0, turn))
        decreases |Unread()|
      {
        ghost var before, first, held := Unread(), turn, |buffer|;
        ghost var high;
        end, turn, high := ReadMessage(limits, turn);
        StillInForce(peak, high, limits, first, turn, held);
        if high > peak { peak := high; }
        if !end.Frame? {
          NoMoreFrames(stream, frames, before, limits, turn);
          return;
        }
        OneMoreFrame(stream, frames, before, limits, turn);
        frames := frames + [end.raw];
      }
    }
  }

  /** These frames have been read from the stream and `rest` has not. */
  ghost predicate ReadSoFar(stream: seq<byte>, frames: seq<seq<byte>>, rest: seq<byte>, limits: nat -> nat) {
    && Framed(frames) + rest == stream
    && (forall i :: 0 <= i < |frames| ==> FitsSome(frames[i], limits))
    && (Fixed(limits) ==>
          Frames(stream, limits(0)) == frames + Frames(rest, limits(0)) && Tail(stream, limits(0)) == Tail(rest, limits(0)))
  }

  ghost predicate Fixed(limits: nat -> nat) {
    forall t :: limits(t) == limits(0)
  }

  lemma NothingRead(stream: seq<byte>, limits: nat -> nat)
    ensures ReadSoFar(stream, [], stream, limits)
  {
    hide Frames, Tail;
    assert [] + stream == stream && [] + Frames(stream, limits(0)) == Frames(stream, limits(0));
  }

  lemma NoMoreFrames(stream: seq<byte>, frames: seq<seq<byte>>, rest: seq<byte>, limits: nat -> nat, turn: nat)
    requires ReadSoFar(stream, frames, rest, limits) && !FirstFrame(rest, limits(turn)).Frame?
    ensures Framed(frames) + rest == stream && forall i :: 0 <= i < |frames| ==> FitsSome(frames[i], limits)
    ensures Fixed(limits) ==> frames == Frames(stream, limits(0)) && rest == Tail(stream, limits(0))
  {
    hide FirstFrame, Framed, FitsSome;
    if Fixed(limits) { NextFrame(rest, frames, limits(0)); }
  }

  lemma OneMoreFrame(stream: seq<byte>, frames: seq<seq<byte>>, rest: seq<byte>, limits: nat -> nat, turn: nat)
    requires ReadSoFar(stream, frames, rest, limits) && FirstFrame(rest, limits(turn)).Frame?
    ensures var raw := FirstFrame(rest, limits(turn)).raw;
            |raw| < |rest| && ReadSoFar(stream, frames + [raw], rest[|raw| + 1..], limits)
  {
    hide FirstFrame, Framed, FitsSome, Frames, Tail;
    SplitFrame(frames, rest, limits, turn);
    if Fixed(limits) { NextFrame(rest, frames, limits(0)); }
  }

  lemma SplitFrame(frames: seq<seq<byte>>, stream: seq<byte>, limits: nat -> nat, turn: nat)
    requires FirstFrame(stream, limits(turn)).Frame?
    ensures var raw := FirstFrame(stream, limits(turn)).raw;
            |raw| < |stream| && FitsSome(raw, limits) && Framed(frames + [raw]) + stream[|raw| + 1..] == Framed(frames) + stream
  {
    var raw := FirstFrame(stream, limits(turn)).raw;
    FrameSplits(stream, limits(turn));
    hide FirstFrame, Framed, Writable;
    FramedSnoc(frames, raw);
    AppendFrame(Framed(frames), raw, stream[|raw| + 1..]);
  }

  lemma AppendFrame(a: seq<byte>, raw: seq<byte>, rest: seq<byte>)
    ensures (a + raw + [LF]) + rest == a + (raw + [LF] + rest)
  {
  }

  lemma NextFrame(stream: seq<byte>, frames: seq<seq<byte>>, limit: nat)
    ensures var first := FirstFrame(stream, limit);
            if first.Frame? then
              && |first.raw| < |stream|
              && var rest := stream[|first.raw| + 1..];
                 frames + Frames(stream, limit) == (frames + [first.raw]) + Frames(rest, limit) && Tail(stream, limit) == Tail(rest, limit)
            else frames + Frames(stream, limit) == frames && Tail(stream, limit) == stream
  {
    var first := FirstFrame(stream, limit);
    if first.Frame? { Regroup(frames, first.raw, Frames(Behind(stream, limit), limit)); }
  }

  lemma Regroup(a: seq<seq<byte>>, x: seq<byte>, b: seq<seq<byte>>)
    ensures a + ([x] + b) == (a + [x]) + b
  {
  }

  // ------------------------------------------------------------- the writer

  predicate Writable(message: seq<byte>, limit: nat) {
    LF !in message && |message| <= limit
  }

  ghost predicate FitsSome(frame: seq<byte>, limits: nat -> nat) {
    exists t :: Writable(frame, limits(t))
  }

  lemma {:induction false} FramedSnoc(frames: seq<seq<byte>>, last: seq<byte>)
    ensures Framed(frames + [last]) == Framed(frames) + last + [LF]
  {
    if frames == [] {
      assert frames + [last] == [last] && [last][1..] == [];
    } else {
      assert (frames + [last])[1..] == frames[1..] + [last];
      FramedSnoc(frames[1..], last);
      AppendFrame(frames[0] + [LF] + Framed(frames[1..]), last, []);
    }
  }

  class Writer {
    var stdin: seq<byte>
    ghost var accepted: seq<seq<byte>>

    ghost predicate Valid()
      reads this
    {
      stdin == Framed(accepted)
    }

    constructor ()
      ensures Valid() && accepted == []
    {
      stdin, accepted := [], [];
    }

    /** `_write_message` after encoding: one more line, or a refusal that leaves no trace. */
    method WriteMessage(encoded: seq<byte>, limit: nat) returns (ok: bool)
      requires Valid()
      modifies this
      ensures Valid()
      ensures ok <==> Writable(encoded, limit)
      ensures accepted == old(accepted) + if ok then [encoded] else []
    {
      ok := !(LF in encoded || |encoded| > limit);
      if ok {
        FramedSnoc(accepted, encoded);
        stdin := stdin + encoded + [LF];
        accepted := accepted + [encoded];
      }
    }
  }

  lemma FirstOfFramed(message: seq<byte>, rest: seq<byte>, limit: nat)
    requires Writable(message, limit)
    ensures FirstFrame(message + [LF] + rest, limit) == Frame(message)
    ensures Behind(message + [LF] + rest, limit) == rest
  {
    CutAtNewline(message, rest);
  }

  /** Reading undoes writing: whatever the chunks, the written messages come back in order,
      one frame each, and then the stream is closed. */
  lemma {:induction false} ReadingUndoesWriting(messages: seq<seq<byte>>, limit: nat)
    requires forall i :: 0 <= i < |messages| ==> Writable(messages[i], limit)
    ensures Frames(Framed(messages), limit) == messages && Tail(Framed(messages), limit) == []
  {
    hide FirstFrame, Behind, Frames, Tail, Writable;
    if messages == [] {
      NothingToRead(limit);
    } else {
      var rest := Framed(messages[1..]);
      assert Framed(messages) == messages[0] + [LF] + rest;
      hide Framed;
      ReadingUndoesWriting(messages[1..], limit);
      FirstOfFramed(messages[0], rest, limit);
      FirstThenRest(messages[0] + [LF] + rest, limit);
      assert messages == [messages[0]] + messages[1..];
    }
  }

  lemma NothingToRead(limit: nat)
    ensures Frames([], limit) == [] && Tail([], limit) == []
  {
    assert !FirstFrame([], limit).Frame?;
  }

  lemma FirstThenRest(stream: seq<byte>, limit: nat)
    requires FirstFrame(stream, limit).Frame?
    ensures Frames(stream, limit) == [FirstFrame(stream, limit).raw] + Frames(Behind(stream, limit), limit)
    ensures Tail(stream, limit) == Tail(Behind(stream, limit), limit)
  {
    hide FirstFrame, Behind;
  }

  lemma Associate(raw: seq<byte>, a: seq<byte>, b: seq<byte>)
    ensures raw + [LF] + (a + b) == (raw + [LF] + a) + b
  {
  }

  lemma FrameSplits(stream: seq<byte>, limit: nat)
    requires FirstFrame(stream, limit).Frame?
    ensures stream == FirstFrame(stream, limit).raw + [LF] + Behind(stream, limit)
    ensures Writable(FirstFrame(stream, limit).raw, limit)
  {
    var k := Find(stream);
    hide Find;
    assert stream[..k] + [stream[k]] + stream[k + 1..] == stream;
  }

  /** Nothing is lost or invented: frames with their newlines, then the tail, are the stream;
      no frame holds a newline or exceeds the limit. */
  lemma {:induction false} FramesCoverTheStream(stream: seq<byte>, limit: nat)
    ensures stream == Framed(Frames(stream, limit)) + Tail(stream, limit)
    ensures forall i :: 0 <= i < |Frames(stream, limit)| ==> Writable(Frames(stream, limit)[i], limit)
    decreases |stream|
  {
    if FirstFrame(stream, limit).Frame? {
      var raw, rest := FirstFrame(stream, limit).raw, Behind(stream, limit);
      FrameSplits(stream, limit);
      FirstThenRest(stream, limit);
      hide FirstFrame, Behind, Writable, Frames, Tail;
      FramesCoverTheStream(rest, limit);
      Associate(raw, Framed(Frames(rest, limit)), Tail(rest, limit));
      assert ([raw] + Frames(rest, limit))[1..] == Frames(rest, limit);
    }
  }
}
