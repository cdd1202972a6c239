/** Docker log streams into lines: the multiplexed frame format and the plain (TTY) one.
    Model of decodeMultiplexed and readLines in internal/source/docker/source.go. Lines are
    collected instead of sent to the output channel; the context is never cancelled. */
module Demux {
  import opened Common

  const CR: byte := 13
  const STDOUT: byte := 1
  const STDERR: byte := 2

  // ----------------------------------------------------------- lines of a text

  /** At most one trailing carriage return is removed. */
  function TrimCR(line: Str): Str {
    if line != [] && line[|line| - 1] == CR then line[..|line| - 1] else line
  }

  /** The newline-terminated lines of s, without their line ends. */
  function Terminated(s: Str): (lines: seq<Str>) {
    var i := IndexOf(s, LF);
    if i < 0 then [] else [TrimCR(s[..i])] + Terminated(s[i + 1..])
  }

  /** What follows the last newline. */
  function Remainder(s: Str): (r: Str)
    ensures LF !in r
  {
    var i := IndexOf(s, LF);
    if i < 0 then s else Remainder(s[i + 1..])
  }

  lemma FirstLine(head: Str, tail: Str)
    requires LF !in head
    ensures Terminated(head + [LF] + tail) == [TrimCR(head)] + Terminated(tail)
    ensures Remainder(head + [LF] + tail) == Remainder(tail)
  {
    IndexOfFirst(head, LF, tail);
    assert (head + [LF] + tail)[..|head|] == head && (head + [LF] + tail)[|head| + 1..] == tail;
  }

  /** Text of which `lines` are already out and `rest` is still to be split. */
  ghost predicate SplitSoFar(lines: seq<Str>, rest: Str, text: Str) {
    lines + Terminated(rest) == Terminated(text) && Remainder(rest) == Remainder(text)
  }

  lemma UnfoldText(s: Str)
    requires IndexOf(s, LF) >= 0
    ensures var i := IndexOf(s, LF);
            Terminated(s) == [TrimCR(s[..i])] + Terminated(s[i + 1..]) && Remainder(s) == Remainder(s[i + 1..])
  {
  }

  lemma SplitNext(lines: seq<Str>, rest: Str, text: Str)
    requires SplitSoFar(lines, rest, text) && IndexOf(rest, LF) >= 0
    ensures var i := IndexOf(rest, LF); SplitSoFar(lines + [TrimCR(rest[..i])], rest[i + 1..], text)
  {
    var i := IndexOf(rest, LF);
    UnfoldText(rest);
    Reassociate(lines, [TrimCR(rest[..i])], Terminated(rest[i + 1..]));
  }

  lemma SplitDone(lines: seq<Str>, rest: Str, text: Str)
    requires SplitSoFar(lines, rest, text) && IndexOf(rest, LF) < 0
    ensures lines == Terminated(text) && rest == Remainder(text)
  {
    assert Terminated(rest) == [] && lines + [] == lines;
  }

  /** More text only continues the unfinished line. */
  lemma {:induction false} TextContinues(a: Str, b: Str)
    ensures Terminated(a + b) == Terminated(a) + Terminated(Remainder(a) + b)
    ensures Remainder(a + b) == Remainder(Remainder(a) + b)
    decreases |a|
  {
    var i := IndexOf(a, LF);
    if i < 0 {
      assert Terminated(a) == [] && Remainder(a) == a;
    } else {
      var head, tail := a[..i], a[i + 1..];
      assert a == head + [LF] + tail && a + b == head + [LF] + (tail + b);
      FirstLine(head, tail);
      FirstLine(head, tail + b);
      TextContinues(tail, b);
      Reassociate([TrimCR(head)], Terminated(tail), Terminated(Remainder(tail) + b));
    }
  }

  /** Lines written with either line end, CR LF or LF alone. */
  function Written(lines: seq<Str>, crlf: seq<bool>): (text: Str)
    requires |crlf| == |lines|
  {
    if lines == [] then []
    else lines[0] + (if crlf[0] then [13, 10] else [10]) + Written(lines[1..], crlf[1..])
  }

  /** The line keeps a carriage return of its own, which only CR LF behind it protects. */
  predicate EndsInCR(line: Str) { line != [] && line[|line| - 1] == 13 }

  predicate Protected(lines: seq<Str>, crlf: seq<bool>)
    requires |crlf| == |lines|
  {
    forall i :: 0 <= i < |lines| ==> crlf[i] || !EndsInCR(lines[i])
  }

  lemma TrimmedIs(line: Str, crlf: bool)
    ensures TrimCR(if crlf then line + [13] else line) == line <==> crlf || !EndsInCR(line)
  {
    assert (line + [13])[..|line|] == line;
  }

  lemma FirstWritten(line: Str, crlf: bool, tail: Str)
    requires 10 !in line
    ensures var head, text := if crlf then line + [13] else line, line + (if crlf then [13, 10] else [10]) + tail;
            Terminated(text) == [TrimCR(head)] + Terminated(tail) && Remainder(text) == Remainder(tail)
  {
    var head := if crlf then line + [13] else line;
    assert line + (if crlf then [13, 10] else [10]) + tail == head + [LF] + tail;
    FirstLine(head, tail);
  }

  lemma SameLists(a: seq<Str>, b: seq<Str>, x: Str, y: Str)
    ensures [x] + a == [y] + b <==> x == y && a == b
  {
    assert ([x] + a)[0] == x && ([y] + b)[0] == y && ([x] + a)[1..] == a && ([y] + b)[1..] == b;
  }

  lemma ProtectedCons(lines: seq<Str>, crlf: seq<bool>)
    requires |crlf| == |lines| && lines != []
    ensures Protected(lines, crlf) <==> (crlf[0] || !EndsInCR(lines[0])) && Protected(lines[1..], crlf[1..])
  {
  }

  /** Written lines come back, and what follows them, whatever their line ends, if and only if
      none that ends in LF alone has a carriage return of its own before it. */
  lemma {:induction false} LinesComeBackIff(lines: seq<Str>, crlf: seq<bool>, rest: Str)
    requires |crlf| == |lines| && (forall i :: 0 <= i < |lines| ==> 10 !in lines[i]) && 10 !in rest
    ensures Remainder(Written(lines, crlf) + rest) == rest && |Terminated(Written(lines, crlf) + rest)| == |lines|
    ensures Terminated(Written(lines, crlf) + rest) == lines <==> Protected(lines, crlf)
  {
    if lines == [] {
      assert [] + rest == rest;
    } else {
      var line, tail := lines[0], Written(lines[1..], crlf[1..]) + rest;
      Reassociate(line + (if crlf[0] then [13, 10] else [10]), Written(lines[1..], crlf[1..]), rest);
      FirstWritten(line, crlf[0], tail);
      LinesComeBackIff(lines[1..], crlf[1..], rest);
      TrimmedIs(line, crlf[0]);
      ProtectedCons(lines, crlf);
      assert lines == [line] + lines[1..];
      SameLists(Terminated(tail), lines[1..], TrimCR(if crlf[0] then line + [13] else line), line);
    }
  }

  // ------------------------------------------------------------------- frames

  datatype Frame = Frame(stream: byte, payload: Str)

  function Length32(h: Str): (n: nat)
    requires |h| == 8
  {
    h[4] as int * 0x1000000 + h[5] as int * 0x10000 + h[6] as int * 0x100 + h[7] as int
  }

  /** The length is the number that the last four header bytes denote. */
  lemma LengthIsValue(h: Str)
    requires |h| == 8
    ensures Length32(h) == ValueOf(h[4..])
  {
    var v := h[4..];
    assert v == [h[4], h[5], h[6], h[7]];
    assert v[..3] == [h[4], h[5], h[6]] && v[..3][..2] == [h[4], h[5]] && v[..3][..2][..1] == [h[4]] && v[..3][..2][..1][..0] == [];
    assert ValueOf(v[..3][..2][..1]) == h[4] as nat;
    assert ValueOf(v[..3][..2]) == 256 * h[4] as nat + h[5] as nat;
  }

  /** The complete frames at the front of the input, and whether they are all of it. */
  function Frames(input: Str): (r: (seq<Frame>, bool)) {
    if input == [] then ([], true)
    else if |input| < 8 || |input| < 8 + Length32(input[..8]) then ([], false)
    else
      var n := Length32(input[..8]);
      var (rest, clean) := Frames(input[8 + n..]);
      ([Frame(input[0], input[8..8 + n])] + rest, clean)
  }

  function LengthBytes(n: nat): (r: Str)
    requires n < 0x1_0000_0000
    ensures |r| == 4
  {
    BigEndian32(n);
    [(n / 0x1000000) as byte, (n / 0x10000 % 0x100) as byte, (n / 0x100 % 0x100) as byte, (n % 0x100) as byte]
  }

  /** The frame format: stream byte, three unused bytes, big-endian length, payload. */
  function Encoded(f: Frame, unused: Str): (r: Str)
    requires |unused| == 3 && |f.payload| < 0x1_0000_0000
    ensures |r| == 8 + |f.payload|
  {
    [f.stream] + unused + LengthBytes(|f.payload|) + f.payload
  }

  /** Frames that can be written, with the unused bytes of each. */
  predicate Writable(fs: seq<Frame>, unused: seq<Str>) {
    |unused| == |fs| && forall i :: 0 <= i < |fs| ==> |fs[i].payload| < 0x1_0000_0000 && |unused[i]| == 3
  }

  function EncodedAll(fs: seq<Frame>, unused: seq<Str>): (r: Str)
    requires Writable(fs, unused)
  {
    if fs == [] then [] else Encoded(fs[0], unused[0]) + EncodedAll(fs[1..], unused[1..])
  }

  lemma BigEndian32(n: nat)
    requires n < 0x1_0000_0000
    ensures n / 0x1000000 < 0x100
    ensures n / 0x1000000 * 0x1000000 + n / 0x10000 % 0x100 * 0x10000 + n / 0x100 % 0x100 * 0x100 + n % 0x100 == n
  {
  }

  lemma LengthRoundTrip(f: Frame, unused: Str, tail: Str)
    requires |unused| == 3 && |f.payload| < 0x1_0000_0000
    ensures var r := Encoded(f, unused) + tail;
            Length32(r[..8]) == |f.payload| && r[0] == f.stream && r[8..8 + |f.payload|] == f.payload && r[8 + |f.payload|..] == tail
  {
    var n := |f.payload|;
    BigEndian32(n);
    var h := [f.stream] + unused + LengthBytes(n);
    assert Encoded(f, unused) + tail == h + (f.payload + tail);
    assert (h + (f.payload + tail))[..8] == h;
    assert (h + (f.payload + tail))[8..] == f.payload + tail;
    assert h[4] == LengthBytes(n)[0] && h[5] == LengthBytes(n)[1] && h[6] == LengthBytes(n)[2] && h[7] == LengthBytes(n)[3];
  }

  /** Any sequence of frames, whatever their unused bytes, is read back as it was written. */
  lemma {:induction false} FramesRoundTrip(fs: seq<Frame>, unused: seq<Str>)
    requires Writable(fs, unused)
    ensures Frames(EncodedAll(fs, unused)) == (fs, true)
  {
    if fs != [] {
      FramesRoundTrip(fs[1..], unused[1..]);
      LengthRoundTrip(fs[0], unused[0], EncodedAll(fs[1..], unused[1..]));
      assert fs == [fs[0]] + fs[1..];
    }
  }

  /** Everything written to one stream. */
  function Content(fs: seq<Frame>, stream: byte): (r: Str) {
    if fs == [] then []
    else Content(fs[..|fs| - 1], stream) + (if fs[|fs| - 1].stream == stream then fs[|fs| - 1].payload else [])
  }

  // ------------------------------------------------------------ multiplexed

  datatype Line = Line(stream: byte, text: Str)

  /** The lines of one stream, in order. */
  function Of(lines: seq<Line>, stream: byte): (r: seq<Str>) {
    if lines == [] then []
    else Of(lines[..|lines| - 1], stream) + (if lines[|lines| - 1].stream == stream then [lines[|lines| - 1].text] else [])
  }

  lemma OfAppend(lines: seq<Line>, l: Line, stream: byte)
    ensures Of(lines + [l], stream) == Of(lines, stream) + (if l.stream == stream then [l.text] else [])
  {
    assert (lines + [l])[..|lines|] == lines;
  }

  function Rest(rest: Str): (r: seq<Str>) { if rest != [] then [rest] else [] }

  /** What a stream must yield: its terminated lines and, at a clean end of input, the
      unfinished rest as it is. */
  function Expected(content: Str, clean: bool): (lines: seq<Str>) {
    Terminated(content) + (if clean then Rest(Remainder(content)) else [])
  }

  /** One line more on its own stream, no change on the others. */
  method Emit(stream: byte, text: Str, out0: seq<Line>) returns (out: seq<Line>)
    ensures out0 <= out
    ensures forall k :: Of(out, k) == if k == stream then Of(out0, k) + [text] else Of(out0, k)
  {
    out := out0 + [Line(stream, text)];
    forall k { OfAppend(out0, Line(stream, text), k); }
  }

  /** The lines are added on their own stream and nothing changes on the others. */
  ghost predicate Added(out0: seq<Line>, out: seq<Line>, stream: byte, lines: seq<Str>) {
    forall k :: Of(out, k) == if k == stream then Of(out0, k) + lines else Of(out0, k)
  }

  lemma NothingAdded(out: seq<Line>, stream: byte)
    ensures Added(out, out, stream, [])
  {
    assert Of(out, stream) + [] == Of(out, stream);
  }

  lemma OneAdded(out0: seq<Line>, out: seq<Line>, stream: byte, lines: seq<Str>, line: Str)
    requires Added(out0, out, stream, lines)
    ensures Added(out0, out + [Line(stream, line)], stream, lines + [line])
  {
    forall k ensures Of(out + [Line(stream, line)], k) == if k == stream then Of(out0, k) + (lines + [line]) else Of(out0, k) {
      OfAppend(out, Line(stream, line), k);
      Reassociate(Of(out0, stream), lines, [line]);
    }
  }

  /** The lines, each with its stream. */
  function Tagged(stream: byte, lines: seq<Str>): (r: seq<Line>)
    ensures |r| == |lines|
  {
    seq(|lines|, i requires 0 <= i < |lines| => Line(stream, lines[i]))
  }

  lemma TaggedAppend(out0: seq<Line>, stream: byte, lines: seq<Str>, line: Str)
    ensures out0 + Tagged(stream, lines) + [Line(stream, line)] == out0 + Tagged(stream, lines + [line])
  {
    assert Tagged(stream, lines + [line]) == Tagged(stream, lines) + [Line(stream, line)];
  }

  /** The lines of both streams in the order in which frames complete them: each frame those
      that it completes of its own stream. */
  function Arrival(read: seq<Frame>): (lines: seq<Line>) {
    if read == [] then []
    else
      var init, f := read[..|read| - 1], read[|read| - 1];
      Arrival(init) + (if f.stream == 1 || f.stream == 2
                       then Tagged(f.stream, Terminated(Remainder(Content(init, f.stream)) + f.payload)) else [])
  }

  /** Takes every complete line off the buffer. */
  method TakeLines(stream: byte, buffer: Str, out0: seq<Line>) returns (rest: Str, out: seq<Line>)
    ensures rest == Remainder(buffer)
    ensures out == out0 + Tagged(stream, Terminated(buffer))
    ensures Of(out, stream) == Of(out0, stream) + Terminated(buffer)
    ensures forall k :: k != stream ==> Of(out, k) == Of(out0, k)
  {
    rest, out := buffer, out0;
    ghost var lines: seq<Str> := [];
    assert [] + Terminated(buffer) == Terminated(buffer);
    NothingAdded(out0, stream);
    assert out0 + Tagged(stream, []) == out0;
    while IndexOf(rest, LF) >= 0
      invariant SplitSoFar(lines, rest, buffer) && Added(out0, out, stream, lines) && out == out0 + Tagged(stream, lines)
      decreases |rest|
    {
      var index := IndexOf(rest, LF);
      var line := TrimCR(rest[..index]);
      SplitNext(lines, rest, buffer);
      OneAdded(out0, out, stream, lines, line);
      TaggedAppend(out0, stream, lines, line);
      out := out + [Line(stream, line)];
      rest, lines := rest[index + 1..], lines + [line];
    }
    SplitDone(lines, rest, buffer);
  }

  /** A stream's unfinished rest is buffered and its finished lines are out. */
  ghost predicate Tracks(rest: Str, lines: seq<Str>, content: Str) {
    rest == Remainder(content) && lines == Terminated(content)
  }

  lemma TracksMore(rest: Str, lines: seq<Str>, content: Str, payload: Str)
    requires Tracks(rest, lines, content)
    ensures Tracks(Remainder(rest + payload), lines + Terminated(rest + payload), content + payload)
  {
    TextContinues(content, payload);
  }

  /** After the frames in `read`, both streams are tracked and nothing else is out. */
  ghost predicate UpToDate(buffers: map<byte, Str>, out: seq<Line>, read: seq<Frame>) {
    && buffers.Keys == {STDOUT, STDERR}
    && (forall k :: k in buffers ==> Tracks(buffers[k], Of(out, k), Content(read, k)))
    && (forall k :: k !in buffers ==> Of(out, k) == [])
  }

  lemma ContentAppend(read: seq<Frame>, f: Frame, k: byte)
    ensures Content(read + [f], k) == if f.stream == k then Content(read, k) + f.payload else Content(read, k)
  {
    assert (read + [f])[..|read|] == read;
    assert Content(read, k) + [] == Content(read, k);
  }

  lemma ArrivalAppend(read: seq<Frame>, f: Frame)
    ensures f.stream == STDOUT || f.stream == STDERR ==>
              Arrival(read + [f]) == Arrival(read) + Tagged(f.stream, Terminated(Remainder(Content(read, f.stream)) + f.payload))
    ensures f.stream != STDOUT && f.stream != STDERR ==> Arrival(read + [f]) == Arrival(read)
  {
    assert (read + [f])[..|read|] == read;
    assert Arrival(read) + [] == Arrival(read);
  }

  /** A frame of some other stream changes nothing. */
  lemma FrameIgnored(buffers: map<byte, Str>, out: seq<Line>, read: seq<Frame>, f: Frame)
    requires UpToDate(buffers, out, read) && f.stream != STDOUT && f.stream != STDERR
    ensures UpToDate(buffers, out, read + [f])
  {
    ContentAppend(read, f, STDOUT);
    ContentAppend(read, f, STDERR);
  }

  /** The frame continues its own stream, and only that. */
  lemma FrameTaken(buffers: map<byte, Str>, out0: seq<Line>, out: seq<Line>, read: seq<Frame>, f: Frame)
    requires UpToDate(buffers, out0, read) && (f.stream == STDOUT || f.stream == STDERR)
    requires Of(out, f.stream) == Of(out0, f.stream) + Terminated(buffers[f.stream] + f.payload)
    requires forall k :: k != f.stream ==> Of(out, k) == Of(out0, k)
    ensures UpToDate(buffers[f.stream := Remainder(buffers[f.stream] + f.payload)], out, read + [f])
  {
    var rest := Remainder(buffers[f.stream] + f.payload);
    assert Tracks(rest, Of(out, f.stream), Content(read + [f], f.stream)) by {
      ContentAppend(read, f, f.stream);
      TracksMore(buffers[f.stream], Of(out0, f.stream), Content(read, f.stream), f.payload);
    }
    forall k | k in buffers && k != f.stream ensures Tracks(buffers[k], Of(out, k), Content(read + [f], k)) {
      ContentAppend(read, f, k);
    }
    NextBuffers(buffers, out, read + [f], f.stream, rest);
  }

  lemma NextBuffers(buffers: map<byte, Str>, out: seq<Line>, read: seq<Frame>, stream: byte, rest: Str)
    requires buffers.Keys == {STDOUT, STDERR} && stream in buffers && Tracks(rest, Of(out, stream), Content(read, stream))
    requires forall k :: k in buffers && k != stream ==> Tracks(buffers[k], Of(out, k), Content(read, k))
    requires forall k :: k !in buffers ==> Of(out, k) == []
    ensures UpToDate(buffers[stream := rest], out, read)
  {
    assert buffers[stream := rest].Keys == buffers.Keys;
  }

  method TakeFrame(frame: Frame, buffers0: map<byte, Str>, out0: seq<Line>, ghost read: seq<Frame>)
    returns (buffers: map<byte, Str>, out: seq<Line>)
    requires UpToDate(buffers0, out0, read) && out0 == Arrival(read)
    ensures UpToDate(buffers, out, read + [frame]) && out == Arrival(read + [frame])
  {
    buffers, out := buffers0, out0;
    var stream := frame.stream;
    if stream != STDOUT && stream != STDERR {
      FrameIgnored(buffers, out, read, frame);
      ArrivalAppend(read, frame);
      return;
    }
    var buffer := buffers0[stream];
    var rest;
    rest, out := TakeLines(stream, buffer + frame.payload, out0);
    buffers := buffers0[stream := rest];
    ArrivalAppend(read, frame);
    FrameTaken(buffers0, out0, out, read, frame);
  }

  /** The frames up to `position` are `read`; the rest of the input is still to come. */
  ghost predicate ReadSoFar(input: Str, position: nat, read: seq<Frame>) {
    position <= |input| && Frames(input) == (read + Frames(input[position..]).0, Frames(input[position..]).1)
  }

  predicate FrameAt(input: Str, position: nat) {
    position + 8 <= |input| && position + 8 + Length32(input[position..position + 8]) <= |input|
  }

  lemma FramesUnfold(input: Str, position: nat, n: nat)
    requires FrameAt(input, position) && n == Length32(input[position..position + 8])
    ensures var rest := Frames(input[position + 8 + n..]);
            Frames(input[position..]) == ([Frame(input[position], input[position + 8..position + 8 + n])] + rest.0, rest.1)
  {
    var s := input[position..];
    SliceOfTail(input, position, 0, 8);
    SliceOfTail(input, position, 8, 8 + n);
    assert s[0..8] == s[..8] && s[0] == input[position];
  }

  lemma ReadMore(input: Str, position: nat, read: seq<Frame>, n: nat)
    requires ReadSoFar(input, position, read) && FrameAt(input, position) && n == Length32(input[position..position + 8])
    ensures ReadSoFar(input, position + 8 + n, read + [Frame(input[position], input[position + 8..position + 8 + n])])
  {
    FramesUnfold(input, position, n);
    Reassociate(read, [Frame(input[position], input[position + 8..position + 8 + n])], Frames(input[position + 8 + n..]).0);
  }

  lemma ReadAll(input: Str, position: nat, read: seq<Frame>)
    requires ReadSoFar(input, position, read) && !FrameAt(input, position)
    ensures Frames(input) == (read, position == |input|)
  {
    var s := input[position..];
    if |s| >= 8 {
      assert s[..8] == input[position..position + 8];
    }
    assert read + [] == read;
  }

  lemma NothingRead(input: Str)
    ensures ReadSoFar(input, 0, []) && UpToDate(map[STDOUT := [], STDERR := []], [], [])
  {
    assert input[0..] == input && [] + Frames(input).0 == Frames(input).0;
  }

  method ReadFrame(input: Str, position: nat, ghost read: seq<Frame>) returns (frame: Frame, next: nat)
    requires ReadSoFar(input, position, read) && FrameAt(input, position)
    ensures position < next <= |input| && ReadSoFar(input, next, read + [frame])
  {
    var n := Length32(input[position..position + 8]);
    frame := Frame(input[position], input[position + 8..position + 8 + n]);
    next := position + 8 + n;
    ReadMore(input, position, read, n);
  }

  /** The reading loop, up to the end of the input or a frame cut short. */
  method ReadFrames(input: Str) returns (buffers: map<byte, Str>, out: seq<Line>, ok: bool)
    ensures UpToDate(buffers, out, Frames(input).0) && out == Arrival(Frames(input).0) && ok == Frames(input).1
  {
    out, buffers := [], map[STDOUT := [], STDERR := []];
    var position := 0;
    ghost var read: seq<Frame> := [];
    NothingRead(input);
    while FrameAt(input, position)
      invariant 0 <= position <= |input|
      invariant ReadSoFar(input, position, read)
      invariant UpToDate(buffers, out, read) && out == Arrival(read)
      decreases |input| - position
    {
      var frame, next := ReadFrame(input, position, read);
      buffers, out := TakeFrame(frame, buffers, out, read);
      position := next;
      read := read + [frame];
    }
    ReadAll(input, position, read);
    ok := position == |input|;
  }

  /** For every input: each of the two streams yields exactly what its own content demands,
      whatever the framing and whatever the other stream carries; frames of any other stream
      have no effect. Lines come in the order in which frames complete them, the unfinished
      rests last. The order in which the two unfinished rests are flushed is left open,
      as Go's map iteration leaves it. */
  method DecodeMultiplexed(input: Str) returns (out: seq<Line>, ok: bool)
    ensures ok == Frames(input).1
    ensures Of(out, STDOUT) == Expected(Content(Frames(input).0, STDOUT), ok)
    ensures Of(out, STDERR) == Expected(Content(Frames(input).0, STDERR), ok)
    ensures forall k :: k != STDOUT && k != STDERR ==> Of(out, k) == []
    ensures Arrival(Frames(input).0) <= out && (!ok ==> out == Arrival(Frames(input).0))
  {
    var buffers;
    buffers, out, ok := ReadFrames(input);
    ghost var read := out;
    if ok {
      out := FlushRests(buffers, out);
    }
    TrackedIsExpected(buffers[STDOUT], Of(read, STDOUT), Content(Frames(input).0, STDOUT));
    TrackedIsExpected(buffers[STDERR], Of(read, STDERR), Content(Frames(input).0, STDERR));
  }

  lemma TrackedIsExpected(rest: Str, lines: seq<Str>, content: Str)
    requires Tracks(rest, lines, content)
    ensures Expected(content, true) == lines + Rest(rest)
    ensures Expected(content, false) == lines
  {
    assert lines + [] == lines;
  }

  method FlushRests(buffers: map<byte, Str>, out0: seq<Line>) returns (out: seq<Line>)
    ensures forall k :: k in buffers ==> Of(out, k) == Of(out0, k) + Rest(buffers[k])
    ensures forall k :: k !in buffers ==> Of(out, k) == Of(out0, k)
    ensures out0 <= out
  {
    out := out0;
    var keys := buffers.Keys;
    while keys != {}
      invariant keys <= buffers.Keys && out0 <= out
      invariant forall k :: k in buffers && k !in keys ==> Of(out, k) == Of(out0, k) + Rest(buffers[k])
      invariant forall k :: k !in buffers || k in keys ==> Of(out, k) == Of(out0, k)
      decreases |keys|
    {
      var stream :| stream in keys;
      keys := keys - {stream};
      if buffers[stream] != [] {
        out := Emit(stream, buffers[stream], out);
      }
    }
  }

  /** Independence from framing: whatever two sequences of frames are decoded, however they are
      cut and interleaved, and whatever their unused bytes, the outputs agree on every stream
      on which the frames carry the same content, and are the lines of that content. */
  method FramingDoesNotMatter(fs: seq<Frame>, gs: seq<Frame>, u: seq<Str>, v: seq<Str>) returns (a: seq<Line>, b: seq<Line>)
    requires Writable(fs, u) && Writable(gs, v)
    ensures forall k :: Content(fs, k) == Content(gs, k) ==> Of(a, k) == Of(b, k)
    ensures forall k :: k == STDOUT || k == STDERR ==> Of(a, k) == Expected(Content(fs, k), true)
  {
    FramesRoundTrip(fs, u);
    FramesRoundTrip(gs, v);
    var clean;
    a, clean := DecodeMultiplexed(EncodedAll(fs, u));
    b, clean := DecodeMultiplexed(EncodedAll(gs, v));
  }

  // ------------------------------------------------------------------- plain

  /** readLines: also the unfinished rest loses a trailing carriage return. */
  method ReadLines(input: Str) returns (lines: seq<Str>)
    ensures lines == Terminated(input) + (if Remainder(input) != [] then [TrimCR(Remainder(input))] else [])
  {
    lines := [];
    var rest := input;
    assert [] + Terminated(input) == Terminated(input);
    while IndexOf(rest, LF) >= 0
      invariant SplitSoFar(lines, rest, input)
      decreases |rest|
    {
      var index := IndexOf(rest, LF);
      SplitNext(lines, rest, input);
      lines := lines + [TrimCR(rest[..index])];
      rest := rest[index + 1..];
    }
    SplitDone(lines, rest, input);
    if rest != [] {
      lines := lines + [TrimCR(rest)];
    }
  }

  /** The two decoders agree on a text exactly when its unfinished rest does not end in a
      carriage return. */
  lemma DecodersAgreeIff(s: Str)
    ensures Expected(s, true) == Terminated(s) + (if Remainder(s) != [] then [TrimCR(Remainder(s))] else [])
       <==> (Remainder(s) == [] || Remainder(s)[|Remainder(s)| - 1] != CR)
  {
    var r := Remainder(s);
    if r != [] {
      assert (Terminated(s) + [r])[|Terminated(s)|] == r;
      assert (Terminated(s) + [TrimCR(r)])[|Terminated(s)|] == TrimCR(r);
    }
  }
}
