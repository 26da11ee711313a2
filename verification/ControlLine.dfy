/** The bounded line protocol between coordinator and guardian, read from an arbitrarily chunked stream. */
module ControlLine {
  import opened Prelude
  import opened Sequences

  newtype Byte = b: int | 0 <= b < 256
  const NEWLINE: Byte := 10
  const CONTROL_LINE_LIMIT := 128

  datatype Line = Text(bytes: seq<Byte>) | Eof
  datatype LineError = TooLong | NotUtf8 | Incomplete | ReadFailed

  function FirstNewline(s: seq<Byte>): (p: nat)
    ensures p <= |s| && (p < |s| ==> s[p] == NEWLINE)
    ensures forall i :: 0 <= i < p ==> s[i] != NEWLINE
  {
    if s == [] then 0 else if s[0] == NEWLINE then 0 else 1 + FirstNewline(s[1..])
  }

  predicate Plain(s: seq<Byte>) {
    NEWLINE !in s
  }

  /** What one read yields, as a function of the whole remaining stream and of how it ends. */
  function LineOf(s: seq<Byte>, fails: bool, isUtf8: seq<Byte> -> bool): Result<Line, LineError> {
    var p := FirstNewline(s);
    if p > CONTROL_LINE_LIMIT then Err(TooLong)
    else if p < |s| then (if isUtf8(s[..p]) then Ok(Text(s[..p])) else Err(NotUtf8))
    else if fails then Err(ReadFailed)
    else if s == [] then Ok(Eof)
    else Err(Incomplete)
  }

  /** A buffered reader over a stream delivered in pieces, ending in close or in failure. */
  class BufReader {
    var chunks: seq<seq<Byte>>
    const fails: bool

    ghost predicate Valid()
      reads this
    {
      forall i :: 0 <= i < |chunks| ==> chunks[i] != []
    }

    ghost function Stream(): seq<Byte>
      reads this
    {
      Concat(chunks)
    }

    constructor (chunks: seq<seq<Byte>>, fails: bool)
      requires forall i :: 0 <= i < |chunks| ==> chunks[i] != []
      ensures Valid() && this.chunks == chunks && this.fails == fails
    {
      this.chunks := chunks;
      this.fails := fails;
    }

    /** The bytes at hand; empty only at the end of a stream that closes. */
    method FillBuf() returns (r: Result<seq<Byte>, LineError>)
      requires Valid()
      ensures if chunks != [] then r == Ok(chunks[0])
              else if fails then r == Err(ReadFailed)
              else r == Ok([])
    {
      if chunks != [] {
        return Ok(chunks[0]);
      }
      return if fails then Err(ReadFailed) else Ok([]);
    }

    method Consume(n: nat)
      requires Valid() && chunks != [] && n <= |chunks[0]|
      modifies this
      ensures Valid() && Stream() == old(Stream())[n..]
      ensures n == |old(chunks)[0]| ==> chunks == old(chunks)[1..]
    {
      ConcatFirst(chunks);
      if n == |chunks[0]| {
        chunks := chunks[1..];
      } else {
        chunks := [chunks[0][n..]] + chunks[1..];
        ConcatFirst(chunks);
      }
    }
  }

  ghost function Concat(chunks: seq<seq<Byte>>): seq<Byte> {
    if chunks == [] then [] else chunks[0] + Concat(chunks[1..])
  }

  lemma NothingLeft(bytes: seq<Byte>, chunks: seq<seq<Byte>>)
    requires chunks == []
    ensures bytes + Concat(chunks) == bytes
  {
  }

  /** A piece without a newline moves from the stream to the bytes read. */
  lemma PieceRead(bytes: seq<Byte>, buffer: seq<Byte>, rest: seq<Byte>)
    requires Plain(bytes) && FirstNewline(buffer) == |buffer|
    ensures Plain(bytes + buffer) && bytes + (buffer + rest) == (bytes + buffer) + rest
    ensures (buffer + rest)[|buffer|..] == rest
  {
    hide FirstNewline, Plain;
    PlainUpTo(bytes, buffer);
    assert buffer[..|buffer|] == buffer;
    Associate(bytes, buffer, rest);
  }

  lemma ConcatFirst(chunks: seq<seq<Byte>>)
    requires chunks != []
    ensures Concat(chunks) == chunks[0] + Concat(chunks[1..])
  {
  }

  // The three shapes of a stream's head: a line, a line already too long, and no line at all.

  lemma Regroup(a: seq<Byte>, b: seq<Byte>, c: seq<Byte>, d: seq<Byte>)
    ensures a + (b + c + d) == (a + b) + c + d && (a + b + c) + d == a + b + (c + d)
  {
  }

  lemma PlainUpTo(bytes: seq<Byte>, buffer: seq<Byte>)
    requires Plain(bytes)
    ensures Plain(bytes + buffer[..FirstNewline(buffer)])
  {
    assert forall i :: 0 <= i < FirstNewline(buffer) ==> buffer[..FirstNewline(buffer)][i] == buffer[i];
  }

  lemma DropSum(a: seq<Byte>, b: seq<Byte>, n: nat)
    requires n <= |b|
    ensures (a + b)[|a| + n..] == b[n..]
  {
  }

  lemma CutAtNewline(buffer: seq<Byte>, n: nat)
    requires n < |buffer| && buffer[n] == NEWLINE
    ensures buffer == buffer[..n] + [NEWLINE] + buffer[n + 1..]
  {
  }

  lemma LineFound(line: seq<Byte>, rest: seq<Byte>, fails: bool, isUtf8: seq<Byte> -> bool)
    requires Plain(line)
    ensures LineOf(line + [NEWLINE] + rest, fails, isUtf8)
            == if |line| > CONTROL_LINE_LIMIT then Err(TooLong)
               else if isUtf8(line) then Ok(Text(line)) else Err(NotUtf8)
  {
    var s := line + [NEWLINE] + rest;
    FirstNewlineIs(s, |line|);
    assert s[..|line|] == line;
  }

  /** The line ends inside the buffer just read. */
  lemma LineInBuffer(bytes: seq<Byte>, buffer: seq<Byte>, rest: seq<Byte>, fails: bool, isUtf8: seq<Byte> -> bool)
    requires Plain(bytes) && FirstNewline(buffer) < |buffer|
    ensures var line := bytes + buffer[..FirstNewline(buffer)];
            var whole := bytes + (buffer + rest);
            && LineOf(whole, fails, isUtf8)
               == (if |line| > CONTROL_LINE_LIMIT then Err(TooLong)
                   else if isUtf8(line) then Ok(Text(line)) else Err(NotUtf8))
            && whole[|line| + 1..] == (buffer + rest)[FirstNewline(buffer) + 1..]
  {
    hide LineOf, FirstNewline, Plain;
    var n := FirstNewline(buffer);
    var line, tail := bytes + buffer[..n], buffer[n + 1..];
    PlainUpTo(bytes, buffer);
    CutAtNewline(buffer, n);
    Associate(bytes, buffer, rest);
    Regroup(bytes, buffer[..n], [NEWLINE], tail);
    Regroup(line, [NEWLINE], tail, rest);
    LineFound(line, tail + rest, fails, isUtf8);
    DropSum(bytes, buffer + rest, n + 1);
  }

  lemma LineOver(head: seq<Byte>, rest: seq<Byte>, fails: bool, isUtf8: seq<Byte> -> bool)
    requires Plain(head) && |head| > CONTROL_LINE_LIMIT
    ensures LineOf(head + rest, fails, isUtf8) == Err(TooLong)
  {
    FirstNewlineAfter(head + rest, |head|);
  }

  lemma LineMissing(s: seq<Byte>, fails: bool, isUtf8: seq<Byte> -> bool)
    requires Plain(s) && |s| <= CONTROL_LINE_LIMIT
    ensures LineOf(s, fails, isUtf8)
            == if fails then Err(ReadFailed) else if s == [] then Ok(Eof) else Err(Incomplete)
  {
    FirstNewlineAfter(s, |s|);
  }

  lemma FirstNewlineIs(s: seq<Byte>, p: nat)
    requires p < |s| && s[p] == NEWLINE && Plain(s[..p])
    ensures FirstNewline(s) == p
  {
    hide FirstNewline;
    FirstNewlineAfter(s, p);
  }

  lemma FirstNewlineAfter(s: seq<Byte>, n: nat)
    requires n <= |s| && Plain(s[..n])
    ensures FirstNewline(s) >= n
  {
    hide FirstNewline;
    assert forall i :: 0 <= i < n ==> s[i] in s[..n];
  }

  /** The line that ends inside the buffer at hand, taken with its newline. */
  method TakeLine(reader: BufReader, bytes: seq<Byte>, newline: nat, isUtf8: seq<Byte> -> bool)
    returns (r: Result<Line, LineError>)
    requires reader.Valid() && reader.chunks != [] && Plain(bytes)
    requires newline == FirstNewline(reader.chunks[0]) < |reader.chunks[0]|
    modifies reader
    ensures reader.Valid()
    ensures r == LineOf(bytes + old(reader.Stream()), reader.fails, isUtf8)
    ensures r.Ok? ==> r.value.Text? && reader.Stream() == (bytes + old(reader.Stream()))[|r.value.bytes| + 1..]
  {
    hide LineOf, FirstNewline, Concat, Plain;
    var buffer := reader.chunks[0];
    var line := bytes + buffer[..newline];
    ConcatFirst(reader.chunks);
    LineInBuffer(bytes, buffer, Concat(reader.chunks[1..]), reader.fails, isUtf8);
    if |bytes| + newline > CONTROL_LINE_LIMIT {
      return Err(TooLong);
    }
    reader.Consume(newline + 1);
    return if isUtf8(line) then Ok(Text(line)) else Err(NotUtf8);
  }

  /** Reading depends only on the stream, never on how it was cut: the line before the first newline, one
      byte beyond it consumed, or the one error that stream deserves. */
  method ReadControlLine(reader: BufReader, isUtf8: seq<Byte> -> bool) returns (r: Result<Line, LineError>)
    requires reader.Valid()
    modifies reader
    ensures reader.Valid()
    ensures r == LineOf(old(reader.Stream()), reader.fails, isUtf8)
    ensures r.Ok? && r.value.Text? ==> reader.Stream() == old(reader.Stream())[|r.value.bytes| + 1..]
  {
    var bytes: seq<Byte> := [];
    ghost var whole := reader.Stream();
    assert Plain(bytes) && whole == bytes + whole;
    hide LineOf, FirstNewline, Concat, Plain;
    while true
      invariant reader.Valid()
      invariant whole == bytes + reader.Stream()
      invariant |bytes| <= CONTROL_LINE_LIMIT && Plain(bytes)
      decreases |reader.chunks|
    {
      var filled := reader.FillBuf();
      if filled.Err? || filled.value == [] {
        NothingLeft(bytes, reader.chunks);
        LineMissing(bytes, reader.fails, isUtf8);
        return if filled.Err? then Err(filled.error) else if bytes == [] then Ok(Eof) else Err(Incomplete);
      }
      var buffer := filled.value;
      var newline := FirstNewline(buffer);
      if newline < |buffer| {
        r := TakeLine(reader, bytes, newline, isUtf8);
        return;
      }
      ghost var rest := Concat(reader.chunks[1..]);
      ConcatFirst(reader.chunks);
      PieceRead(bytes, buffer, rest);
      if |bytes| + |buffer| > CONTROL_LINE_LIMIT {
        LineOver(bytes + buffer, rest, reader.fails, isUtf8);
        return Err(TooLong);
      }
      bytes := bytes + buffer;
      reader.Consume(|buffer|);
    }
  }

  // ---- framing --------------------------------------------------------------------------------

  predicate Sendable(line: seq<Byte>, isUtf8: seq<Byte> -> bool) {
    |line| <= CONTROL_LINE_LIMIT && Plain(line) && isUtf8(line)
  }

  /** Lines as the peer writes them, each with its newline. */
  function Frames(lines: seq<seq<Byte>>): seq<Byte> {
    if lines == [] then [] else lines[0] + [NEWLINE] + Frames(lines[1..])
  }

  /** The bound is exact: a line of 128 bytes is read, and 129 bytes without a newline are refused whatever follows. */
  lemma BoundIsExact(line: seq<Byte>, rest: seq<Byte>, fails: bool, isUtf8: seq<Byte> -> bool)
    requires 10 !in line
    ensures |line| == 128 && isUtf8(line) ==> LineOf(line + [10] + rest, fails, isUtf8) == Ok(Text(line))
    ensures |line| == 129 ==> LineOf(line + rest, fails, isUtf8) == Err(TooLong)
  {
    hide LineOf;
    LineFound(line, rest, fails, isUtf8);
    if |line| == 129 { LineOver(line, rest, fails, isUtf8); }
  }

  /** A peer's lines come back one by one, and a line cut short by its death is an error, not a line. */
  lemma FramesReadBack(lines: seq<seq<Byte>>, torn: seq<Byte>, isUtf8: seq<Byte> -> bool)
    requires forall i :: 0 <= i < |lines| ==> Sendable(lines[i], isUtf8)
    requires |torn| <= CONTROL_LINE_LIMIT && Plain(torn)
    ensures var s := Frames(lines) + torn;
            if lines != [] then LineOf(s, false, isUtf8) == Ok(Text(lines[0]))
                                && s == lines[0] + [NEWLINE] + (Frames(lines[1..]) + torn)
            else LineOf(s, false, isUtf8) == (if torn == [] then Ok(Eof) else Err(Incomplete))
  {
    hide LineOf, FirstNewline, Frames;
    FramesStep(lines);
    if lines != [] {
      Regroup(lines[0], [NEWLINE], Frames(lines[1..]), torn);
      LineFound(lines[0], Frames(lines[1..]) + torn, false, isUtf8);
    } else {
      assert Frames(lines) + torn == torn;
      LineMissing(torn, false, isUtf8);
    }
  }

  lemma FramesStep(lines: seq<seq<Byte>>)
    ensures Frames(lines) == if lines == [] then [] else lines[0] + [NEWLINE] + Frames(lines[1..])
  {
  }
}
