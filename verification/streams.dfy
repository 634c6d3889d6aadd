/** Model of the text-backed streams of source/monkey/stream.c. A stream is a character buffer of
    fixed length (the text may hold NUL characters: its length is given, not measured) and a position. */
module Streams {
  datatype Stream = Stream(text: seq<char>, position: nat) {
    /** The position never passes the end of the text. */
    predicate Valid() { position <= |text| }

    function Remaining(): nat requires Valid() { |text| - position }
  }

  /** What ReadStream leaves behind: the advanced stream, the bytes copied into the caller's buffer,
      and the returned count (-1 at end of stream). */
  datatype ReadResult = ReadResult(stream: Stream, bytes: seq<char>, count: int)

  /** What ReadStreamLine leaves behind: the advanced stream, the caller's (possibly grown) buffer,
      and the returned count (-1 at end of stream). */
  datatype LineResult = LineResult(stream: Stream, buffer: seq<char>, count: int)

  /** What WriteStream leaves behind: the stream with its overwritten text, and the returned count. */
  datatype WriteResult = WriteResult(stream: Stream, count: int)

  const InitialBufferSize: nat := 256

  function Min(a: nat, b: nat): nat { if a < b then a else b }

  /** StreamFromText: a stream over `text`, positioned at its start. */
  function FromText(text: seq<char>): (s: Stream)
    ensures s.Valid() && s.text == text && s.position == 0
  {
    Stream(text, 0)
  }

  /** ReadStream: at the end of the text, -1 and no change; otherwise copy as many bytes as fit in
      the caller's buffer (at most what remains), advance past them, and return their number. */
  function Read(s: Stream, bufferSize: nat): (r: ReadResult)
    requires s.Valid()
    ensures r.stream.Valid() && r.stream.text == s.text
    ensures r.count == -1 <==> s.position == |s.text|
    ensures r.count == -1 ==> r.stream == s && r.bytes == []
    ensures r.count != -1 ==> r.count == |r.bytes| == Min(bufferSize, s.Remaining())
    ensures s.position <= r.stream.position
    ensures s.text[s.position..r.stream.position] == r.bytes
  {
    if s.position == |s.text| then ReadResult(s, [], -1)
    else
      var n := Min(bufferSize, |s.text| - s.position);
      ReadResult(Stream(s.text, s.position + n), s.text[s.position..s.position + n], n)
  }

  /** The bytes obtained by calling ReadStream with a buffer of `bufferSize` until it reports the end. */
  function ReadChunks(s: Stream, bufferSize: nat): seq<char>
    requires s.Valid() && bufferSize > 0
    decreases s.Remaining()
  {
    var r := Read(s, bufferSize);
    if r.count == -1 then [] else r.bytes + ReadChunks(r.stream, bufferSize)
  }

  /** Reading chunk by chunk, whatever the buffer size, yields exactly the rest of the text. */
  lemma {:induction false} ReadChunksIsRest(s: Stream, bufferSize: nat)
    requires s.Valid() && bufferSize > 0
    ensures ReadChunks(s, bufferSize) == s.text[s.position..]
    decreases s.Remaining()
  {
    var r := Read(s, bufferSize);
    if r.count != -1 {
      ReadChunksIsRest(r.stream, bufferSize);
      assert s.text[s.position..] == s.text[s.position..r.stream.position] + s.text[r.stream.position..];
    }
  }

  /** The index of the first newline at or after `i`, or the end of the text when there is none. */
  function LineEnd(text: seq<char>, i: nat): (e: nat)
    requires i <= |text|
    ensures i <= e <= |text|
    ensures forall k | i <= k < e :: text[k] != '\n'
    ensures e < |text| ==> text[e] == '\n'
    decreases |text| - i
  {
    if i == |text| || text[i] == '\n' then i else LineEnd(text, i + 1)
  }

  /** ReadStreamLine: reads characters until a newline (consumed, not stored) or the end of the text.
      The buffer is allocated with 256 bytes when its size is 0 and doubled whenever it fills, and the
      line is NUL-terminated in it. -1 is returned only when the text was exhausted before any byte was read. */
  method ReadLine(s: Stream, buffer: seq<char>) returns (r: LineResult)
    requires s.Valid()
    ensures r.stream.Valid() && r.stream.text == s.text
    ensures r.count == -1 <==> s.position == |s.text|
    ensures r.count == -1 ==> r.stream == s
    ensures r.count != -1 ==>
      var e := LineEnd(s.text, s.position);
      && r.count == e - s.position
      && r.count < |r.buffer|
      && r.buffer[..r.count] == s.text[s.position..e]
      && r.buffer[r.count] == '\0'
      && r.stream.position == (if e < |s.text| then e + 1 else e)
    ensures |r.buffer| == (if |buffer| == 0 then InitialBufferSize else |buffer|) || |r.buffer| <= 2 * r.count
  {
    var buf := buffer;
    if |buf| == 0 {
      buf := seq(InitialBufferSize, _ => '\0');
    }
    var initialSize := |buf|;
    var i := s.position;
    var bytesRead := 0;
    while true
      invariant s.position <= i <= |s.text|
      invariant bytesRead == i - s.position < |buf|
      invariant buf[..bytesRead] == s.text[s.position..i]
      invariant forall k | s.position <= k < i :: s.text[k] != '\n'
      invariant |buf| == initialSize || |buf| <= 2 * bytesRead
      decreases |s.text| - i
    {
      if i == |s.text| {
        if bytesRead == 0 {
          return LineResult(s, buf, -1);
        }
        break;
      }
      var c := s.text[i];
      if c == '\n' {
        break;
      }
      var before := buf;
      buf := buf[bytesRead := c];
      assert buf[..bytesRead] == before[..bytesRead];
      assert buf[..bytesRead + 1] == buf[..bytesRead] + [c];
      assert s.text[s.position..i + 1] == s.text[s.position..i] + [c];
      bytesRead := bytesRead + 1;
      i := i + 1;
      if bytesRead == |buf| {
        buf := buf + seq(|buf|, _ => '\0');
      }
    }
    LineEndFirst(s.text, s.position, i);
    var position := if i < |s.text| then i + 1 else i;
    buf := buf[bytesRead := '\0'];
    r := LineResult(Stream(s.text, position), buf, bytesRead);
  }

  /** `LineEnd` is the first newline: any index before which there is none and which is a newline or the end is it. */
  lemma {:induction false} LineEndFirst(text: seq<char>, i: nat, e: nat)
    requires i <= e <= |text|
    requires forall k | i <= k < e :: text[k] != '\n'
    requires e == |text| || text[e] == '\n'
    ensures LineEnd(text, i) == e
    decreases e - i
  {
    if i < e {
      LineEndFirst(text, i + 1, e);
    }
  }

  /** WriteStream: copy as many bytes of `data` as fit before the end of the text over the text at
      the position and advance past them; -1 when nothing could be copied. */
  function Write(s: Stream, data: seq<char>): (r: WriteResult)
    requires s.Valid()
    ensures r.stream.Valid() && |r.stream.text| == |s.text|
    ensures r.count == -1 <==> (|data| == 0 || s.position == |s.text|)
    ensures r.count == -1 ==> r.stream == s
    ensures r.count != -1 ==>
      && r.count == Min(|data|, s.Remaining())
      && r.stream.position == s.position + r.count
      && r.stream.text[s.position..r.stream.position] == data[..r.count]
    ensures r.stream.text[..s.position] == s.text[..s.position]
    ensures r.stream.text[r.stream.position..] == s.text[r.stream.position..]
  {
    var n := Min(|data|, |s.text| - s.position);
    if n == 0 then WriteResult(s, -1)
    else
      var text := s.text[..s.position] + data[..n] + s.text[s.position + n..];
      assert text[s.position..s.position + n] == data[..n];
      WriteResult(Stream(text, s.position + n), n)
  }

  /** RewindStream: back to the start of the text, which is left unchanged. */
  function Rewind(s: Stream): (r: Stream)
    ensures r.Valid() && r.text == s.text && r.position == 0
  {
    Stream(s.text, 0)
  }

  /** After a rewind, a read with a buffer at least as large as the text yields the whole text again. */
  lemma RewindRereads(s: Stream, bufferSize: nat)
    requires s.Valid() && bufferSize >= |s.text| > 0
    ensures Read(Rewind(s), bufferSize).bytes == s.text
  {
  }

  /** Writing at the start of a text stream and rewinding makes the written bytes readable again. */
  lemma WriteRewindRead(text: seq<char>, data: seq<char>)
    requires 0 < |data| <= |text|
    ensures Read(Rewind(Write(FromText(text), data).stream), |data|).bytes == data
  {
    var w := Write(FromText(text), data);
    assert w.stream.text[0..|data|] == data[..|data|];
  }
}
