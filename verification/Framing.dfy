/**
 Line framing over a byte stream that arrives in chunks, with reads that may be abandoned.

 A frame is a line ended by `\n`. The meaning of a stream is defined on its bytes alone; the
 readers below see it block by block, and may be dropped while they wait for the next block.
 */
module Framing {
  import opened Common

  type Byte = b: nat | b < 256
  type Bytes = seq<Byte>

  const NEWLINE: Byte := 10

  /** Which byte strings are valid UTF-8. */
  type Utf8 = Bytes -> bool

  /** Result of one read: a line, the end, a line that is not UTF-8, or a line over the limit. */
  datatype Outcome = Line(bytes: Bytes) | End | InvalidUtf8(bytes: Bytes) | TooLong

  function Decoded(utf8: Utf8, bytes: Bytes): Outcome {
    if utf8(bytes) then Line(bytes) else InvalidUtf8(bytes)
  }

  // ------------------------------------------------ meaning of a byte stream

  /** Length of the first line: position of the first newline, or the whole stream. */
  function LineLength(s: Bytes): (n: nat)
    ensures n <= |s|
    ensures forall i :: 0 <= i < n ==> s[i] != NEWLINE
    ensures n < |s| ==> s[n] == NEWLINE
  {
    if s == [] || s[0] == NEWLINE then 0 else 1 + LineLength(s[1..])
  }

  /** The first frame of a stream. */
  function First(s: Bytes, maxBytes: nat, utf8: Utf8): Outcome {
    var n := LineLength(s);
    if s == [] then End
    else if n > maxBytes then TooLong
    else Decoded(utf8, s[..n])
  }

  /** What follows the first frame. */
  function Rest(s: Bytes): Bytes {
    s[Min(LineLength(s) + 1, |s|)..]
  }

  /** All frames up to the end or the first line over the limit, which closes the connection. */
  function Frames(s: Bytes, maxBytes: nat, utf8: Utf8): seq<Outcome>
    decreases |s|
  {
    var f := First(s, maxBytes, utf8);
    if f.End? then []
    else if f.TooLong? then [TooLong]
    else [f] + Frames(Rest(s), maxBytes, utf8)
  }

  // ------------------------------------------------ chunked source

  function Flatten(chunks: seq<Bytes>): Bytes {
    if chunks == [] then [] else chunks[0] + Flatten(chunks[1..])
  }

  ghost predicate NonEmptyChunks(chunks: seq<Bytes>) {
    forall i :: 0 <= i < |chunks| ==> chunks[i] != []
  }

  /**
   A buffered reader: `fill_buf` shows the rest of the current block, `consume` takes bytes from it.
   `filled` is set while the first block sits in the buffer.
   */
  class ChunkReader {
    var chunks: seq<Bytes>
    var filled: bool

    constructor (chunks: seq<Bytes>)
      requires NonEmptyChunks(chunks)
      ensures this.chunks == chunks && !filled
    {
      this.chunks := chunks;
      filled := false;
    }

    /** What the connection still holds: everything but the block that has been fetched. */
    function Unfetched(): seq<Bytes>
      reads this
    {
      if filled && chunks != [] then chunks[1..] else chunks
    }

    method FillBuf() returns (available: Bytes)
      modifies `filled
      ensures available == (if chunks == [] then [] else chunks[0]) && filled
    {
      available := if chunks == [] then [] else chunks[0];
      filled := true;
    }

    /** Gives the connection away, and with it up what was fetched but not consumed. */
    method IntoInner() returns (connection: seq<Bytes>)
      ensures connection == Unfetched()
    {
      connection := Unfetched();
    }

    method Consume(n: nat)
      requires chunks != [] && n <= |chunks[0]| && NonEmptyChunks(chunks)
      modifies this
      ensures NonEmptyChunks(chunks)
      ensures Flatten(chunks) == Flatten(old(chunks))[n..]
      ensures n == |old(chunks)[0]| ==> chunks == old(chunks)[1..]
      ensures |chunks| <= |old(chunks)|
      ensures old(filled) ==> Unfetched() == old(chunks)[1..]
    {
      var rest := chunks[0][n..];
      ghost var tail := chunks[1..];
      chunks := if rest == [] then chunks[1..] else [rest] + chunks[1..];
      filled := filled && rest != [];
      assert rest != [] ==> chunks[1..] == tail;
    }
  }

  /** Index of the first newline of a block. */
  method FindNewline(block: Bytes) returns (pos: Option<nat>)
    ensures pos == if LineLength(block) < |block| then Some(LineLength(block)) else None
  {
    for i := 0 to |block|
      invariant forall k :: 0 <= k < i ==> block[k] != NEWLINE
    {
      if block[i] == NEWLINE {
        LineLengthIs(block, i);
        return Some(i);
      }
    }
    return None;
  }

  // ------------------------------------------------ facts about lines

  lemma {:induction false} LineLengthIs(s: Bytes, n: nat)
    requires n <= |s| && (forall i :: 0 <= i < n ==> s[i] != NEWLINE) && (n < |s| ==> s[n] == NEWLINE)
    ensures LineLength(s) == n
  {
  }

  ghost predicate NoNewline(s: Bytes) {
    forall i :: 0 <= i < |s| ==> s[i] != NEWLINE
  }

  /** A newline-free prefix only lengthens the first line. */
  lemma {:induction false} LineLengthWithPrefix(buf: Bytes, s: Bytes)
    requires NoNewline(buf)
    ensures LineLength(buf + s) == |buf| + LineLength(s)
  {
    LineLengthIs(buf + s, |buf| + LineLength(s));
  }

  /** The first block decides the first line if it holds a newline. */
  lemma {:induction false} LineLengthOfChunks(chunks: seq<Bytes>)
    requires chunks != []
    ensures var n := LineLength(chunks[0]);
            n < |chunks[0]| ==> LineLength(Flatten(chunks)) == n
    ensures LineLength(chunks[0]) == |chunks[0]| ==> LineLength(Flatten(chunks)) >= |chunks[0]|
  {
    var n, s := LineLength(chunks[0]), Flatten(chunks);
    if n < |chunks[0]| {
      LineLengthIs(s, n);
    } else {
      LineLengthWithPrefix(chunks[0], Flatten(chunks[1..]));
    }
  }

  /** With a newline in the next block, the first frame ends there. */
  lemma {:induction false} BlockEndsLine(buf: Bytes, chunks: seq<Bytes>, maxBytes: nat, utf8: Utf8)
    requires NoNewline(buf) && chunks != [] && LineLength(chunks[0]) < |chunks[0]|
    ensures var n, s := LineLength(chunks[0]), buf + Flatten(chunks);
            && First(s, maxBytes, utf8)
               == (if |buf| + n > maxBytes then TooLong else Decoded(utf8, buf + chunks[0][..n]))
            && Rest(s) == Flatten(chunks)[n + 1..]
  {
    var n, s := LineLength(chunks[0]), buf + Flatten(chunks);
    LineLengthWithPrefix(buf, Flatten(chunks));
    LineLengthOfChunks(chunks);
    assert s[..|buf| + n] == buf + chunks[0][..n];
    assert s[|buf| + n + 1..] == Flatten(chunks)[n + 1..];
  }

  /** Without one, the block belongs to the line, which may already be too long. */
  lemma {:induction false} BlockExtendsLine(buf: Bytes, chunks: seq<Bytes>, maxBytes: nat, utf8: Utf8)
    requires NoNewline(buf) && chunks != [] && chunks[0] != [] && LineLength(chunks[0]) == |chunks[0]|
    ensures NoNewline(buf + chunks[0])
    ensures buf + Flatten(chunks) == (buf + chunks[0]) + Flatten(chunks[1..])
    ensures |buf| + |chunks[0]| > maxBytes ==> First(buf + Flatten(chunks), maxBytes, utf8) == TooLong
  {
    var s := Flatten(chunks);
    LineLengthOfChunks(chunks);
    LineLengthWithPrefix(buf, s);
    hide LineLength;
    assert LineLength(buf + s) >= |buf| + |chunks[0]|;
    assert forall i :: 0 <= i < |chunks[0]| ==> chunks[0][i] != NEWLINE;
  }

  lemma {:induction false} NothingLeft()
    ensures Flatten([]) == []
  {
  }

  /** At the end of the source, the unterminated rest is the last frame. */
  lemma EndOfSource(buf: Bytes, maxBytes: nat, utf8: Utf8)
    requires NoNewline(buf) && |buf| <= maxBytes
    ensures First(buf, maxBytes, utf8) == if buf == [] then End else Decoded(utf8, buf)
    ensures Rest(buf) == []
  {
    LineLengthIs(buf, |buf|);
    assert buf[..|buf|] == buf;
  }

  // ------------------------------------------------ the cancellation-safe reader

  /** `Abandoned`: the caller dropped the read while it was waiting for a block. */
  datatype Polled = Abandoned | Ready(outcome: Outcome)

  class FrameReader {
    const reader: ChunkReader
    const utf8: Utf8
    var buf: Bytes

    ghost predicate Valid()
      reads this, reader
    {
      NonEmptyChunks(reader.chunks) && NoNewline(buf)
    }

    /** Bytes received but not yet returned, followed by those still to arrive. */
    ghost function Stream(): Bytes
      reads this, reader
    {
      buf + Flatten(reader.chunks)
    }

    constructor (reader: ChunkReader, utf8: Utf8)
      requires NonEmptyChunks(reader.chunks)
      ensures Valid() && Stream() == Flatten(reader.chunks) && buf == []
      ensures this.reader == reader && this.utf8 == utf8
    {
      this.reader := reader;
      this.utf8 := utf8;
      buf := [];
      new;
      assert buf + Flatten(reader.chunks) == Flatten(reader.chunks);
    }

    /**
     One call that is dropped once it has waited for `patience` blocks. A dropped call loses
     nothing; a completed one returns the first frame of the remaining stream.
     */
    method ReadFrame(maxBytes: nat, patience: nat) returns (r: Polled)
      requires Valid() && |buf| <= maxBytes
      modifies this, reader
      ensures Valid() && |buf| <= maxBytes && |reader.chunks| <= |old(reader.chunks)|
      ensures r.Abandoned? ==> Stream() == old(Stream()) && |old(reader.chunks)| >= patience
      ensures r.Ready? ==> r.outcome == First(old(Stream()), maxBytes, utf8)
      ensures r.Ready? && !r.outcome.TooLong? ==> Stream() == Rest(old(Stream())) && buf == []
    {
      hide First, Rest, LineLength, Flatten;
      ghost var stream := Stream();
      var left: nat := patience;
      while left > 0
        invariant Valid() && |buf| <= maxBytes && buf + Flatten(reader.chunks) == stream
        invariant |old(reader.chunks)| == |reader.chunks| + (patience - left)
        invariant left <= patience
      {
        left := left - 1;
        ghost var chunks := reader.chunks;
        var available := reader.FillBuf();
        if available == [] {
          NothingLeft();
          assert stream == buf;
          EndOfSource(buf, maxBytes, utf8);
          if buf == [] {
            return Ready(End);
          }
          var line := buf;
          buf := [];
          return Ready(Decoded(utf8, line));
        }
        var pos := FindNewline(available);
        if pos.Some? {
          BlockEndsLine(buf, chunks, maxBytes, utf8);
          reader.Consume(pos.value + 1);
          if |buf| + pos.value > maxBytes {
            buf := [];
            return Ready(TooLong);
          }
          var line := buf + available[..pos.value];
          buf := [];
          return Ready(Decoded(utf8, line));
        }
        BlockExtendsLine(buf, chunks, maxBytes, utf8);
        reader.Consume(|available|);
        if |buf| + |available| > maxBytes {
          buf := [];
          return Ready(TooLong);
        }
        buf := buf + available;
      }
      return Abandoned;
    }
  }

  lemma {:induction false} FramesUnfold(s: Bytes, maxBytes: nat, utf8: Utf8)
    ensures match First(s, maxBytes, utf8)
            case End => s == [] && Frames(s, maxBytes, utf8) == []
            case TooLong => Frames(s, maxBytes, utf8) == [TooLong]
            case f => Frames(s, maxBytes, utf8) == [f] + Frames(Rest(s), maxBytes, utf8)
  {
  }

  predicate EndsTooLong(results: seq<Outcome>) {
    results != [] && results[|results| - 1].TooLong?
  }

  /** One further call: `results` grows by the next frame, or nothing is lost. */
  method ReadNext(fr: FrameReader, maxBytes: nat, patience: nat, results: seq<Outcome>) returns (grown: seq<Outcome>)
    requires fr.Valid() && |fr.buf| <= maxBytes && !EndsTooLong(results)
    modifies fr, fr.reader
    ensures fr.Valid() && |fr.buf| <= maxBytes && |fr.reader.chunks| <= |old(fr.reader.chunks)|
    ensures EndsTooLong(grown) ==> grown == results + Frames(old(fr.Stream()), maxBytes, fr.utf8)
    ensures !EndsTooLong(grown) ==>
              results + Frames(old(fr.Stream()), maxBytes, fr.utf8) == grown + Frames(fr.Stream(), maxBytes, fr.utf8)
    ensures results <= grown
    ensures patience > |old(fr.reader.chunks)| && Frames(old(fr.Stream()), maxBytes, fr.utf8) != [] ==>
              |grown| == |results| + 1
  {
    hide First, Frames;
    ghost var stream := fr.Stream();
    FramesUnfold(stream, maxBytes, fr.utf8);
    var r := fr.ReadFrame(maxBytes, patience);
    if r.Abandoned? || r.outcome.End? {
      return results;
    }
    grown := results + [r.outcome];
    if !r.outcome.TooLong? {
      ghost var rest := Frames(fr.Stream(), maxBytes, fr.utf8);
      assert results + ([r.outcome] + rest) == grown + rest;
    }
  }

  /**
   Reads with a different patience each time. What comes back is always the beginning of the
   frames of the stream, however it was cut into blocks and however often a call was dropped;
   with enough calls that wait long enough it is all of them.
   */
  method ReadAll(fr: FrameReader, maxBytes: nat, patience: seq<nat>) returns (results: seq<Outcome>)
    requires fr.Valid() && |fr.buf| <= maxBytes
    modifies fr, fr.reader
    ensures fr.Valid() && |fr.buf| <= maxBytes
    ensures if EndsTooLong(results) then results == Frames(old(fr.Stream()), maxBytes, fr.utf8)
            else Frames(old(fr.Stream()), maxBytes, fr.utf8) == results + Frames(fr.Stream(), maxBytes, fr.utf8)
    ensures |patience| >= |Frames(old(fr.Stream()), maxBytes, fr.utf8)|
            && (forall i :: 0 <= i < |patience| ==> patience[i] > |old(fr.reader.chunks)|) ==>
              results == Frames(old(fr.Stream()), maxBytes, fr.utf8)
  {
    results := [];
    ghost var all, blocks := Frames(fr.Stream(), maxBytes, fr.utf8), |fr.reader.chunks|;
    for i := 0 to |patience|
      invariant fr.Valid() && |fr.buf| <= maxBytes && |fr.reader.chunks| <= blocks
      invariant !EndsTooLong(results) && all == results + Frames(fr.Stream(), maxBytes, fr.utf8)
      invariant (forall j :: 0 <= j < i ==> patience[j] > blocks) ==> |results| >= Min(i, |all|)
    {
      results := ReadNext(fr, maxBytes, patience[i], results);
      if EndsTooLong(results) {
        return;
      }
    }
  }

  // ------------------------------------------------ the plain reader

  /** Number of blocks a read of the first frame takes: up to the first one with a newline. */
  function BlocksOfLine(chunks: seq<Bytes>): (n: nat)
    ensures n <= |chunks|
    ensures forall i :: 0 <= i < n - 1 ==> LineLength(chunks[i]) == |chunks[i]|
    ensures n < |chunks| ==> n > 0 && LineLength(chunks[n - 1]) < |chunks[n - 1]|
  {
    if chunks == [] then 0
    else if LineLength(chunks[0]) < |chunks[0]| then 1
    else 1 + BlocksOfLine(chunks[1..])
  }

  /**
   The reader that keeps a partial line in the call itself. Left alone it agrees with the
   stream; if it is dropped, the blocks it had taken are gone.
   */
  method ReadFrame(reader: ChunkReader, utf8: Utf8, maxBytes: nat, patience: nat) returns (r: Polled)
    requires NonEmptyChunks(reader.chunks)
    modifies reader
    ensures NonEmptyChunks(reader.chunks)
    ensures r.Ready? ==> r.outcome == First(Flatten(old(reader.chunks)), maxBytes, utf8)
    ensures r.Ready? && !r.outcome.TooLong? ==> Flatten(reader.chunks) == Rest(Flatten(old(reader.chunks)))
    ensures r.Ready? && !r.outcome.TooLong? ==>
              reader.Unfetched() == old(reader.chunks)[BlocksOfLine(old(reader.chunks))..]
    ensures r.Abandoned? ==> patience <= |old(reader.chunks)| && reader.chunks == old(reader.chunks)[patience..]
  {
    hide First, Rest, LineLength, Flatten, BlocksOfLine;
    var buf: Bytes := [];
    ghost var all, stream := reader.chunks, Flatten(reader.chunks);
    var left: nat := patience;
    assert buf + Flatten(reader.chunks) == stream;
    while left > 0
      invariant NonEmptyChunks(reader.chunks) && NoNewline(buf) && |buf| <= maxBytes
      invariant buf + Flatten(reader.chunks) == stream
      invariant left <= patience && patience - left <= |all|
      invariant reader.chunks == all[patience - left..]
      invariant BlocksOfLine(all) == patience - left + BlocksOfLine(reader.chunks)
    {
      left := left - 1;
      ghost var chunks := reader.chunks;
      BlocksUnfold(chunks);
      var available := reader.FillBuf();
      if available == [] {
        NothingLeft();
        assert stream == buf;
        EndOfSource(buf, maxBytes, utf8);
        assert BlocksOfLine([]) == 0;
        return Ready(if buf == [] then End else Decoded(utf8, buf));
      }
      var pos := FindNewline(available);
      if pos.Some? {
        BlockEndsLine(buf, chunks, maxBytes, utf8);
        reader.Consume(pos.value + 1);
        if |buf| + pos.value > maxBytes {
          return Ready(TooLong);
        }
        return Ready(Decoded(utf8, buf + available[..pos.value]));
      }
      BlockExtendsLine(buf, chunks, maxBytes, utf8);
      reader.Consume(|available|);
      if |buf| + |available| > maxBytes {
        return Ready(TooLong);
      }
      buf := buf + available;
    }
    return Abandoned;
  }

  lemma {:induction false} BlocksUnfold(chunks: seq<Bytes>)
    ensures BlocksOfLine(chunks) == if chunks == [] then 0
                                    else if LineLength(chunks[0]) < |chunks[0]| then 1
                                    else 1 + BlocksOfLine(chunks[1..])
  {
  }

  /** The first frame ends with the last byte of the last block that was fetched for it. */
  predicate EndsItsBlock(chunks: seq<Bytes>) {
    var k := BlocksOfLine(chunks);
    k > 0 ==> LineLength(chunks[k - 1]) + 1 >= |chunks[k - 1]|
  }

  /**
   Giving the connection away after a completed read keeps the rest of the stream if and only if
   nothing follows the frame in its last block.
   */
  lemma {:induction false} HandOverKeepsTheStreamExactlyWhen(chunks: seq<Bytes>)
    requires NonEmptyChunks(chunks)
    ensures Flatten(chunks[BlocksOfLine(chunks)..]) == Rest(Flatten(chunks)) <==> EndsItsBlock(chunks)
  {
    if chunks == [] {
    } else if LineLength(chunks[0]) < |chunks[0]| {
      var n, tail := LineLength(chunks[0]), Flatten(chunks[1..]);
      LineLengthOfChunks(chunks);
      assert Rest(Flatten(chunks)) == chunks[0][n + 1..] + tail;
    } else {
      var more := chunks[1..];
      HandOverKeepsTheStreamExactlyWhen(more);
      LineLengthWithPrefix(chunks[0], Flatten(more));
      assert chunks[1..][BlocksOfLine(more)..] == chunks[BlocksOfLine(chunks)..];
      assert Rest(Flatten(chunks)) == Rest(Flatten(more));
      assert BlocksOfLine(more) > 0 ==> more[BlocksOfLine(more) - 1] == chunks[BlocksOfLine(chunks) - 1];
    }
  }

  /**
   The handshake: one plain read, then the bare connection goes on; the rest of the stream is intact
   only under that condition.
   */
  method ReadAndHandOver(reader: ChunkReader, utf8: Utf8, maxBytes: nat) returns (r: Outcome, connection: seq<Bytes>)
    requires NonEmptyChunks(reader.chunks)
    modifies reader
    ensures r == First(Flatten(old(reader.chunks)), maxBytes, utf8)
    ensures !r.TooLong? ==>
              (Flatten(connection) == Rest(Flatten(old(reader.chunks))) <==> EndsItsBlock(old(reader.chunks)))
  {
    HandOverKeepsTheStreamExactlyWhen(reader.chunks);
    var polled := ReadFrame(reader, utf8, maxBytes, |reader.chunks| + 1);
    r := polled.outcome;
    connection := reader.IntoInner();
  }

  /** Dropping the plain reader keeps the stream intact exactly when it had taken no block yet. */
  lemma {:induction false} DroppedReadLosesItsBlocks(chunks: seq<Bytes>, patience: nat)
    requires NonEmptyChunks(chunks) && patience <= |chunks|
    ensures Flatten(chunks[patience..]) == Flatten(chunks) <==> patience == 0
  {
    if patience > 0 {
      FlattenSplit(chunks, patience);
      FlattenLength(chunks[..patience]);
    }
  }

  lemma {:induction false} FlattenSplit(chunks: seq<Bytes>, k: nat)
    requires k <= |chunks|
    ensures Flatten(chunks) == Flatten(chunks[..k]) + Flatten(chunks[k..])
  {
    if k > 0 {
      FlattenSplit(chunks[1..], k - 1);
      assert chunks[..k][1..] == chunks[1..][..k - 1] && chunks[k..] == chunks[1..][k - 1..];
    }
  }

  lemma {:induction false} FlattenLength(chunks: seq<Bytes>)
    requires NonEmptyChunks(chunks)
    ensures |Flatten(chunks)| >= |chunks|
  {
    if chunks == [] {
    } else {
      FlattenLength(chunks[1..]);
    }
  }

  // ------------------------------------------------ writing

  class FrameWriter {
    var out: Bytes

    constructor ()
      ensures out == []
    {
      out := [];
    }

    method WriteFrame(line: Bytes)
      modifies this
      ensures out == old(out) + line + [10]
    {
      out := out + line;
      out := out + [NEWLINE];
    }
  }

  /** The bytes that writing the lines one after the other produces. */
  function Written(lines: seq<Bytes>): Bytes {
    if lines == [] then [] else lines[0] + [NEWLINE] + Written(lines[1..])
  }

  function AsOutcomes(lines: seq<Bytes>): seq<Outcome> {
    if lines == [] then [] else [Line(lines[0])] + AsOutcomes(lines[1..])
  }

  method WriteAll(lines: seq<Bytes>) returns (w: FrameWriter)
    ensures fresh(w) && w.out == Written(lines)
  {
    w := new FrameWriter();
    for i := 0 to |lines|
      invariant fresh(w) && w.out + Written(lines[i..]) == Written(lines)
    {
      ghost var before := w.out;
      w.WriteFrame(lines[i]);
      assert lines[i..][0] == lines[i] && lines[i..][1..] == lines[i + 1..];
      assert w.out + Written(lines[i + 1..]) == before + (lines[i] + [NEWLINE] + Written(lines[i + 1..]));
    }
    assert lines[|lines|..] == [];
    assert w.out + [] == w.out;
  }

  ghost predicate Sendable(line: Bytes, maxBytes: nat, utf8: Utf8) {
    NoNewline(line) && |line| <= maxBytes && utf8(line)
  }

  lemma FirstOfWritten(line: Bytes, s: Bytes, maxBytes: nat, utf8: Utf8)
    ensures var stream := line + [NEWLINE] + s;
            && (First(stream, maxBytes, utf8) == Line(line) <==> Sendable(line, maxBytes, utf8))
            && (NoNewline(line) ==> Rest(stream) == s)
  {
    var stream := line + [NEWLINE] + s;
    var n := LineLength(stream);
    if NoNewline(line) {
      LineLengthIs(stream, |line|);
      assert stream[..|line|] == line && stream[|line| + 1..] == s;
    } else {
      var k :| 0 <= k < |line| && line[k] == NEWLINE;
      assert stream[k] == NEWLINE;
      assert n <= k < |line|;
    }
  }

  /** What was written is read back exactly if and only if every line is newline-free, within the limit and UTF-8. */
  lemma {:induction false} WrittenLinesReadBack(lines: seq<Bytes>, maxBytes: nat, utf8: Utf8)
    ensures Frames(Written(lines), maxBytes, utf8) == AsOutcomes(lines)
            <==> forall i :: 0 <= i < |lines| ==> Sendable(lines[i], maxBytes, utf8)
  {
    if lines == [] {
    } else {
      var line, stream := lines[0], Written(lines);
      FirstOfWritten(line, Written(lines[1..]), maxBytes, utf8);
      WrittenLinesReadBack(lines[1..], maxBytes, utf8);
      assert stream != [];
      if Sendable(line, maxBytes, utf8) {
        assert Frames(stream, maxBytes, utf8) == [Line(line)] + Frames(Written(lines[1..]), maxBytes, utf8);
        assert Frames(stream, maxBytes, utf8)[1..] == Frames(Written(lines[1..]), maxBytes, utf8);
        assert AsOutcomes(lines)[1..] == AsOutcomes(lines[1..]);
        assert forall i :: 0 <= i < |lines| ==> lines[i] == if i == 0 then line else lines[1..][i - 1];
      } else {
        assert Frames(stream, maxBytes, utf8)[0] == First(stream, maxBytes, utf8) != Line(line);
        assert AsOutcomes(lines)[0] == Line(line);
      }
    }
  }

  lemma {:induction false} AsManyOutcomes(lines: seq<Bytes>)
    ensures |AsOutcomes(lines)| == |lines|
  {
    if lines == [] {
    } else {
      AsManyOutcomes(lines[1..]);
    }
  }

  /** End to end: sendable lines arrive exactly, however the connection cuts the bytes into blocks. */
  method SendAndReceive(lines: seq<Bytes>, cut: Bytes -> seq<Bytes>, maxBytes: nat, utf8: Utf8, patience: nat)
    returns (results: seq<Outcome>)
    requires forall i :: 0 <= i < |lines| ==> Sendable(lines[i], maxBytes, utf8)
    requires forall s :: Flatten(cut(s)) == s && NonEmptyChunks(cut(s))
    requires patience > |cut(Written(lines))|
    ensures results == AsOutcomes(lines)
  {
    var w := WriteAll(lines);
    var reader := new ChunkReader(cut(w.out));
    var fr := new FrameReader(reader, utf8);
    WrittenLinesReadBack(lines, maxBytes, utf8);
    AsManyOutcomes(lines);
    results := ReadAll(fr, maxBytes, seq(|lines|, _ => patience));
  }
}
