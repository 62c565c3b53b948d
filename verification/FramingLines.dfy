/** The frames of a byte stream, line by line: every stream is a list of ended lines and an unended rest. */
module FramingLines {
  import opened Common
  import opened Framing

  /** The ended lines of a stream. */
  function EndedLines(s: Bytes): seq<Bytes>
    decreases |s|
  {
    var n := LineLength(s);
    if n == |s| then [] else [s[..n]] + EndedLines(s[n + 1..])
  }

  /** What follows the last newline. */
  function Unended(s: Bytes): Bytes
    decreases |s|
  {
    var n := LineLength(s);
    if n == |s| then s else Unended(s[n + 1..])
  }

  lemma {:induction false} OnlyRest(s: Bytes)
    requires LineLength(s) == |s|
    ensures EndedLines(s) == [] && Unended(s) == s && NoNewline(s) && Written([]) + s == s
  {
  }

  lemma {:induction false} FirstEnded(s: Bytes, n: nat)
    requires n == LineLength(s) < |s|
    ensures s == s[..n] + [NEWLINE] + s[n + 1..] && NoNewline(s[..n])
  {
    NoLineIn(s[..n]);
  }

  lemma {:induction false} StreamIsLines(s: Bytes)
    ensures s == Written(EndedLines(s)) + Unended(s)
    decreases |s|
  {
    hide LineLength, NoNewline, EndedLines, Unended, Written;
    var n := LineLength(s);
    if n < |s| {
      var rest := s[n + 1..];
      StreamIsLines(rest);
      LinesUnfold(s, n);
      FirstEnded(s, n);
      WrittenPrepend(s[..n], EndedLines(rest), Unended(rest));
    } else {
      OnlyRest(s);
    }
  }

  lemma {:induction false} LinesHaveNoNewline(s: Bytes)
    ensures NoNewline(Unended(s)) && forall i :: 0 <= i < |EndedLines(s)| ==> NoNewline(EndedLines(s)[i])
    decreases |s|
  {
    hide LineLength, NoNewline, EndedLines, Unended;
    var n := LineLength(s);
    if n < |s| {
      LinesHaveNoNewline(s[n + 1..]);
      LinesUnfold(s, n);
      FirstEnded(s, n);
    } else {
      OnlyRest(s);
    }
  }

  /** Ended lines and rest are newline-free and make up the stream. */
  lemma {:induction false} StreamIsLinesAndRest(s: Bytes)
    ensures s == Written(EndedLines(s)) + Unended(s)
    ensures NoNewline(Unended(s)) && forall i :: 0 <= i < |EndedLines(s)| ==> NoNewline(EndedLines(s)[i])
  {
    StreamIsLines(s);
    LinesHaveNoNewline(s);
  }

  lemma NoLineIn(s: Bytes)
    requires forall i :: 0 <= i < |s| ==> s[i] != NEWLINE
    ensures NoNewline(s)
  {
  }

  lemma {:induction false} WrittenPrepend(line: Bytes, lines: seq<Bytes>, tail: Bytes)
    ensures Written([line] + lines) + tail == line + [NEWLINE] + (Written(lines) + tail)
  {
    assert ([line] + lines)[1..] == lines;
  }

  lemma {:induction false} LinesUnfold(s: Bytes, n: nat)
    requires n == LineLength(s) < |s|
    ensures EndedLines(s) == [s[..n]] + EndedLines(s[n + 1..]) && Unended(s) == Unended(s[n + 1..])
  {
  }

  /**
   What the reader answers to a list of lines: each line as text, or as not being text; nothing after
   one over the limit.
   */
  function Answers(lines: seq<Bytes>, maxBytes: nat, utf8: Utf8): seq<Outcome> {
    if lines == [] then []
    else if |lines[0]| > maxBytes then [TooLong]
    else [if utf8(lines[0]) then Line(lines[0]) else InvalidUtf8(lines[0])] + Answers(lines[1..], maxBytes, utf8)
  }

  /** All lines of a stream; a rest without newline counts if it has any bytes. */
  function AllLines(s: Bytes): seq<Bytes> {
    EndedLines(s) + if Unended(s) == [] then [] else [Unended(s)]
  }

  /**
   The frames of any stream are the answers to its lines, in order, including an unended rest at the
   end, up to the first line over the limit.
   */
  lemma {:induction false} FramesAreAnswers(s: Bytes, maxBytes: nat, utf8: Utf8)
    ensures Frames(s, maxBytes, utf8) == Answers(AllLines(s), maxBytes, utf8)
    decreases |s|
  {
    hide LineLength;
    var n := LineLength(s);
    if s == [] {
    } else if n == |s| {
      assert s[..n] == s && Rest(s) == [];
      assert AllLines(s) == [s];
    } else {
      FramesAreAnswers(s[n + 1..], maxBytes, utf8);
      assert Rest(s) == s[n + 1..];
      assert AllLines(s) == [s[..n]] + AllLines(s[n + 1..]);
    }
  }

  lemma {:induction false} FirstLineFound(line: Bytes, rest: Bytes)
    requires NoNewline(line)
    ensures var s := line + [NEWLINE] + rest;
            LineLength(s) == |line| < |s| && s[..|line|] == line && s[|line| + 1..] == rest
  {
    LineLengthIs(line + [NEWLINE] + rest, |line|);
  }

  lemma {:induction false} NoLineFound(tail: Bytes)
    requires NoNewline(tail)
    ensures LineLength(tail) == |tail|
  {
    LineLengthIs(tail, |tail|);
  }

  /** Lines followed by a rest are taken apart again exactly as they were put together. */
  lemma {:induction false} LinesAreFound(lines: seq<Bytes>, tail: Bytes)
    requires NoNewline(tail) && forall i :: 0 <= i < |lines| ==> NoNewline(lines[i])
    ensures EndedLines(Written(lines) + tail) == lines && Unended(Written(lines) + tail) == tail
  {
    hide LineLength, NoNewline;
    if lines == [] {
      assert Written(lines) + tail == tail;
      NoLineFound(tail);
    } else {
      var more := lines[1..];
      LinesAreFound(more, tail);
      FirstLineFound(lines[0], Written(more) + tail);
      assert Written(lines) + tail == lines[0] + [NEWLINE] + (Written(more) + tail);
    }
  }
}
