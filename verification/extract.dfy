/**
 * The two extractors of `tail`: the seekable one, which indexes the byte
 * offset of every line, seeks to the first line to keep and copies from
 * there, and the stream one, which keeps a sliding window of lines in a
 * ring buffer and prints it when the input ends.
 */
module Extract {
  import opened TailBase
  import opened Deque

  /**
   * A file as the extractors see it: it cannot be opened, or it yields
   * `lines` and then either reaches its end or reports a read error.
   */
  datatype Source = OpenFailure | Opened(lines: seq<Line>, readError: bool)

  /** What one extraction does: the bytes it prints, an I/O error, or a panic. */
  datatype Outcome = Printed(output: seq<byte>) | IoFailure | Panicked

  /** The byte position at which line `i` begins: the total length of the lines before it. */
  function LineStart(lines: seq<Line>, i: nat): nat
    requires i <= |lines|
  {
    |Concat(lines[..i])|
  }

  lemma LineStartStep(lines: seq<Line>, i: nat)
    requires i < |lines|
    ensures LineStart(lines, i + 1) == LineStart(lines, i) + |lines[i]|
  {
    assert lines[..i + 1] == lines[..i] + [lines[i]];
    ConcatAppend(lines[..i], [lines[i]]);
    assert Concat([lines[i]]) == lines[i] + Concat([]);
  }

  /**
   * The first pass of the seekable extractor: one offset per line, each
   * the running sum of the lengths of the lines before it. Because a line
   * reader never yields an empty line, the offsets strictly increase.
   */
  method LineOffsets(lines: seq<Line>) returns (offsets: seq<nat>)
    ensures |offsets| == |lines|
    ensures forall i :: 0 <= i < |lines| ==> offsets[i] == LineStart(lines, i)
    ensures |lines| > 0 ==> offsets[0] == 0
    ensures forall i :: 0 < i < |lines| ==> offsets[i] == offsets[i - 1] + |lines[i - 1]|
    ensures LineShaped(lines) ==> forall i, j :: 0 <= i < j < |offsets| ==> offsets[i] < offsets[j]
  {
    offsets := [];
    var nextOffset := 0;
    for i := 0 to |lines|
      invariant |offsets| == i
      invariant nextOffset == LineStart(lines, i)
      invariant forall k :: 0 <= k < i ==> offsets[k] == LineStart(lines, k)
      invariant forall k :: 0 < k < i ==> offsets[k] == offsets[k - 1] + |lines[k - 1]|
      invariant 0 < i ==> nextOffset == offsets[i - 1] + |lines[i - 1]|
      invariant LineShaped(lines) ==> forall a, b :: 0 <= a < b < i ==> offsets[a] < offsets[b]
    {
      offsets := offsets + [nextOffset];
      LineStartStep(lines, i);
      nextOffset := nextOffset + |lines[i]|;
    }
  }

  /**
   * The offset of the first line to print: 0 when there are fewer lines
   * than `count`, else the offset of line `|offsets| - count`. A zero count
   * indexes one past the end, which panics: `None`.
   */
  function FirstLineOffset(offsets: seq<nat>, count: nat): (r: Option<nat>)
    ensures r.None? <==> count == 0
  {
    var numOffsets := |offsets|;
    if numOffsets < count then Some(0)
    else if numOffsets - count < numOffsets then Some(offsets[numOffsets - count])
    else None
  }

  /**
   * Copying from the chosen offset to the end of the file reproduces
   * exactly the last `count` lines (all of them if there are fewer).
   */
  lemma {:induction false} SeekSelectsLastLines(lines: seq<Line>, offsets: seq<nat>, count: nat)
    requires |offsets| == |lines|
    requires forall i :: 0 <= i < |lines| ==> offsets[i] == LineStart(lines, i)
    requires count > 0
    ensures FirstLineOffset(offsets, count).Some?
    ensures FirstLineOffset(offsets, count).value <= |Concat(lines)|
    ensures Concat(lines)[FirstLineOffset(offsets, count).value..] == Concat(LastLines(lines, count))
  {
    var s := |lines| - Min(|lines|, count);
    assert lines == lines[..s] + lines[s..];
    ConcatAppend(lines[..s], lines[s..]);
    if s > 0 {
      assert FirstLineOffset(offsets, count).value == LineStart(lines, s);
    } else {
      assert lines[..s] == [];
    }
  }

  /**
   * The stream extractor. For lines, a window of at most `count` lines
   * (unbounded when `count` is 0, since the eviction test then only fires on
   * an empty window) is printed oldest first once the input ends; the anchor
   * is not consulted. For bytes nothing is read or printed.
   */
  method TailStream(lines: seq<Line>, readError: bool, mode: Mode) returns (r: Outcome)
    ensures mode.unit == Bytes ==> r == Printed([])
    ensures mode.unit == Lines && readError ==> r == IoFailure
    ensures mode.unit == Lines && !readError ==> r == Printed(Concat(WindowKeeps(lines, mode.count)))
  {
    if mode.unit == Lines {
      var deque := new RingBuf<Line>.WithCapacity(mode.count);
      for i := 0 to |lines|
        invariant deque.Valid() && fresh(deque.Repr)
        invariant deque.Contents == WindowKeeps(lines[..i], mode.count)
        invariant mode.count > 0 ==> |deque.Contents| <= mode.count
      {
        WindowStep(lines, i, mode.count);
        if deque.Length() == mode.count {
          var _ := deque.PopFront();
        }
        deque.PushBack(lines[i]);
        WindowBound(lines[..i + 1], mode.count);
      }
      if readError {
        return IoFailure;
      }
      assert lines[..|lines|] == lines;
      ghost var window := deque.Contents;
      var out: seq<byte> := [];
      while true
        invariant deque.Valid() && fresh(deque.Repr)
        invariant out + Concat(deque.Contents) == Concat(window)
        decreases |deque.Contents|
      {
        var next := deque.PopFront();
        match next
        case None =>
          break;
        case Some(line) =>
          out := out + line;
      }
      r := Printed(out);
    } else {
      r := Printed([]);
    }
  }

  /**
   * Tails one file. Only lines counted from the end take the seekable path;
   * every other mode is handed to the stream extractor after opening.
   */
  method TailFile(src: Source, mode: Mode) returns (r: Outcome)
    ensures src.OpenFailure? ==> r == IoFailure
    ensures src.Opened? && mode.unit == Bytes ==> r == Printed([])
    ensures src.Opened? && mode.unit == Lines && src.readError ==> r == IoFailure
    ensures src.Opened? && mode.unit == Lines && !src.readError && mode.anchor == FromEnd ==>
      r == if mode.count == 0 then Panicked else Printed(Concat(LastLines(src.lines, mode.count)))
    ensures src.Opened? && mode.unit == Lines && !src.readError && mode.anchor == FromBeginning ==>
      r == Printed(Concat(WindowKeeps(src.lines, mode.count)))
  {
    if mode.unit != Lines || mode.anchor != FromEnd {
      match src
      case OpenFailure =>
        return IoFailure;
      case Opened(lines, readError) =>
        r := TailStream(lines, readError, mode);
        return;
    }
    match src
    case OpenFailure =>
      return IoFailure;
    case Opened(lines, readError) =>
      var offsets := LineOffsets(lines);
      if readError {
        return IoFailure;
      }
      match FirstLineOffset(offsets, mode.count)
      case None =>
        return Panicked;
      case Some(firstLineOffset) =>
        SeekSelectsLastLines(lines, offsets, mode.count);
        // Seeking to the offset and reading on to the end prints these bytes.
        r := Printed(Concat(lines)[firstLineOffset..]);
  }

  /**
   * The two extractors agree: for a positive count the seekable path and
   * the window print the same bytes for the same content.
   */
  lemma SeekableAgreesWithWindow(lines: seq<Line>, offsets: seq<nat>, count: nat)
    requires |offsets| == |lines|
    requires forall i :: 0 <= i < |lines| ==> offsets[i] == LineStart(lines, i)
    requires count > 0
    ensures FirstLineOffset(offsets, count).Some?
    ensures FirstLineOffset(offsets, count).value <= |Concat(lines)|
    ensures Concat(lines)[FirstLineOffset(offsets, count).value..] == Concat(WindowKeeps(lines, count))
  {
    SeekSelectsLastLines(lines, offsets, count);
  }

  /**
   * The last line of the input is always the last line printed, byte for
   * byte: a final line without a terminator is printed without one.
   */
  lemma FinalLinePrintedVerbatim(lines: seq<Line>, count: nat)
    requires |lines| > 0 && count > 0
    ensures var w := LastLines(lines, count);
      |w| > 0 && Concat(w) == Concat(w[..|w| - 1]) + lines[|lines| - 1]
  {
    var w := LastLines(lines, count);
    assert w == w[..|w| - 1] + [lines[|lines| - 1]];
    ConcatAppend(w[..|w| - 1], [lines[|lines| - 1]]);
    assert Concat([lines[|lines| - 1]]) == lines[|lines| - 1] + Concat([]);
  }

  /** So when the input does not end in a newline, neither does the output. */
  lemma NoNewlineAddedAtEnd(lines: seq<Line>, count: nat)
    requires |lines| > 0 && count > 0 && LineShaped(lines)
    requires lines[|lines| - 1][|lines[|lines| - 1]| - 1] != NEWLINE
    ensures var out := Concat(LastLines(lines, count));
      |out| > 0 && out[|out| - 1] != NEWLINE
  {
    FinalLinePrintedVerbatim(lines, count);
  }

  /** An instance: the bytes "x\ny\nz" with a count of 1 give "z". */
  lemma FinalLineWithoutNewline()
    ensures LineShaped([[120, NEWLINE], [121, NEWLINE], [122]])
    ensures Concat(LastLines([[120, NEWLINE], [121, NEWLINE], [122]], 1)) == [122]
  {
  }
}
