/**
 * Shared vocabulary of the `tail` model: the selection mode, bytes and
 * lines, and the reference definition of "the last N lines" that both
 * extractors are proved against.
 */
module TailBase {

  newtype byte = x: int | 0 <= x < 256

  /** One line as a buffered line reader yields it: its bytes, terminator included. */
  type Line = seq<byte>

  const NEWLINE: byte := 10

  datatype Option<T> = None | Some(value: T)

  datatype Result<T, E> = Ok(value: T) | Err(error: E)

  datatype Unit = Bytes | Lines

  datatype Anchor = FromBeginning | FromEnd

  /** What to select; `count` is an unsigned machine integer in the source. */
  datatype Mode = Mode(unit: Unit, anchor: Anchor, count: nat)

  /** The mode used when no count is given on the command line. */
  const DefaultMode := Mode(Lines, FromEnd, 10)

  function Min(a: nat, b: nat): nat {
    if a <= b then a else b
  }

  /**
   * The shape of what a line reader yields: every line is non-empty, only
   * its final byte may be a newline, and every line but the last has one.
   */
  predicate LineShaped(lines: seq<Line>) {
    forall i :: 0 <= i < |lines| ==>
      && |lines[i]| > 0
      && (forall k :: 0 <= k < |lines[i]| - 1 ==> lines[i][k] != NEWLINE)
      && (i < |lines| - 1 ==> lines[i][|lines[i]| - 1] == NEWLINE)
  }

  /** The bytes of a sequence of lines, written one after another. */
  function Concat(lines: seq<Line>): seq<byte> {
    if lines == [] then [] else lines[0] + Concat(lines[1..])
  }

  lemma {:induction false} ConcatAppend(a: seq<Line>, b: seq<Line>)
    ensures Concat(a + b) == Concat(a) + Concat(b)
  {
    if a == [] {
      assert a + b == b;
    } else {
      assert (a + b)[1..] == a[1..] + b;
      ConcatAppend(a[1..], b);
    }
  }

  /** Reference definition: the last `n` lines, or all of them when there are fewer. */
  function LastLines(lines: seq<Line>, n: nat): seq<Line> {
    lines[|lines| - Min(|lines|, n)..]
  }

  /**
   * What the sliding window of the stream extractor holds after reading
   * `lines`: the last `count` lines, except that a zero count never evicts.
   */
  function WindowKeeps(lines: seq<Line>, count: nat): seq<Line> {
    if count == 0 then lines else LastLines(lines, count)
  }

  lemma LastLinesShape(lines: seq<Line>, n: nat)
    ensures |LastLines(lines, n)| == Min(|lines|, n)
    ensures lines == lines[..|lines| - Min(|lines|, n)] + LastLines(lines, n)
    ensures n >= |lines| ==> LastLines(lines, n) == lines
  {
  }

  /**
   * One step of the window: reading line `i` evicts the oldest retained
   * line exactly when the window already holds `count` lines (popping an
   * empty window does nothing), then appends line `i`.
   */
  lemma WindowStep(lines: seq<Line>, i: nat, count: nat)
    requires i < |lines|
    ensures var w := WindowKeeps(lines[..i], count);
      WindowKeeps(lines[..i + 1], count) == (if |w| == count && w != [] then w[1..] else w) + [lines[i]]
  {
  }

  /** A positive count bounds the window. */
  lemma WindowBound(lines: seq<Line>, count: nat)
    ensures count > 0 ==> |WindowKeeps(lines, count)| <= count
  {
  }
}
