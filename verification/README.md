# tail: a verified model of the selection core

This project models the core of `tail` from the Rust coreutils (`tail/tail.rs`):

- the pre-parser for the `-K` / `+K` count argument;
- the resolution of the final mode and configuration;
- the two ways of selecting the last lines of an input.

The two extractors are:

- **Seekable path (`tail_file`).** A first pass builds a line-offset index. Each entry is the running sum of the byte lengths of the lines before it. The start offset is `offsets[num_offsets - count]`, or 0 when there are fewer lines than `count`. The file is then read again from that offset.
- **Stream path (`tail_stream`).** A `RingBuf` deque holds the most recent `count` lines. Before each push, the oldest line is evicted when the deque is full. The deque is drained in order at the end.

Modules:

- `TailBase` (`tail_base.dfy`) holds the shared vocabulary: `Mode`, `Unit`, `Anchor`, bytes and lines, and `Concat`. It also holds the reference definition `LastLines`, together with `WindowKeeps` (what the window keeps, including its zero-count behaviour).
- `CountArgs` (`count_args.dfy`) holds `ParseCount`, `PreprocessArgs` and `ConfigFromMatches`.
  - `PreprocessArgs` is a method whose loop threads `mode`, `success`, `justSawDashCOrN` and the position, as the source's filter closure does.
  - The option parser's result is abstracted to `Matches`: the optional `-n` string and the free arguments.
- `Deque` (`ring_buf.dfy`) holds `RingBuf`, a growable ring buffer over an array. It has a `Valid()` invariant and a ghost `Contents`.
- `Extract` (`extract.dfy`) holds the offset index (`LineOffsets`), the start offset (`FirstLineOffset`), `TailStream` and `TailFile`, and the lemmas that connect them.

A file is modelled as a `Source`: it fails to open, or it yields a sequence of lines and then either ends or reports a read error. Each line includes its terminator, except possibly the last. Seeking to an offset and reading on to the end is modelled as taking the suffix of the concatenated bytes from that offset.

The model follows the code, not the intended semantics, at these points:

- **Count 0 on the seekable path.** The index `num_offsets - 0` is one past the end of the offset vector. `Vec::get` then panics, so the model gives `Panicked`. Empty output would be the intended result.
- **Count 0 on the stream path.** The eviction test `len == count` only fires on an empty deque, and popping an empty deque does nothing. The deque grows, so every line is kept and printed.
- **The stream path ignores the anchor.** `+K` on a file therefore prints the last K lines.
- **The Bytes unit on the stream path.** Nothing is read and nothing is printed, and the result is success, even if the file could not be read.
- **`-n K` without a sign.** `K` alone is not a count for `parse_count`, so the mode silently falls back to the default `{Lines, FromEnd, 10}`.
- **The `-c` value is never consulted.** `config_from_matches` reads only `-n`, so the Bytes unit cannot be selected from the command line.

Two behaviours of the code look unintended and are modelled as written:

- A zero count panics on the seekable path and prints everything on the stream path, where empty output would be expected.
- An unsupported mode on a stream (the Bytes unit) succeeds silently instead of reporting an error.

## Model

| member | source | states |
|---|---|---|
| `CountArgs.ParseUnsigned` | tail/tail.rs:151-155 | a number is accepted exactly when the text is a non-empty run of ASCII digits, and its value is their decimal value |
| `CountArgs.DecimalRoundTrip` | tail/tail.rs:152 | the decimal spelling of any natural number is a non-empty digit run that parses back to that number |
| `CountArgs.ParseCount` | tail/tail.rs:141-159 | `parse_count` gives a result exactly when the argument is longer than one character, starts with `-` or `+`, and the rest is digits; `-` gives FromEnd, `+` gives FromBeginning, and the count is the rest's value |
| `CountArgs.ParseCountRoundTrip` | tail/tail.rs:141-159 | writing any anchor and count as `-K` or `+K` and parsing it gives back that anchor and count |
| `CountArgs.ParseCountRejects` | tail/tail.rs:142-148 | `-`, `+`, `-n`, `-c` and any unsigned number are not counts |
| `CountArgs.LeadingMode` | tail/tail.rs:94-110 | a mode is taken only from a count argument at index 1, always with the Lines unit, and with the anchor and count that `parse_count` gives |
| `CountArgs.PreprocessArgs` | tail/tail.rs:86-139 | the result is `Err(1)` exactly when a count argument stands at some index other than 1; a count argument is one that does not follow a literal `-c` or `-n`; on success the odd-option mode is the leading count's and the arguments are the input without that one count argument, in order |
| `CountArgs.OnlyLeadingCountRemoved` | tail/tail.rs:92-128 | when no misplaced count argument exists, the filter removes only the leading count argument (if any) and keeps every other argument in its original order |
| `CountArgs.ConfigFromMatches` | tail/tail.rs:161-198 | the files are the free arguments; headers are printed exactly when there is more than one file; a leading count overrides everything; a parseable `-n` value gives a Lines mode with its anchor and count; a missing or unparseable one gives `{Lines, FromEnd, 10}` |
| `CountArgs.UnsignedLinesValueFallsBack` | tail/tail.rs:165-176 | `-n K` with an unsigned number K resolves to the default mode |
| `Extract.LineStartStep` | tail/tail.rs:244-245 | the start of line i+1 is the start of line i plus the byte length of line i |
| `Extract.LineOffsets` | tail/tail.rs:237-246 | the index has one entry per line; entry i is the byte position at which line i begins; the entries are prefix sums starting at 0, and they strictly increase when no line is empty |
| `Extract.FirstLineOffset` | tail/tail.rs:248-250 | a start offset exists exactly when the count is positive; with a zero count the index is out of range |
| `Extract.SeekSelectsLastLines` | tail/tail.rs:248-263 | for a positive count, the start offset lies within the file, and the bytes from it to the end are exactly the last `min(L, count)` lines |
| `Extract.TailStream` | tail/tail.rs:273-295 | for Lines, the output is the concatenation of the last `count` lines, or of every line when `count` is 0, whatever the anchor; a read error prints nothing and fails; for Bytes nothing is printed and the result is success |
| `Extract.TailFile` | tail/tail.rs:227-266 | an open failure or a read error in Lines mode fails; Lines from the end prints the last `count` lines, or panics for a zero count; every other mode gives the stream path's result |
| `Extract.SeekableAgreesWithWindow` | tail/tail.rs:275-290 | for a positive count, copying from the seekable start offset prints the same bytes as draining the window |
| `Extract.FinalLinePrintedVerbatim` | tail/tail.rs:260-263 | for any input and positive count, the printed bytes end with the input's last line exactly as read, terminator or not |
| `Extract.NoNewlineAddedAtEnd` | tail/tail.rs:260-263 | when the input's last line has no terminator, the last printed byte is not a newline |
| `Extract.FinalLineWithoutNewline` | tail/tail.rs:260-263 | an instance: the bytes `x\ny\nz` form three lines, and a count of 1 prints `z` |
| `TailBase.WindowStep` | tail/tail.rs:277-283 | reading one more line evicts the oldest kept line exactly when the window holds `count` lines and is non-empty, then appends the new line |
| `TailBase.WindowBound` | tail/tail.rs:279-282 | for a positive count the window never holds more than `count` lines |
| `TailBase.LastLinesShape` | tail/tail.rs:248-250 | the selection is a suffix of the input of length `min(L, count)`, and it is the whole input when `count >= L` |
| `Deque.RingBuf.WithCapacity` | tail/tail.rs:275 | a new deque is empty and has room for the requested capacity |
| `Deque.RingBuf.Length` | tail/tail.rs:279 | the length is the number of queued lines |
| `Deque.RingBuf.PushBack` | tail/tail.rs:282 | pushing appends the element at the back and keeps the ring invariant, growing the array when it is full |
| `Deque.RingBuf.PopFront` | tail/tail.rs:280 | popping a non-empty deque returns its oldest element and removes it; popping an empty one returns nothing and changes nothing |

## Left out

- `main`, `uumain` and `print_usage`: exit status, help and version text, and the call into the option-parsing library, which cannot be seen. The library's result is the `Matches` value.
- `run`: the blank separator lines, the `==> name <==` headers, and the early `Err(1)` on the first failing file. This is output plumbing around one `tail_file` call per file.
- `tail_stdin`: it only hands standard input to the stream extractor, which is modelled.
- The error message printed for a misplaced count argument. It goes to standard error; only the `Err(1)` status is modelled.
- Real files, buffered readers and seeking. A source is a line sequence, and seeking then reading to the end is a byte suffix. The seek-from-end branch is dead, because a file offset cast to `i64` is never negative in practice.
- `Extract.TailFile`: does not model a read or seek error during the second pass. Read errors are modelled as a property of the file, which the first pass already meets.
- `CountArgs.ParseUnsigned`: does not model overflow of the machine-word `from_str`. A digit run of any length is accepted as its natural-number value, and `count` is unbounded.
- `CountArgs.ParseUnsigned`: the library number parser is reduced to plain digit runs. Its acceptance of a leading `+` (so that `-+5` or `++5` would be a count) is not modelled.
- `Extract.LineOffsets`: does not model wrap-around of the 64-bit offset accumulator.
- `Extract.TailStream`: does not model the up-front allocation of `count` slots by `RingBuf::with_capacity`, nor its failure (capacity overflow or out of memory) for a huge count such as `+1000000000000000000`.
- `Deque.RingBuf.PushBack`: does not reproduce the library's growth factor. The new capacity is not observable by `tail`.
- The arguments are modelled as character strings. `parse_count` tests byte length and the first byte, but for every argument this gives the same answer as testing character length and the first character.
