/**
 * A line-oriented reader over a finite stream: the engine's standard output
 * and the PGN file are both read with `BufRead::read_line`. The stream is a
 * sequence of lines, each as `read_line` delivers it (terminator included);
 * reading past the last one is end of file.
 */
module LineIo {
  import opened Wrappers

  class LineReader {
    /** Every line the stream will ever deliver, in order. */
    const lines: seq<string>
    /** How many of them have been consumed. */
    var pos: nat

    /** The cursor is inside the stream, and no line is empty: a read of zero bytes is end of file. */
    ghost predicate Valid()
      reads this
    {
      pos <= |lines| && forall i :: 0 <= i < |lines| ==> lines[i] != []
    }

    constructor (lines: seq<string>)
      requires forall i :: 0 <= i < |lines| ==> lines[i] != []
      ensures Valid() && this.lines == lines && pos == 0
    {
      this.lines := lines;
      pos := 0;
    }

    /** `BufRead::read_line`: the next line, or None once the stream is exhausted (zero bytes read). */
    method ReadLine() returns (line: Option<string>)
      requires Valid()
      modifies this
      ensures Valid()
      ensures old(pos) < |lines| ==> line == Some(lines[old(pos)]) && pos == old(pos) + 1
      ensures old(pos) == |lines| ==> line == None && pos == old(pos)
    {
      if pos < |lines| {
        line := Some(lines[pos]);
        pos := pos + 1;
      } else {
        line := None;
      }
    }
  }
}
