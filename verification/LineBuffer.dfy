/** Printing a run's log stream (cli/src/commands/heartbeat-run.ts): standard output arrives in arbitrary
    chunks and is formatted line by line. */
module LineBuffer {
  import opened Basics
  import opened Text

  /* ---- `split(/\r?\n/)` ---- */

  predicate OneLine(s: string) {
    forall i :: 0 <= i < |s| ==> s[i] != '\n'
  }

  /** Where the first newline is; the length when there is none. */
  function FirstNewline(s: string): (at: nat)
    ensures at <= |s| && OneLine(s[..at]) && (at < |s| ==> s[at] == '\n')
  {
    if s == "" || s[0] == '\n' then 0 else 1 + FirstNewline(s[1..])
  }

  function DropReturn(s: string): string {
    if s != "" && s[|s| - 1] == '\r' then s[..|s| - 1] else s
  }

  function Pieces(s: string): (pieces: seq<string>)
    ensures pieces != []
    decreases |s|
  {
    var at := FirstNewline(s);
    if at == |s| then [s] else [DropReturn(s[..at])] + Pieces(s[at + 1..])
  }

  function Front(pieces: seq<string>): seq<string>
    requires pieces != []
  {
    pieces[..|pieces| - 1]
  }

  function Last(pieces: seq<string>): string
    requires pieces != []
  {
    pieces[|pieces| - 1]
  }

  lemma {:induction false} FirstNewlineIn(line: string, s: string)
    requires OneLine(line)
    ensures FirstNewline(line + s) == |line| + FirstNewline(s)
  {
    if line == "" {
      assert line + s == s;
    } else {
      assert (line + s)[1..] == line[1..] + s;
      FirstNewlineIn(line[1..], s);
    }
  }

  lemma PiecesOfLine(line: string, s: string)
    requires OneLine(line)
    ensures Pieces(line + "\n" + s) == [DropReturn(line)] + Pieces(s)
  {
    var all := line + ("\n" + s);
    FirstNewlineIn(line, "\n" + s);
    assert all == line + "\n" + s && all[..|line|] == line && all[|line| + 1..] == s;
  }

  lemma CutAround(s: string, at: nat)
    requires at < |s| && s[at] == '\n'
    ensures s == s[..at] + "\n" + s[at + 1..]
  {
  }

  /** No piece holds a newline. */
  lemma {:induction false} PiecesAreLines(s: string, k: nat)
    requires k < |Pieces(s)|
    ensures OneLine(Pieces(s)[k])
    decreases |s|
  {
    var at := FirstNewline(s);
    if at == |s| {
      assert s[..at] == s;
    } else if k > 0 {
      PiecesAreLines(s[at + 1..], k - 1);
    }
  }

  lemma LineThenMore(line: string, rest: string, more: string)
    ensures line + "\n" + rest + more == line + "\n" + (rest + more)
  {
  }

  lemma AppendToLine(line: string, rest: string, more: string, after: seq<string>)
    requires OneLine(line)
    requires Pieces(rest + more) == Front(Pieces(rest)) + after
    ensures Pieces(line + "\n" + rest + more) == Front(Pieces(line + "\n" + rest)) + after
    ensures Last(Pieces(line + "\n" + rest)) == Last(Pieces(rest))
  {
    PiecesOfLine(line, rest);
    PiecesOfLine(line, rest + more);
    LineThenMore(line, rest, more);
    FrontCons(DropReturn(line), Pieces(rest), after);
  }

  /** What was cut off the end of a text is where splitting takes up again. */
  lemma {:induction false} PiecesAppend(s: string, more: string)
    ensures Pieces(s + more) == Front(Pieces(s)) + Pieces(Last(Pieces(s)) + more)
    decreases |s|
  {
    var at := FirstNewline(s);
    if at < |s| {
      CutAround(s, at);
      PiecesAppend(s[at + 1..], more);
      AppendToLine(s[..at], s[at + 1..], more, Pieces(Last(Pieces(s[at + 1..])) + more));
    } else {
      assert Pieces(s) == [s] && Front([s]) == [];
      assert [] + Pieces(s + more) == Pieces(s + more);
    }
  }

  lemma FrontCons(first: string, pieces: seq<string>, after: seq<string>)
    requires pieces != []
    ensures Front([first] + pieces) + after == [first] + (Front(pieces) + after)
    ensures Last([first] + pieces) == Last(pieces)
  {
  }

  /** Splitting is what normalising line ends and joining again undoes. */
  function Unified(s: string): string {
    if s == "" then ""
    else if |s| > 1 && s[0] == '\r' && s[1] == '\n' then Unified(s[1..])
    else [s[0]] + Unified(s[1..])
  }

  function JoinLines(pieces: seq<string>): string {
    if pieces == [] then ""
    else if |pieces| == 1 then pieces[0]
    else pieces[0] + "\n" + JoinLines(pieces[1..])
  }

  lemma {:induction false} UnifiedWithin(line: string)
    requires OneLine(line)
    ensures Unified(line) == line
  {
    if line != "" {
      UnifiedWithin(line[1..]);
      assert line == [line[0]] + line[1..];
    }
  }

  lemma {:induction false} UnifiedLine(line: string, s: string)
    requires OneLine(line)
    ensures Unified(line + ("\n" + s)) == DropReturn(line) + ("\n" + Unified(s))
  {
    if line == "" {
      assert line + ("\n" + s) == "\n" + s && ("\n" + s)[1..] == s;
      assert DropReturn(line) + ("\n" + Unified(s)) == "\n" + Unified(s);
    } else {
      UnifiedLine(line[1..], s);
      assert (line + ("\n" + s))[1..] == line[1..] + ("\n" + s);
      if |line| == 1 { LastCharacter(line, s); } else { InnerCharacter(line, s); }
    }
  }

  lemma LastCharacter(line: string, s: string)
    requires |line| == 1 && line[0] != '\n'
    ensures (line + ("\n" + s))[0] == line[0] && (line + ("\n" + s))[1] == '\n' && line[1..] == ""
    ensures DropReturn(line) + ("\n" + Unified(s)) == (if line[0] == '\r' then "" else [line[0]]) + ("\n" + Unified(s))
    ensures DropReturn("") + ("\n" + Unified(s)) == "" + ("\n" + Unified(s)) == "\n" + Unified(s)
    ensures [line[0]] == line
  {
  }

  lemma InnerCharacter(line: string, s: string)
    requires |line| > 1 && OneLine(line)
    ensures (line + ("\n" + s))[0] == line[0] && (line + ("\n" + s))[1] == line[1] != '\n'
    ensures DropReturn(line) + ("\n" + Unified(s)) == [line[0]] + (DropReturn(line[1..]) + ("\n" + Unified(s)))
  {
    DropReturnTail(line);
    assert [line[0]] + DropReturn(line[1..]) + ("\n" + Unified(s))
      == [line[0]] + (DropReturn(line[1..]) + ("\n" + Unified(s)));
  }

  lemma DropReturnTail(line: string)
    requires |line| > 1
    ensures DropReturn(line) == [line[0]] + DropReturn(line[1..])
  {
  }

  lemma {:induction false} JoinedPieces(s: string)
    ensures JoinLines(Pieces(s)) == Unified(s)
    decreases |s|
  {
    var at := FirstNewline(s);
    if at < |s| {
      CutAround(s, at);
      JoinedPieces(s[at + 1..]);
      JoinedLine(s[..at], s[at + 1..]);
    } else {
      assert s[..at] == s;
      UnifiedWithin(s);
    }
  }

  lemma JoinedLine(line: string, rest: string)
    requires OneLine(line) && JoinLines(Pieces(rest)) == Unified(rest)
    ensures JoinLines(Pieces(line + "\n" + rest)) == Unified(line + "\n" + rest)
  {
    PiecesOfLine(line, rest);
    UnifiedLine(line, rest);
    JoinFirst(DropReturn(line), Pieces(rest));
    LineEnd(line, rest);
    LineEnd(DropReturn(line), Unified(rest));
  }

  lemma LineEnd(line: string, rest: string)
    ensures line + "\n" + rest == line + ("\n" + rest)
  {
  }

  lemma JoinFirst(line: string, pieces: seq<string>)
    requires pieces != []
    ensures JoinLines([line] + pieces) == line + "\n" + JoinLines(pieces)
  {
    assert ([line] + pieces)[1..] == pieces;
  }

  /* ---- any cutting of a stream ---- */

  function Concat(chunks: seq<string>): string {
    if chunks == [] then "" else Concat(chunks[..|chunks| - 1]) + chunks[|chunks| - 1]
  }

  /** Lines emitted and text held back after some chunks. */
  function Fed(chunks: seq<string>): (seq<string>, string) {
    if chunks == [] then ([], "")
    else
      var before := Fed(chunks[..|chunks| - 1]);
      var pieces := Pieces(before.1 + chunks[|chunks| - 1]);
      (before.0 + Front(pieces), Last(pieces))
  }

  lemma {:induction false} FedIsSplit(chunks: seq<string>)
    ensures Fed(chunks).0 + [Fed(chunks).1] == Pieces(Concat(chunks))
  {
    if chunks != [] {
      var before, chunk := chunks[..|chunks| - 1], chunks[|chunks| - 1];
      FedIsSplit(before);
      Resumes(Fed(before).0, Fed(before).1, Concat(before), chunk);
    }
  }

  /** One more chunk, given the lines and the held-back text of what came before. */
  lemma Resumes(lines: seq<string>, buffer: string, received: string, chunk: string)
    requires lines + [buffer] == Pieces(received)
    ensures var pieces := Pieces(buffer + chunk);
      lines + Front(pieces) + [Last(pieces)] == Pieces(received + chunk)
  {
    PiecesAppend(received, chunk);
    FrontLast(lines, buffer);
    Regroup(lines, Pieces(buffer + chunk));
  }

  lemma FrontLast(lines: seq<string>, buffer: string)
    ensures Front(lines + [buffer]) == lines && Last(lines + [buffer]) == buffer
  {
  }

  lemma Regroup(lines: seq<string>, pieces: seq<string>)
    requires pieces != []
    ensures lines + Front(pieces) + [Last(pieces)] == lines + pieces
  {
    assert pieces == Front(pieces) + [Last(pieces)];
  }

  /** How a stream was cut into chunks cannot be told from what was emitted. */
  lemma CutsAgree(one: seq<string>, other: seq<string>)
    requires Concat(one) == Concat(other)
    ensures Fed(one) == Fed(other)
  {
    FedIsSplit(one);
    FedIsSplit(other);
    FrontLast(Fed(one).0, Fed(one).1);
    FrontLast(Fed(other).0, Fed(other).1);
  }

  /* ---- the handler ---- */

  datatype Stream = Stdout | Stderr | System

  /** What reaches the terminal: a line handed to the adapter's formatter, or a chunk as it came. */
  datatype Output = Formatted(line: string) | Raw(stream: Stream, chunk: string)

  function FormattedLines(outputs: seq<Output>): seq<string> {
    if outputs == [] then []
    else
      var before, last := FormattedLines(outputs[..|outputs| - 1]), outputs[|outputs| - 1];
      if last.Formatted? then before + [last.line] else before
  }

  function RawOutputs(outputs: seq<Output>): seq<Output> {
    if outputs == [] then []
    else
      var before, last := RawOutputs(outputs[..|outputs| - 1]), outputs[|outputs| - 1];
      if last.Raw? then before + [last] else before
  }

  lemma OutputStep(outputs: seq<Output>, last: Output)
    ensures FormattedLines(outputs + [last]) == FormattedLines(outputs) + (if last.Formatted? then [last.line] else [])
    ensures RawOutputs(outputs + [last]) == RawOutputs(outputs) + (if last.Raw? then [last] else [])
  {
    AppendShift(outputs, last, []);
  }

  class StreamPrinter {
    const debug: bool
    var stdoutJsonBuffer: string
    var outputs: seq<Output>
    /** All standard output received outside debug mode. */
    ghost var received: string

    /** The lines formatted so far and the held-back text are the split of everything received. */
    ghost predicate Valid()
      reads this
    {
      FormattedLines(outputs) + [stdoutJsonBuffer] == Pieces(received)
    }

    constructor (debug: bool)
      ensures Valid() && this.debug == debug && outputs == [] && received == ""
    {
      this.debug := debug;
      stdoutJsonBuffer, outputs, received := "", [], "";
    }

    method HandleStreamChunk(stream: Stream, chunk: string)
      requires Valid()
      modifies this
      ensures Valid()
      ensures debug || stream != Stdout ==>
        received == old(received) && stdoutJsonBuffer == old(stdoutJsonBuffer)
          && outputs == old(outputs) + [Raw(stream, chunk)]
      ensures !debug && stream == Stdout ==>
        received == old(received) + chunk && RawOutputs(outputs) == RawOutputs(old(outputs)) && old(outputs) <= outputs
    {
      if debug || stream != Stdout {
        OutputStep(outputs, Raw(stream, chunk));
        outputs := outputs + [Raw(stream, chunk)];
        return;
      }
      var lines := Pieces(stdoutJsonBuffer + chunk);
      Resumes(FormattedLines(outputs), stdoutJsonBuffer, received, chunk);
      stdoutJsonBuffer := Last(lines);
      lines := Front(lines);
      FormatAll(lines);
      received := received + chunk;
    }

    method FormatAll(lines: seq<string>)
      modifies `outputs
      ensures FormattedLines(outputs) == FormattedLines(old(outputs)) + lines
      ensures RawOutputs(outputs) == RawOutputs(old(outputs)) && old(outputs) <= outputs
    {
      for i := 0 to |lines|
        invariant FormattedLines(outputs) == FormattedLines(old(outputs)) + lines[..i]
        invariant RawOutputs(outputs) == RawOutputs(old(outputs)) && old(outputs) <= outputs
      {
        PrefixStep(lines, i);
        OutputStep(outputs, Formatted(lines[i]));
        outputs := outputs + [Formatted(lines[i])];
      }
      assert lines[..|lines|] == lines;
    }

    /** At the end of the run a last line without a line end is formatted too, unless it is blank. */
    method Finish()
      requires Valid() && !debug
      modifies this
      ensures FormattedLines(outputs)
           == if Blank(Last(Pieces(received))) then Front(Pieces(received)) else Pieces(received)
      ensures received == old(received) && RawOutputs(outputs) == RawOutputs(old(outputs)) && old(outputs) <= outputs
    {
      FrontLast(FormattedLines(outputs), stdoutJsonBuffer);
      OutputStep(outputs, Formatted(stdoutJsonBuffer));
      if !Blank(stdoutJsonBuffer) {
        outputs := outputs + [Formatted(stdoutJsonBuffer)];
        stdoutJsonBuffer := "";
      }
    }
  }
}
