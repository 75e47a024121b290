/** The file a backup writes and the statements a restore runs from it (packages/db/src/backup-lib.ts). */
module BackupFile {
  import opened Basics
  import opened Text
  import opened BackupText

  const BREAKPOINT := "-- paperclip statement breakpoint " + "69f6f3f1-42fd-46a6-bf17-d1d85f8f3900"

  /** What the backup code emits: a bare line, or a statement with its breakpoint. A bare line may be the
      breakpoint itself: that is how a table's definition, emitted in several lines, is ended. */
  datatype Emission = Line(text: string) | Statement(text: string)

  function LinesOf(emissions: seq<Emission>, sep: string): seq<string> {
    if emissions == [] then []
    else
      (match emissions[0] case Line(text) => [text] case Statement(text) => [text, sep]) + LinesOf(emissions[1..], sep)
  }

  function FileText(lines: seq<string>): string {
    if lines == [] then "" else lines[0] + "\n" + FileText(lines[1..])
  }

  /** `split` on a nonempty separator. */
  function Split(s: string, sep: string): (pieces: seq<string>)
    requires sep != ""
    ensures pieces != []
    decreases |s|
  {
    var at := IndexOf(s, sep);
    if at.None? then [s] else [s[..at.value]] + Split(s[at.value + |sep|..], sep)
  }

  /** A text as it is restored: trimmed, and not at all when blank. */
  function Shown(text: string): seq<string> {
    if Trim(text) == "" then [] else [Trim(text)]
  }

  /** `map` to trimmed pieces, `filter` out the empty ones. */
  function Restored(pieces: seq<string>): seq<string> {
    if pieces == [] then []
    else Shown(pieces[0]) + Restored(pieces[1..])
  }

  /** What a restore should run: every statement, in order, after the lines emitted since the breakpoint before. */
  function Expected(pending: string, emissions: seq<Emission>, sep: string): seq<string>
    decreases |emissions|
  {
    if emissions == [] then Shown(pending)
    else
      match emissions[0]
      case Line(text) =>
        if text == sep then Shown(pending) + Expected("", emissions[1..], sep)
        else Expected(pending + (text + "\n"), emissions[1..], sep)
      case Statement(text) => [TrimStart(pending) + text] + Expected("", emissions[1..], sep)
  }

  /** The line list the backup closure fills. */
  class Writer {
    var lines: seq<string>
    ghost var emissions: seq<Emission>

    ghost predicate Valid()
      reads this
    {
      lines == LinesOf(emissions, BREAKPOINT)
    }

    constructor ()
      ensures Valid() && emissions == []
    {
      lines, emissions := [], [];
    }

    method Emit(line: string)
      requires Valid()
      modifies this
      ensures Valid() && emissions == old(emissions) + [Line(line)]
    {
      EmittedLast(emissions, Line(line), BREAKPOINT);
      lines := lines + [line];
      emissions := emissions + [Line(line)];
    }

    method EmitStatement(statement: string)
      requires Valid()
      modifies this
      ensures Valid() && emissions == old(emissions) + [Statement(statement)]
    {
      EmittedLast(emissions, Statement(statement), BREAKPOINT);
      lines := lines + [statement];
      lines := lines + [BREAKPOINT];
      emissions := emissions + [Statement(statement)];
      assert [statement] + [BREAKPOINT] == [statement, BREAKPOINT];
    }

    /** Every line, each followed by a newline. */
    method Contents() returns (text: string)
      ensures text == FileText(lines)
    {
      text := "";
      for i := 0 to |lines|
        invariant FileText(lines) == text + FileText(lines[i..])
      {
        assert lines[i..][1..] == lines[i + 1..];
        text := text + lines[i];
        text := text + "\n";
      }
    }
  }

  lemma {:induction false} EmittedLast(emissions: seq<Emission>, last: Emission, sep: string)
    ensures LinesOf(emissions + [last], sep)
         == LinesOf(emissions, sep) + (match last case Line(text) => [text] case Statement(text) => [text, sep])
  {
    if emissions == [] {
      assert emissions + [last] == [last];
    } else {
      assert (emissions + [last])[1..] == emissions[1..] + [last];
      EmittedLast(emissions[1..], last, sep);
    }
  }

  /** The statements a restore executes, in order. */
  method StatementsOf(contents: string, sep: string) returns (statements: seq<string>)
    requires sep != ""
    ensures statements == Restored(Split(contents, sep))
  {
    statements := Nonblank(Split(contents, sep));
  }

  method Nonblank(pieces: seq<string>) returns (statements: seq<string>)
    ensures statements == Restored(pieces)
  {
    statements := [];
    for i := 0 to |pieces|
      invariant Restored(pieces) == statements + Restored(pieces[i..])
    {
      var statement := Trim(pieces[i]);
      RestoredStep(pieces, i, statement);
      AppendShift(statements, statement, Restored(pieces[i + 1..]));
      if |statement| > 0 { statements := statements + [statement]; }
    }
  }

  lemma RestoredStep(pieces: seq<string>, i: nat, statement: string)
    requires i < |pieces| && statement == Trim(pieces[i])
    ensures statement == "" ==> Restored(pieces[i..]) == Restored(pieces[i + 1..])
    ensures statement != "" ==> Restored(pieces[i..]) == [statement] + Restored(pieces[i + 1..])
  {
    assert pieces[i..][1..] == pieces[i + 1..];
  }

  /* ---- splitting the file ---- */

  function Onto(before: string, pieces: seq<string>): seq<string>
    requires pieces != []
  {
    [before + pieces[0]] + pieces[1..]
  }

  lemma ShiftedOccurrence(head: string, s: string, sep: string, i: nat)
    ensures OccursAt(head + s, sep, |head| + i) <==> OccursAt(s, sep, i)
  {
    if i <= |s| - |sep| {
      assert (head + s)[|head| + i..|head| + i + |sep|] == s[i..i + |sep|];
    }
  }

  lemma NotAcrossNewline(line: string, s: string, sep: string, i: nat)
    requires i < |line + "\n"| && sep != "" && OccursAt(line + "\n" + s, sep, i)
    ensures Includes(line, sep) || '\n' in sep
  {
    var all := line + "\n" + s;
    if i + |sep| > |line| {
      assert all[i..i + |sep|][|line| - i] == all[|line|] == '\n';
      assert sep[|line| - i] in sep;
    } else {
      assert line[i..i + |sep|] == all[i..i + |sep|];
      assert OccursAt(line, sep, i);
    }
  }

  /** After a whole line free of the separator, the next separator is where the rest has it. */
  lemma FirstAfterLine(line: string, s: string, sep: string, k: nat)
    requires sep != "" && '\n' !in sep && !Includes(line, sep)
    requires forall j :: 0 <= j < k ==> !OccursAt(s, sep, j)
    ensures forall i :: 0 <= i < |line + "\n"| + k ==> !OccursAt(line + "\n" + s, sep, i)
  {
    var all, head := line + "\n" + s, line + "\n";
    forall i: nat | i < |head| + k ensures !OccursAt(all, sep, i) {
      if i >= |head| {
        ShiftedOccurrence(head, s, sep, i - |head|);
      } else if OccursAt(all, sep, i) {
        NotAcrossNewline(line, s, sep, i);
      }
    }
  }

  function Later(at: Option<nat>, shift: nat): Option<nat> {
    if at.None? then None else Some(shift + at.value)
  }

  lemma IndexAfterLine(line: string, s: string, sep: string)
    requires sep != "" && '\n' !in sep && !Includes(line, sep)
    ensures IndexOf(line + "\n" + s, sep)
         == Later(IndexOf(s, sep), |line + "\n"|)
  {
    IndexOfFirst(s, sep);
    IndexOfFirst(line + "\n" + s, sep);
    match IndexOf(s, sep)
    case None =>
      FirstAfterLine(line, s, sep, |s| + 1);
      assert !Includes(line + "\n" + s, sep);
    case Some(k) =>
      FirstAfterLine(line, s, sep, k);
      ShiftedOccurrence(line + "\n", s, sep, k);
      IndexOfIs(line + "\n" + s, sep, |line + "\n"| + k);
  }

  /** A whole line free of the separator only lengthens the first piece. */
  lemma SplitAfterLine(line: string, s: string, sep: string)
    requires sep != "" && '\n' !in sep && !Includes(line, sep)
    ensures Split(line + "\n" + s, sep) == Onto(line + "\n", Split(s, sep))
  {
    IndexAfterLine(line, s, sep);
    SplitLonger(line + "\n", s, sep);
  }

  lemma SplitLonger(head: string, s: string, sep: string)
    requires sep != "" && IndexOf(head + s, sep) == Later(IndexOf(s, sep), |head|)
    ensures Split(head + s, sep) == Onto(head, Split(s, sep))
  {
    if IndexOf(s, sep).None? {
      SplitWhole(s, sep);
      SplitWhole(head + s, sep);
    } else {
      CutLonger(head, s, sep, IndexOf(s, sep).value);
    }
  }

  lemma CutLonger(head: string, s: string, sep: string, k: nat)
    requires sep != "" && IndexOf(s, sep) == Some(k) && IndexOf(head + s, sep) == Some(|head| + k)
    ensures Split(head + s, sep) == Onto(head, Split(s, sep))
  {
    var rest := s[k + |sep|..];
    CutAfter(head, s, k, |sep|);
    SplitAt(s, sep, k, rest);
    SplitAt(head + s, sep, |head| + k, rest);
    OntoFirst(head, s[..k], Split(rest, sep));
  }

  lemma OntoFirst(head: string, piece: string, pieces: seq<string>)
    ensures Onto(head, [piece] + pieces) == [head + piece] + pieces
  {
  }

  lemma SplitWhole(s: string, sep: string)
    requires sep != "" && IndexOf(s, sep).None?
    ensures Split(s, sep) == [s]
  {
  }

  lemma SplitAt(s: string, sep: string, k: nat, rest: string)
    requires sep != "" && IndexOf(s, sep) == Some(k) && rest == s[k + |sep|..]
    ensures Split(s, sep) == [s[..k]] + Split(rest, sep)
  {
  }

  lemma CutAfter(head: string, s: string, k: nat, skip: nat)
    requires k + skip <= |s|
    ensures (head + s)[..|head| + k] == head + s[..k]
    ensures (head + s)[|head| + k + skip..] == s[k + skip..]
  {
  }

  lemma SplitAtSeparator(s: string, sep: string)
    requires sep != ""
    ensures Split(sep + s, sep) == [""] + Split(s, sep)
  {
    assert (sep + s)[0..|sep|] == sep;
    IndexOfIs(sep + s, sep, 0);
    assert (sep + s)[|sep|..] == s;
  }

  lemma SplitAfterNewline(s: string, sep: string)
    requires sep != "" && '\n' !in sep
    ensures Split("\n" + s, sep) == Onto("\n", Split(s, sep))
  {
    assert "" + "\n" + s == "\n" + s;
    assert "" + "\n" == "\n";
    SplitAfterLine("", s, sep);
  }

  /* ---- trimming the pieces ---- */

  lemma TrimEndNewline(s: string)
    requires s != "" && !IsSpace(s[|s| - 1])
    ensures TrimEnd(s + "\n") == s && TrimEnd(s) == s
  {
    assert (s + "\n")[..|s|] == s;
  }

  lemma TrimStatement(pending: string, statement: string)
    requires Proper(statement)
    ensures Trim(pending + (statement + "\n")) == TrimStart(pending) + statement
  {
    TrimStartOnto(pending, statement + "\n");
    TrimEndNewline(TrimStart(pending) + statement);
    assert TrimStart(pending) + (statement + "\n") == TrimStart(pending) + statement + "\n";
  }

  /** The newline left behind a breakpoint is trimmed away again. */
  lemma {:induction false} LeadingNewline(pending: string, emissions: seq<Emission>, sep: string)
    ensures Expected("\n" + pending, emissions, sep) == Expected(pending, emissions, sep)
    decreases |emissions|
  {
    assert ("\n" + pending)[1..] == pending;
    assert TrimStart("\n" + pending) == TrimStart(pending);
    if emissions != [] && emissions[0].Line? {
      var text := emissions[0].text;
      assert "\n" + pending + (text + "\n") == "\n" + (pending + (text + "\n"));
      LeadingNewline(pending + (text + "\n"), emissions[1..], sep);
    }
  }

  /* ---- the round trip ---- */

  /** What a file can be cut at: not a newline, and nothing that trimming would touch. */
  predicate Breaks(sep: string) {
    Proper(sep) && '\n' !in sep
  }

  /** Statements are nonblank and trimmed. */
  ghost predicate Trimmed(emissions: seq<Emission>) {
    forall e :: e in emissions && e.Statement? ==> Proper(e.text)
  }

  /** Only whole breakpoint lines contain the separator. */
  ghost predicate Separable(emissions: seq<Emission>, sep: string) {
    forall e :: e in emissions ==> e == Line(sep) || !Includes(e.text, sep)
  }

  function FileOf(emissions: seq<Emission>, sep: string): string {
    FileText(LinesOf(emissions, sep))
  }

  lemma OntoOnto(a: string, b: string, pieces: seq<string>)
    requires pieces != []
    ensures Onto(a, Onto(b, pieces)) == Onto(a + b, pieces)
  {
    assert a + (b + pieces[0]) == a + b + pieces[0];
  }

  /** The pieces of a breakpoint line and the rest. */
  lemma SplitBreak(rest: string, sep: string)
    requires Breaks(sep)
    ensures Split(sep + "\n" + rest, sep) == [""] + Onto("\n", Split(rest, sep))
  {
    assert sep + "\n" + rest == sep + ("\n" + rest);
    SplitAtSeparator("\n" + rest, sep);
    SplitAfterNewline(rest, sep);
  }

  /** The pieces of a statement, its breakpoint line and the rest. */
  lemma SplitStatement(statement: string, rest: string, sep: string)
    requires Breaks(sep) && !Includes(statement, sep)
    ensures Split(statement + "\n" + (sep + "\n" + rest), sep) == [statement + "\n"] + Onto("\n", Split(rest, sep))
  {
    SplitAfterLine(statement, sep + "\n" + rest, sep);
    SplitBreak(rest, sep);
    assert statement + "\n" + "" == statement + "\n";
  }

  /** With text pending before it, the file written from the emissions restores as expected. */
  lemma {:induction false} PendingFileInverts(pending: string, emissions: seq<Emission>, sep: string)
    requires Breaks(sep) && Trimmed(emissions) && Separable(emissions, sep)
    ensures Restored(Onto(pending, Split(FileOf(emissions, sep), sep))) == Expected(pending, emissions, sep)
    decreases |emissions|, 0
  {
    if emissions == [] {
      EmptyFile(pending, sep);
    } else {
      var text, rest := emissions[0].text, FileOf(emissions[1..], sep);
      assert emissions[0] in emissions;
      if emissions[0].Statement? {
        AfterBreak(emissions[1..], sep);
        FileOfStatement(text, sep, LinesOf(emissions[1..], sep));
        SplitStatement(text, rest, sep);
        StatementPiece(pending, text, Onto("\n", Split(rest, sep)));
      } else if text == sep {
        AfterBreak(emissions[1..], sep);
        FileOfLine(sep, LinesOf(emissions[1..], sep));
        SplitBreak(rest, sep);
        PendingPiece(pending, Onto("\n", Split(rest, sep)));
      } else {
        PendingFileInverts(pending + (text + "\n"), emissions[1..], sep);
        FileOfLine(text, LinesOf(emissions[1..], sep));
        SplitAfterLine(text, rest, sep);
        OntoOnto(pending, text + "\n", Split(rest, sep));
      }
    }
  }

  lemma {:induction false} AfterBreak(emissions: seq<Emission>, sep: string)
    requires Breaks(sep) && Trimmed(emissions) && Separable(emissions, sep)
    ensures Restored(Onto("\n", Split(FileOf(emissions, sep), sep))) == Expected("", emissions, sep)
    decreases |emissions|, 1
  {
    PendingFileInverts("\n", emissions, sep);
    LeadingNewline("", emissions, sep);
    assert "\n" + "" == "\n";
  }

  lemma EmptyFile(pending: string, sep: string)
    requires sep != ""
    ensures Restored(Onto(pending, Split("", sep))) == Shown(pending)
  {
    IndexOfFirst("", sep);
    assert !Includes("", sep);
    assert pending + "" == pending;
    assert Onto(pending, [""]) == [pending];
  }

  lemma FileOfLine(line: string, lines: seq<string>)
    ensures FileText([line] + lines) == line + "\n" + FileText(lines)
  {
    assert ([line] + lines)[1..] == lines;
  }

  lemma FileOfStatement(statement: string, sep: string, lines: seq<string>)
    ensures FileText([statement, sep] + lines) == statement + "\n" + (sep + "\n" + FileText(lines))
  {
    assert [statement, sep] + lines == [statement] + ([sep] + lines);
    FileOfLine(statement, [sep] + lines);
    FileOfLine(sep, lines);
  }

  lemma StatementPiece(pending: string, statement: string, pieces: seq<string>)
    requires Proper(statement) && pieces != []
    ensures Restored(Onto(pending, [statement + "\n"] + pieces)) == [TrimStart(pending) + statement] + Restored(pieces)
  {
    TrimStatement(pending, statement);
    var all := Onto(pending, [statement + "\n"] + pieces);
    assert all[0] == pending + (statement + "\n") && all[1..] == pieces;
  }

  lemma PendingPiece(pending: string, pieces: seq<string>)
    ensures Restored(Onto(pending, [""] + pieces)) == Shown(pending) + Restored(pieces)
  {
    var all := Onto(pending, [""] + pieces);
    assert all[0] == pending + "" == pending && all[1..] == pieces;
  }

  /* ---- where it fails ---- */

  lemma IncludesWithin(before: string, text: string, after: string, sep: string)
    requires Includes(text, sep)
    ensures Includes(before + text + after, sep)
  {
    var i :| 0 <= i <= |text| && OccursAt(text, sep, i);
    var all := before + text + after;
    assert all[|before| + i..|before| + i + |sep|] == text[i..i + |sep|];
    assert OccursAt(all, sep, |before| + i);
  }

  lemma OccurrenceEnds(text: string, sep: string, i: nat)
    requires sep != "" && OccursAt(text, sep, i)
    ensures text[i] == sep[0] && text[i + |sep| - 1] == sep[|sep| - 1]
  {
    assert text[i..i + |sep|][0] == text[i] && text[i..i + |sep|][|sep| - 1] == text[i + |sep| - 1];
  }

  /** Trimming keeps a separator that it would not touch. */
  lemma {:induction false} TrimStartKeeps(text: string, sep: string)
    requires Proper(sep) && Includes(text, sep)
    ensures Includes(TrimStart(text), sep)
  {
    if text != "" && IsSpace(text[0]) {
      var i :| 0 <= i <= |text| && OccursAt(text, sep, i);
      OccurrenceEnds(text, sep, i);
      assert text[1..][i - 1..i - 1 + |sep|] == text[i..i + |sep|];
      assert OccursAt(text[1..], sep, i - 1);
      TrimStartKeeps(text[1..], sep);
    }
  }

  lemma {:induction false} TrimEndKeepsSeparator(text: string, sep: string)
    requires Proper(sep) && Includes(text, sep)
    ensures Includes(TrimEnd(text), sep)
  {
    if text != "" && IsSpace(text[|text| - 1]) {
      var front := text[..|text| - 1];
      var i :| 0 <= i <= |text| && OccursAt(text, sep, i);
      OccurrenceEnds(text, sep, i);
      assert front[i..i + |sep|] == text[i..i + |sep|];
      assert OccursAt(front, sep, i);
      TrimEndKeepsSeparator(front, sep);
    }
  }

  lemma ShownKeeps(text: string, sep: string)
    requires Proper(sep) && Includes(text, sep)
    ensures |Shown(text)| == 1 && Includes(Shown(text)[0], sep)
  {
    TrimStartKeeps(text, sep);
    TrimEndKeepsSeparator(TrimStart(text), sep);
  }

  /** What trimming leaves was there before. */
  lemma {:induction false} TrimStartPart(text: string) returns (before: string)
    ensures text == before + TrimStart(text)
  {
    if text != "" && IsSpace(text[0]) {
      before := TrimStartPart(text[1..]);
      before := [text[0]] + before;
    } else {
      before := "";
    }
  }

  lemma {:induction false} TrimEndPart(text: string) returns (after: string)
    ensures text == TrimEnd(text) + after
  {
    if text != "" && IsSpace(text[|text| - 1]) {
      after := TrimEndPart(text[..|text| - 1]);
      after := after + [text[|text| - 1]];
    } else {
      after := "";
    }
  }

  lemma TrimAddsNothing(text: string, sep: string)
    ensures Includes(Trim(text), sep) ==> Includes(text, sep)
  {
    var before := TrimStartPart(text);
    var after := TrimEndPart(TrimStart(text));
    assert text == before + Trim(text) + after;
    if Includes(Trim(text), sep) { IncludesWithin(before, Trim(text), after, sep); }
  }

  ghost predicate SomeIncludes(texts: seq<string>, sep: string) {
    exists k :: 0 <= k < |texts| && Includes(texts[k], sep)
  }

  lemma OneIncludes(text: string, sep: string)
    ensures SomeIncludes([text], sep) <==> Includes(text, sep)
  {
    assert [text][0] == text;
  }

  lemma SomeIncludesEither(a: seq<string>, b: seq<string>, sep: string)
    ensures SomeIncludes(a + b, sep) <==> SomeIncludes(a, sep) || SomeIncludes(b, sep)
  {
    if k :| 0 <= k < |a| && Includes(a[k], sep) { assert (a + b)[k] == a[k]; }
    if k :| 0 <= k < |b| && Includes(b[k], sep) { assert (a + b)[|a| + k] == b[k]; }
  }

  /** A cut leaves no separator behind. */
  lemma {:induction false} PiecesAreFree(s: string, sep: string)
    requires sep != ""
    ensures !SomeIncludes(Split(s, sep), sep)
    decreases |s|
  {
    IndexOfFirst(s, sep);
    if IndexOf(s, sep).None? {
      SplitWhole(s, sep);
    } else {
      var k := IndexOf(s, sep).value;
      SplitAt(s, sep, k, s[k + |sep|..]);
      PiecesAreFree(s[k + |sep|..], sep);
      BeforeFirst(s, sep, k);
      SomeIncludesEither([s[..k]], Split(s[k + |sep|..], sep), sep);
    }
  }

  lemma BeforeFirst(s: string, sep: string, k: nat)
    requires sep != "" && FirstOccurrence(s, sep, k)
    ensures !Includes(s[..k], sep)
  {
    forall i | 0 <= i <= k ensures !OccursAt(s[..k], sep, i) {
      OccursInPrefix(s, sep, k, i);
    }
  }

  lemma OccursInPrefix(s: string, sep: string, k: nat, i: nat)
    requires k <= |s|
    ensures OccursAt(s[..k], sep, i) ==> OccursAt(s, sep, i) && i <= k - |sep|
  {
    if OccursAt(s[..k], sep, i) { assert s[i..i + |sep|] == s[..k][i..i + |sep|]; }
  }

  lemma {:induction false} RestoredIsFree(pieces: seq<string>, sep: string)
    requires !SomeIncludes(pieces, sep)
    ensures !SomeIncludes(Restored(pieces), sep)
  {
    if pieces != [] {
      assert pieces == [pieces[0]] + pieces[1..];
      SomeIncludesEither([pieces[0]], pieces[1..], sep);
      RestoredIsFree(pieces[1..], sep);
      OneIncludes(pieces[0], sep);
      OneIncludes(Trim(pieces[0]), sep);
      TrimAddsNothing(pieces[0], sep);
      SomeIncludesEither(Shown(pieces[0]), Restored(pieces[1..]), sep);
    }
  }

  /** A separator inside a line or a statement is expected back inside a text. */
  lemma {:induction false} ExpectedHolds(pending: string, emissions: seq<Emission>, sep: string)
    requires Breaks(sep) && (Includes(pending, sep) || !Separable(emissions, sep))
    ensures SomeIncludes(Expected(pending, emissions, sep), sep)
    decreases |emissions|
  {
    if Includes(pending, sep) {
      ShownKeeps(pending, sep);
      TrimStartKeeps(pending, sep);
    }
    if emissions != [] {
      var e, rest := emissions[0], emissions[1..];
      assert emissions == [e] + rest;
      if e.Statement? {
        if Includes(pending, sep) { IncludesWithin("", TrimStart(pending), e.text, sep); }
        if Includes(e.text, sep) { IncludesWithin(TrimStart(pending), e.text, "", sep); }
        WholeOf(TrimStart(pending), e.text);
        OneIncludes(TrimStart(pending) + e.text, sep);
        if !Includes(pending, sep) && !Includes(e.text, sep) { ExpectedHolds("", rest, sep); }
        SomeIncludesEither([TrimStart(pending) + e.text], Expected("", rest, sep), sep);
      } else if e.text == sep {
        if !Includes(pending, sep) { ExpectedHolds("", rest, sep); }
        SomeIncludesEither(Shown(pending), Expected("", rest, sep), sep);
      } else {
        if Includes(pending, sep) { IncludesWithin("", pending, e.text + "\n", sep); }
        if Includes(e.text, sep) { IncludesWithin(pending, e.text, "\n", sep); }
        WholeOf(pending, e.text + "\n");
        assert pending + e.text + "\n" == pending + (e.text + "\n");
        ExpectedHolds(pending + (e.text + "\n"), rest, sep);
      }
    }
  }

  lemma WholeOf(a: string, b: string)
    ensures "" + a + b == a + b && a + b + "" == a + b
  {
  }

  /** Restoring a file gives the emitted statements in order, each after the lines emitted since the
      breakpoint before, exactly when nothing but whole breakpoint lines contains the separator. */
  lemma FileInvertsIff(emissions: seq<Emission>, sep: string)
    requires Breaks(sep) && Trimmed(emissions)
    ensures Restored(Split(FileOf(emissions, sep), sep)) == Expected("", emissions, sep) <==> Separable(emissions, sep)
  {
    var pieces := Split(FileOf(emissions, sep), sep);
    if Separable(emissions, sep) {
      OntoNothing(pieces);
      PendingFileInverts("", emissions, sep);
    } else {
      PiecesAreFree(FileOf(emissions, sep), sep);
      RestoredIsFree(pieces, sep);
      ExpectedHolds("", emissions, sep);
    }
  }

  lemma OntoNothing(pieces: seq<string>)
    requires pieces != []
    ensures Onto("", pieces) == pieces
  {
    assert "" + pieces[0] == pieces[0];
  }

  /** One statement comes back as itself exactly when it does not contain the separator. */
  lemma StatementSurvivesIff(statement: string, sep: string)
    requires Breaks(sep) && Proper(statement)
    ensures Restored(Split(FileOf([Statement(statement)], sep), sep)) == [statement] <==> !Includes(statement, sep)
  {
    FileInvertsIff([Statement(statement)], sep);
    assert [Statement(statement)][1..] == [] && "" + statement == statement;
    assert Expected("", [Statement(statement)], sep) == [statement] + Expected("", [], sep);
    assert Statement(statement) in [Statement(statement)];
  }

  /** For instance, a statement that begins with the separator loses it. */
  lemma SeparatorIsLost(statement: string, sep: string)
    requires Breaks(sep) && Proper(statement) && !Includes(statement, sep)
    ensures Restored(Split(FileOf([Statement(sep + statement)], sep), sep)) == [statement]
  {
    var file := FileOf([Statement(statement)], sep);
    OneStatementFile(statement, sep);
    OneStatementFile(sep + statement, sep);
    assert sep + statement + "\n" + (sep + "\n" + FileText([])) == sep + file;
    SplitAtSeparator(file, sep);
    PendingPiece("", Split(file, sep));
    OntoNothing([""] + Split(file, sep));
    StatementSurvivesIff(statement, sep);
  }

  lemma OneStatementFile(statement: string, sep: string)
    ensures FileOf([Statement(statement)], sep) == statement + "\n" + (sep + "\n" + FileText([]))
  {
    assert [Statement(statement)][1..] == [];
    assert LinesOf([Statement(statement)], sep) == [statement, sep] + [];
    FileOfStatement(statement, sep, []);
  }

  lemma BreakpointBreaks()
    ensures Breaks(BREAKPOINT)
  {
    var head, tail := "-- paperclip statement breakpoint ", "69f6f3f1-42fd-46a6-bf17-d1d85f8f3900";
    assert '\n' !in head && '\n' !in tail;
    assert BREAKPOINT == head + tail && head[0] == '-' && tail[|tail| - 1] == '0';
  }

  /** Writing a backup and restoring it. */
  method RoundTrip(out: Writer) returns (statements: seq<string>)
    requires out.Valid() && Trimmed(out.emissions)
    ensures statements == Expected("", out.emissions, BREAKPOINT) <==> Separable(out.emissions, BREAKPOINT)
  {
    BreakpointBreaks();
    var text := out.Contents();
    statements := StatementsOf(text, BREAKPOINT);
    FileInvertsIff(out.emissions, BREAKPOINT);
  }

  /* ---- what is expected back ---- */

  /** The statements of a backup: those emitted as such, and the lines up to each bare breakpoint. */
  function StatementTexts(pending: string, emissions: seq<Emission>, sep: string): seq<string>
    decreases |emissions|
  {
    if emissions == [] then []
    else
      match emissions[0]
      case Statement(text) => [text] + StatementTexts("", emissions[1..], sep)
      case Line(text) =>
        if text == sep then Shown(pending) + StatementTexts("", emissions[1..], sep)
        else StatementTexts(pending + (text + "\n"), emissions[1..], sep)
  }

  ghost predicate InOrder(restored: seq<string>, texts: seq<string>) {
    && |texts| <= |restored| <= |texts| + 1
    && forall k :: 0 <= k < |texts| ==> EndsWith(restored[k], texts[k])
  }

  lemma {:induction false} ExpectedInOrder(pending: string, emissions: seq<Emission>, sep: string)
    ensures InOrder(Expected(pending, emissions, sep), StatementTexts(pending, emissions, sep))
    decreases |emissions|
  {
    if emissions != [] {
      var text := emissions[0].text;
      if emissions[0].Statement? {
        ExpectedInOrder("", emissions[1..], sep);
        EndsInText(TrimStart(pending), text);
      } else if text == sep {
        ExpectedInOrder("", emissions[1..], sep);
        EndsInText("", Trim(pending));
        WholeOf("", Trim(pending));
      } else {
        ExpectedInOrder(pending + (text + "\n"), emissions[1..], sep);
      }
    }
  }

  /** Whatever lines surround them, no statement of a backup, a table's definition included, is lost, split
      or reordered by a restore: the k-th restored text ends in the k-th statement, and at most one text, of
      the lines after the last breakpoint, follows. */
  lemma StatementsInOrder(emissions: seq<Emission>, sep: string)
    requires Breaks(sep) && Trimmed(emissions) && Separable(emissions, sep)
    ensures InOrder(Restored(Split(FileOf(emissions, sep), sep)), StatementTexts("", emissions, sep))
  {
    FileInvertsIff(emissions, sep);
    ExpectedInOrder("", emissions, sep);
  }

  lemma EndsInText(before: string, text: string)
    ensures EndsWith(before + text, text)
  {
    assert (before + text)[|before|..] == text;
  }

  lemma {:induction false} ExpectedExactly(pending: string, emissions: seq<Emission>, sep: string)
    requires Blank(pending) && Breaks(sep)
    requires forall e :: e in emissions && e.Line? ==> Blank(e.text) || e.text == sep
    ensures Expected(pending, emissions, sep) == StatementsEmitted(emissions)
    decreases |emissions|
  {
    TrimBlank(pending);
    TrimStartBlank(pending);
    if emissions != [] {
      var e := emissions[0];
      assert e in emissions;
      var kept := if e.Line? && e.text != sep then pending + (e.text + "\n") else "";
      ExpectedExactly(kept, emissions[1..], sep);
      assert "" + e.text == e.text;
    }
  }

  function StatementsEmitted(emissions: seq<Emission>): seq<string> {
    if emissions == [] then []
    else (if emissions[0].Statement? then [emissions[0].text] else []) + StatementsEmitted(emissions[1..])
  }

  /** Between blank lines only, the statements are restored unchanged and nothing else is. */
  lemma BlankLinesVanish(emissions: seq<Emission>, sep: string)
    requires Breaks(sep) && Trimmed(emissions) && Separable(emissions, sep)
    requires forall e :: e in emissions && e.Line? ==> Blank(e.text) || e.text == sep
    ensures Restored(Split(FileOf(emissions, sep), sep)) == StatementsEmitted(emissions)
  {
    FileInvertsIff(emissions, sep);
    ExpectedExactly("", emissions, sep);
  }

  lemma TableExpected(header: string, columns: string, sep: string)
    requires Breaks(sep) && !Includes(header, sep) && !Includes(columns, sep) && !Includes(");", sep)
    requires header != "" && !IsSpace(header[0])
    ensures Expected("", [Line(header), Line(columns), Line(");"), Line(sep)], sep)
      == [header + ("\n" + columns + "\n);")]
  {
    var pending, table := header + "\n" + (columns + "\n") + (");" + "\n"), header + ("\n" + columns + "\n);");
    assert "" + (header + "\n") == header + "\n" && pending == "" + (table + "\n") && "" + table == table;
    WholeIncludes(sep);
    TrimStatement("", table);
    LineTaken("", header, [Line(columns), Line(");"), Line(sep)], sep);
    LineTaken(header + "\n", columns, [Line(");"), Line(sep)], sep);
    LineTaken(header + "\n" + (columns + "\n"), ");", [Line(sep)], sep);
    assert [Line(sep)][1..] == [] && Expected(pending, [Line(sep)], sep) == Shown(pending) + Shown("");
  }

  lemma WholeIncludes(sep: string)
    ensures Includes(sep, sep)
  {
    assert sep[0..|sep|] == sep;
    assert OccursAt(sep, sep, 0);
  }

  lemma LineTaken(pending: string, line: string, rest: seq<Emission>, sep: string)
    requires line != sep
    ensures Expected(pending, [Line(line)] + rest, sep) == Expected(pending + (line + "\n"), rest, sep)
  {
    assert ([Line(line)] + rest)[1..] == rest;
  }

  /** A table's definition, emitted line by line and ended by a bare breakpoint, comes back as one statement. */
  lemma TableSurvives(header: string, columns: string, sep: string)
    requires Breaks(sep) && !Includes(header, sep) && !Includes(columns, sep) && !Includes(");", sep)
    requires header != "" && !IsSpace(header[0])
    ensures Restored(Split(FileOf([Line(header), Line(columns), Line(");"), Line(sep)], sep), sep))
         == [header + ("\n" + columns + "\n);")]
  {
    var emissions := [Line(header), Line(columns), Line(");"), Line(sep)];
    FileInvertsIff(emissions, sep);
    TableExpected(header, columns, sep);
  }
}
