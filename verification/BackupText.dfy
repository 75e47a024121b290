/** The text of a database backup (packages/db/src/backup-lib.ts): dollar-quoted values, and statements
    told apart by a breakpoint line. */
module BackupText {
  import opened Basics

  /* ---- substrings ---- */

  predicate OccursAt(s: string, t: string, i: int) {
    0 <= i <= |s| - |t| && s[i..i + |t|] == t
  }

  predicate Includes(s: string, t: string) {
    exists i | 0 <= i <= |s| :: OccursAt(s, t, i)
  }

  predicate EndsWith(s: string, t: string) {
    OccursAt(s, t, |s| - |t|)
  }

  ghost predicate FirstOccurrence(s: string, t: string, i: int) {
    OccursAt(s, t, i) && forall j :: 0 <= j < i ==> !OccursAt(s, t, j)
  }

  function IndexFrom(s: string, t: string, from: nat): (at: Option<nat>)
    requires from <= |s|
    ensures at.Some? ==> from <= at.value <= |s| - |t|
    decreases |s| - from
  {
    if OccursAt(s, t, from) then Some(from)
    else if from == |s| then None
    else IndexFrom(s, t, from + 1)
  }

  /** `indexOf` */
  function IndexOf(s: string, t: string): (at: Option<nat>)
    ensures at.Some? ==> at.value <= |s| - |t|
  {
    IndexFrom(s, t, 0)
  }

  lemma {:induction false} IndexFromFirst(s: string, t: string, from: nat)
    requires from <= |s|
    ensures IndexFrom(s, t, from).None? ==> forall i :: from <= i ==> !OccursAt(s, t, i)
    ensures IndexFrom(s, t, from).Some? ==> OccursAt(s, t, IndexFrom(s, t, from).value)
    ensures IndexFrom(s, t, from).Some? ==> forall i :: from <= i < IndexFrom(s, t, from).value ==> !OccursAt(s, t, i)
    decreases |s| - from
  {
    if !OccursAt(s, t, from) && from < |s| {
      IndexFromFirst(s, t, from + 1);
    }
  }

  /** It finds the first occurrence, if there is one. */
  lemma IndexOfFirst(s: string, t: string)
    ensures IndexOf(s, t).None? <==> !Includes(s, t)
    ensures IndexOf(s, t).Some? ==> FirstOccurrence(s, t, IndexOf(s, t).value)
  {
    IndexFromFirst(s, t, 0);
  }

  lemma IndexOfIs(s: string, t: string, i: nat)
    requires FirstOccurrence(s, t, i)
    ensures IndexOf(s, t) == Some(i)
  {
    IndexOfFirst(s, t);
  }

  /* ---- values ---- */

  const NUL := 0 as char

  function Sanitized(value: string): (text: string)
    ensures NUL !in text && (NUL !in value ==> text == value)
  {
    if value == "" then ""
    else if value[0] == NUL then Sanitized(value[1..])
    else [value[0]] + Sanitized(value[1..])
  }

  /** It takes out the NULs and nothing else. */
  lemma {:induction false} SanitizedConcat(a: string, b: string)
    ensures Sanitized(a + b) == Sanitized(a) + Sanitized(b)
    ensures forall c: char :: Sanitized([c]) == if c == NUL then "" else [c]
  {
    forall c: char ensures Sanitized([c]) == if c == NUL then "" else [c] {
      assert [c][1..] == "" && Sanitized("") == "";
    }
    if a == "" {
      assert a + b == b;
    } else {
      assert (a + b)[1..] == a[1..] + b;
      SanitizedConcat(a[1..], b);
    }
  }

  const DEFAULT_TAG := "$paperclip$"

  function TagOf(draw: string): string {
    "$paperclip_" + draw + "$"
  }

  /** The first tag the text does not contain; None when the draws run out first. */
  function ChosenTag(text: string, tag: string, draws: seq<string>): Option<string>
    decreases |draws|
  {
    if !Includes(text, tag) then Some(tag)
    else if draws == [] then None
    else ChosenTag(text, TagOf(draws[0]), draws[1..])
  }

  /** The tags tried: the fixed one, then one for each draw. */
  function Tried(draws: seq<string>, k: nat): string
    requires k <= |draws|
  {
    if k == 0 then "$paperclip$" else "$paperclip_" + draws[k - 1] + "$"
  }

  /** The tag chosen is the first of those tried that the text does not contain; there is none exactly when it
      contains them all. */
  lemma {:induction false} FirstTagChosen(text: string, draws: seq<string>, k: nat)
    requires k <= |draws| && forall j: nat :: j < k ==> Includes(text, Tried(draws, j))
    ensures !Includes(text, Tried(draws, k)) ==> ChosenTag(text, DEFAULT_TAG, draws) == Some(Tried(draws, k))
    ensures k == |draws| && Includes(text, Tried(draws, k)) ==> ChosenTag(text, DEFAULT_TAG, draws).None?
  {
    FirstTagFrom(text, draws, 0, k);
    assert draws[0..] == draws;
  }

  lemma {:induction false} FirstTagFrom(text: string, draws: seq<string>, from: nat, k: nat)
    requires from <= k <= |draws| && forall j: nat :: from <= j < k ==> Includes(text, Tried(draws, j))
    ensures var chosen := ChosenTag(text, Tried(draws, from), draws[from..]);
      && (!Includes(text, Tried(draws, k)) ==> chosen == Some(Tried(draws, k)))
      && (k == |draws| && Includes(text, Tried(draws, k)) ==> chosen.None?)
    decreases k - from
  {
    if from < k {
      FirstTagFrom(text, draws, from + 1, k);
      assert draws[from..][0] == draws[from] && draws[from..][1..] == draws[from + 1..];
      assert TagOf(draws[from]) == Tried(draws, from + 1);
    }
  }

  /** `draws` are the random suffixes the run would see, in order. */
  method FormatSqlLiteral(value: string, draws: seq<string>) returns (literal: Option<string>)
    ensures var tag := ChosenTag(Sanitized(value), DEFAULT_TAG, draws);
      literal == if tag.Some? then Some(tag.value + Sanitized(value) + tag.value) else None
  {
    var text, tag, next := Sanitized(value), DEFAULT_TAG, 0;
    while Includes(text, tag)
      invariant next <= |draws|
      invariant ChosenTag(text, tag, draws[next..]) == ChosenTag(text, DEFAULT_TAG, draws)
      decreases |draws| - next
    {
      if next == |draws| { return None; }
      tag := TagOf(draws[next]);
      assert draws[next..][1..] == draws[next + 1..];
      next := next + 1;
    }
    literal := Some(tag + text + tag);
  }

  /* ---- reading a value back: dollar quoting, section 4.1.2.4 of the PostgreSQL manual ---- */

  predicate LetterOrSo(c: char) {
    'a' <= c <= 'z' || 'A' <= c <= 'Z' || c == '_' || c as int >= 128
  }

  /** Two dollar signs around nothing, or around an unquoted identifier without dollar signs. */
  predicate IsTag(tag: string) {
    && |tag| >= 2 && tag[0] == '$' && tag[|tag| - 1] == '$'
    && (|tag| > 2 ==> LetterOrSo(tag[1]))
    && forall k :: 1 <= k < |tag| - 1 ==> LetterOrSo(tag[k]) || '0' <= tag[k] <= '9'
  }

  /** A string constant read off the front of some text: its content, and where it ended. */
  datatype Token = Token(content: string, end: nat)

  function Scan(text: string): Option<Token> {
    if text == "" || text[0] != '$' then None
    else
      match IndexOf(text[1..], "$")
      case None => None
      case Some(k) =>
        if !IsTag(text[..k + 2]) then None else ScanBody(text[..k + 2], text[k + 2..])
  }

  /** The content runs to the next occurrence of the opening tag. */
  function ScanBody(tag: string, text: string): Option<Token> {
    match IndexOf(text, tag)
    case None => None
    case Some(i) => Some(Token(text[..i], |tag| + i + |tag|))
  }

  /** A base-36 draw makes a tag. */
  lemma DrawnTag(draw: string)
    requires forall k :: 0 <= k < |draw| ==> '0' <= draw[k] <= '9' || 'a' <= draw[k] <= 'z'
    ensures IsTag(TagOf(draw))
  {
    var tag := TagOf(draw);
    forall k | 1 <= k < |tag| - 1 ensures LetterOrSo(tag[k]) || '0' <= tag[k] <= '9' {
      if k < 11 { assert tag[k] == "$paperclip_"[k]; } else { assert tag[k] == draw[k - 11]; }
    }
  }

  ghost predicate Base36(draws: seq<string>) {
    forall d, k :: d in draws && 0 <= k < |d| ==> '0' <= d[k] <= '9' || 'a' <= d[k] <= 'z'
  }

  lemma {:induction false} ChosenTagIsTag(text: string, tag: string, draws: seq<string>)
    requires IsTag(tag) && Base36(draws)
    ensures var chosen := ChosenTag(text, tag, draws);
      chosen.Some? ==> IsTag(chosen.value) && !Includes(text, chosen.value)
    decreases |draws|
  {
    if Includes(text, tag) && draws != [] {
      assert draws[0] in draws;
      DrawnTag(draws[0]);
      ChosenTagIsTag(text, TagOf(draws[0]), draws[1..]);
    }
  }

  lemma OpeningEnds(tag: string, text: string)
    requires IsTag(tag)
    ensures IndexOf((tag + text)[1..], "$") == Some(|tag| - 2)
  {
    var tail := (tag + text)[1..];
    forall j | 0 <= j < |tag| - 2 ensures !OccursAt(tail, "$", j) {
      assert tail[j..j + 1][0] == tail[j] == tag[j + 1] != '$';
    }
    assert tail[|tag| - 2] == (tag + text)[|tag| - 1] == tag[|tag| - 1] == '$';
    assert tail[|tag| - 2..|tag| - 1] == "$";
    IndexOfIs(tail, "$", |tag| - 2);
  }

  lemma OpeningRead(tag: string, text: string)
    requires IsTag(tag)
    ensures Scan(tag + text) == ScanBody(tag, text)
  {
    var all := tag + text;
    assert all[..|tag|] == tag && all[|tag|..] == text;
    OpeningEnds(tag, text);
  }

  /** The text ends in its tag short of the final dollar sign. */
  predicate EndsInOpenTag(text: string, tag: string) {
    tag != "" && EndsWith(text, tag[..|tag| - 1])
  }

  /** How much of a quoted body is content to the reader. */
  function Kept(body: string, tag: string): nat {
    if EndsInOpenTag(body, tag) then |body| - (|tag| - 1) else |body|
  }

  /** A tag's only proper border is one dollar sign, so text can complete the tag early in one way only. */
  lemma EarlyCloseAt(body: string, tag: string, rest: string, i: nat)
    requires IsTag(tag) && i < |body| && OccursAt(body + (tag + rest), tag, i)
    ensures Includes(body, tag) || (EndsInOpenTag(body, tag) && i == Kept(body, tag))
  {
    var k := |body| - i;
    if k >= |tag| {
      OccursBefore(body, tag + rest, tag, i, |tag|);
      assert OccursAt(body, tag, i);
    } else {
      DollarAt(body, tag, rest, i);
      assert k == |tag| - 1;
      OccursBefore(body, tag + rest, tag, i, k);
    }
  }

  /** The part of an occurrence that lies in the first of two texts. */
  lemma OccursBefore(a: string, b: string, t: string, i: nat, k: nat)
    requires OccursAt(a + b, t, i) && k <= |t| && i + k <= |a|
    ensures a[i..i + k] == t[..k]
  {
    forall j | 0 <= j < k ensures a[i + j] == t[j] {
      assert (a + b)[i..i + |t|][j] == (a + b)[i + j] == a[i + j];
    }
  }

  lemma DollarAt(body: string, tag: string, rest: string, i: nat)
    requires tag != "" && tag[0] == '$' && i < |body| < i + |tag| && OccursAt(body + (tag + rest), tag, i)
    ensures tag[|body| - i] == '$'
  {
    var s := body + (tag + rest);
    assert s[|body|] == '$';
    assert s[i..i + |tag|][|body| - i] == s[|body|];
  }

  lemma ClosesThere(body: string, tag: string, rest: string)
    requires IsTag(tag)
    ensures OccursAt(body + (tag + rest), tag, Kept(body, tag))
    ensures (body + (tag + rest))[..Kept(body, tag)] == body[..Kept(body, tag)]
  {
    var s, i := body + (tag + rest), Kept(body, tag);
    if EndsInOpenTag(body, tag) {
      var found, open := s[i..i + |tag|], tag[..|tag| - 1];
      assert body[i..] == open && tag == open + ['$'];
      assert found[..|tag| - 1] == body[i..] && found[|tag| - 1] == '$';
      assert found == found[..|tag| - 1] + [found[|tag| - 1]];
    } else {
      assert s[i..i + |tag|] == tag;
    }
  }

  /** Exactly what scanning a quoted body yields, whatever follows it. */
  lemma QuotedReads(body: string, tag: string, rest: string)
    requires IsTag(tag) && !Includes(body, tag)
    ensures Scan(tag + (body + (tag + rest))) == Some(Token(body[..Kept(body, tag)], Kept(body, tag) + 2 * |tag|))
  {
    var s := body + (tag + rest);
    ClosesThere(body, tag, rest);
    forall j: nat | j < Kept(body, tag) ensures !OccursAt(s, tag, j) {
      if OccursAt(s, tag, j) { EarlyCloseAt(body, tag, rest, j); }
    }
    IndexOfIs(s, tag, Kept(body, tag));
    OpeningRead(tag, s);
  }

  /** Scanning the quoted text, whatever follows it, gives the text back and ends where the literal does. */
  predicate ReadsBack(text: string, tag: string, rest: string) {
    Scan(tag + text + tag + rest) == Some(Token(text, |tag + text + tag|))
  }

  lemma Regrouped(a: string, b: string, c: string, d: string)
    ensures a + b + c + d == a + (b + (c + d))
  {
  }

  lemma TextReadsBack(text: string, tag: string, rest: string)
    requires IsTag(tag) && !Includes(text, tag)
    ensures ReadsBack(text, tag, rest) <==> !EndsInOpenTag(text, tag)
  {
    Regrouped(tag, text, tag, rest);
    QuotedReads(text, tag, rest);
    LengthTells(text, tag);
  }

  lemma DefaultIsTag()
    ensures IsTag(DEFAULT_TAG)
  {
  }

  /** A formatted value reads back as itself without NULs, and to its very end, exactly when it does not
      end with its tag short of the final dollar sign. */
  lemma LiteralReadsBack(value: string, draws: seq<string>, tag: string, rest: string)
    requires Base36(draws) && ChosenTag(Sanitized(value), DEFAULT_TAG, draws) == Some(tag)
    ensures ReadsBack(Sanitized(value), tag, rest) <==> !EndsInOpenTag(Sanitized(value), tag)
  {
    DefaultIsTag();
    ChosenTagIsTag(Sanitized(value), DEFAULT_TAG, draws);
    TextReadsBack(Sanitized(value), tag, rest);
  }

  lemma LengthTells(text: string, tag: string)
    requires |tag| >= 2
    ensures Kept(text, tag) == |text| <==> !EndsInOpenTag(text, tag)
    ensures text[..|text|] == text && |tag + text + tag| == |text| + 2 * |tag|
  {
  }

  /** The value `$paperclip` is written as a literal that reads back empty and stops early. */
  lemma TagPrefixIsLost()
    ensures ChosenTag(Sanitized("$paperclip"), DEFAULT_TAG, []) == Some(DEFAULT_TAG)
    ensures Scan(DEFAULT_TAG + "$paperclip" + DEFAULT_TAG) == Some(Token("", 22))
  {
    var body := "$paperclip";
    assert NUL !in body;
    assert !Includes(body, DEFAULT_TAG);
    assert body[0..] == body && DEFAULT_TAG[..10] == body;
    QuotedReads(body, DEFAULT_TAG, "");
    assert DEFAULT_TAG + (body + (DEFAULT_TAG + "")) == DEFAULT_TAG + body + DEFAULT_TAG;
  }
}
