/** Strings as JavaScript compares and trims them, code unit by code unit. */
module Text {
  import opened Basics

  predicate Less(a: string, b: string) {
    b != [] && (a == [] || a[0] < b[0] || (a[0] == b[0] && Less(a[1..], b[1..])))
  }

  /** The strings agree up to `k`, and there `a` ends or has the smaller character. */
  ghost predicate DifferAt(a: string, b: string, k: nat) {
    && k <= |a| && k < |b| && a[..k] == b[..k]
    && (k == |a| || a[k] < b[k])
  }

  lemma DifferLater(a: string, b: string, k: nat)
    requires a != [] && b != [] && a[0] == b[0]
    ensures DifferAt(a, b, k + 1) <==> DifferAt(a[1..], b[1..], k)
    ensures !DifferAt(a, b, 0)
  {
    if k + 1 <= |a| && k + 1 < |b| {
      assert a[..k + 1] == [a[0]] + a[1..][..k] && b[..k + 1] == [b[0]] + b[1..][..k];
      assert a[..k + 1][1..] == a[1..][..k] && b[..k + 1][1..] == b[1..][..k];
    }
  }

  /** What `<` says of strings: they differ first where the left one ends or has the smaller character. */
  lemma {:induction false} LessMeans(a: string, b: string)
    ensures Less(a, b) <==> exists k: nat :: DifferAt(a, b, k)
  {
    if a != [] && b != [] && a[0] == b[0] {
      LessMeans(a[1..], b[1..]);
      forall k: nat ensures DifferAt(a, b, k + 1) <==> DifferAt(a[1..], b[1..], k) { DifferLater(a, b, k); }
      DifferLater(a, b, 0);
      if Less(a, b) {
        var k: nat :| DifferAt(a[1..], b[1..], k);
        assert DifferAt(a, b, k + 1);
      } else {
        forall k: nat ensures !DifferAt(a, b, k) {
          if k > 0 { DifferLater(a, b, k - 1); }
        }
      }
    } else if Less(a, b) {
      assert DifferAt(a, b, 0);
    } else {
      forall k: nat ensures !DifferAt(a, b, k) {
        if 0 < k <= |a| && k < |b| { assert a[..k][0] == a[0] && b[..k][0] == b[0]; }
      }
    }
  }

  predicate NoLater(a: string, b: string) {
    !Less(b, a)
  }

  lemma {:induction false} Trichotomy(a: string, b: string)
    ensures !(Less(a, b) && Less(b, a))
    ensures Less(a, b) || Less(b, a) || a == b
  {
    if a != [] && b != [] && a[0] == b[0] {
      Trichotomy(a[1..], b[1..]);
      assert a == [a[0]] + a[1..] && b == [b[0]] + b[1..];
    }
  }

  lemma {:induction false} LessTransitive(a: string, b: string, c: string)
    requires Less(a, b) && Less(b, c)
    ensures Less(a, c)
  {
    if a != [] && a[0] == b[0] && b[0] == c[0] { LessTransitive(a[1..], b[1..], c[1..]); }
  }

  lemma NoLaterTransitive(a: string, b: string, c: string)
    requires NoLater(a, b) && NoLater(b, c)
    ensures NoLater(a, c)
  {
    Trichotomy(a, b);
    Trichotomy(b, c);
    Trichotomy(a, c);
    if Less(a, b) && Less(b, c) { LessTransitive(a, b, c); }
  }

  lemma TextOrder()
    ensures TotalPreorder(NoLater)
    ensures forall s: seq<string> :: NoTies(s, NoLater)
  {
    forall a: string, b: string ensures NoLater(a, b) || NoLater(b, a)
      ensures NoLater(a, b) && NoLater(b, a) ==> a == b
    {
      Trichotomy(a, b);
    }
    forall a: string, b: string, c: string | NoLater(a, b) && NoLater(b, c) ensures NoLater(a, c) {
      NoLaterTransitive(a, b, c);
    }
  }

  /* ---- `trim` ---- */

  /** JavaScript's `trim` removes these. */
  predicate IsSpace(c: char) {
    c in {' ', '\t', '\n', '\r', 11 as char, 12 as char, 160 as char, 0x1680 as char, 0x2028 as char, 0x2029 as char,
          0x202F as char, 0x205F as char, 0x3000 as char, 0xFEFF as char} || 0x2000 <= c as int <= 0x200A
  }

  predicate Blank(s: string) {
    forall k :: 0 <= k < |s| ==> IsSpace(s[k])
  }

  function TrimStart(s: string): string {
    if s != "" && IsSpace(s[0]) then TrimStart(s[1..]) else s
  }

  function TrimEnd(s: string): string {
    if s != "" && IsSpace(s[|s| - 1]) then TrimEnd(s[..|s| - 1]) else s
  }

  function Trim(s: string): string {
    TrimEnd(TrimStart(s))
  }

  /** Neither end would be trimmed, and something is there. */
  predicate Proper(s: string) {
    s != "" && !IsSpace(s[0]) && !IsSpace(s[|s| - 1])
  }

  lemma {:induction false} TrimStartBlank(s: string)
    ensures Blank(s) <==> TrimStart(s) == ""
    ensures TrimStart(s) != "" ==> !IsSpace(TrimStart(s)[0])
  {
    if s != "" {
      TrimStartBlank(s[1..]);
      assert Blank(s) <==> IsSpace(s[0]) && Blank(s[1..]);
    }
  }

  lemma {:induction false} TrimEndKeeps(s: string)
    requires s != "" && !IsSpace(s[0])
    ensures TrimEnd(s) != ""
  {
    if |s| > 1 && IsSpace(s[|s| - 1]) {
      TrimEndKeeps(s[..|s| - 1]);
    }
  }

  lemma TrimBlank(s: string)
    ensures Trim(s) == "" <==> Blank(s)
  {
    TrimStartBlank(s);
    if TrimStart(s) != "" { TrimEndKeeps(TrimStart(s)); }
  }

  /** White space before text and after it is what `trim` takes off. */
  lemma {:induction false} TrimStartOnto(before: string, s: string)
    requires s != "" && !IsSpace(s[0])
    ensures TrimStart(before + s) == TrimStart(before) + s
  {
    if before == "" {
      assert before + s == s && TrimStart(before) + s == s;
    } else {
      assert (before + s)[1..] == before[1..] + s;
      if IsSpace(before[0]) { TrimStartOnto(before[1..], s); }
    }
  }
}
