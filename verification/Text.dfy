/** String operations the program takes from its language: ordering, stripping, splitting, lower case. */
module Text {
  /** Strict lexicographic order by character. */
  predicate Less(a: string, b: string) {
    b != [] && (a == [] || a[0] < b[0] || (a[0] == b[0] && Less(a[1..], b[1..])))
  }

  lemma {:induction false} LessTotal(a: string, b: string)
    ensures a == b || Less(a, b) || Less(b, a)
  {
    if a != [] && b != [] && a[0] == b[0] {
      LessTotal(a[1..], b[1..]);
      assert a == [a[0]] + a[1..] && b == [b[0]] + b[1..];
    }
  }

  lemma {:induction false} LessIrreflexive(a: string)
    ensures !Less(a, a)
  {
    if a != [] { LessIrreflexive(a[1..]); }
  }

  lemma {:induction false} LessTransitive(a: string, b: string, c: string)
    requires Less(a, b) && Less(b, c)
    ensures Less(a, c)
  {
    if a != [] && a[0] == b[0] && b[0] == c[0] {
      LessTransitive(a[1..], b[1..], c[1..]);
    }
  }

  /** White space among the characters of ASCII: tab to carriage return, the four separators, and the space. */
  predicate IsSpace(c: char) {
    0x09 as char <= c <= 0x0D as char || 0x1C as char <= c <= ' '
  }

  function StripLeft(s: string): string {
    if s != [] && IsSpace(s[0]) then StripLeft(s[1..]) else s
  }

  function StripRight(s: string): string {
    if s != [] && IsSpace(s[|s| - 1]) then StripRight(s[..|s| - 1]) else s
  }

  function Strip(s: string): string { StripRight(StripLeft(s)) }

  function LowerChar(c: char): char {
    if 'A' <= c <= 'Z' then c + 32 as char else c
  }

  function Lower(s: string): (r: string)
    ensures |r| == |s|
    ensures forall i :: 0 <= i < |r| ==> r[i] == LowerChar(s[i])
  {
    if s == [] then [] else [LowerChar(s[0])] + Lower(s[1..])
  }

  /** A stripped text that is not empty. */
  predicate Tidy(s: string) { s != [] && !IsSpace(s[0]) && !IsSpace(s[|s| - 1]) }

  lemma {:induction false} StripEnds(s: string)
    ensures var r := Strip(s); r != [] ==> Tidy(r)
  {
    StripLeftEnd(s);
    StripRightEnd(StripLeft(s));
  }

  lemma {:induction false} StripLeftEnd(s: string)
    ensures var r := StripLeft(s); r != [] ==> !IsSpace(r[0])
  {
    if s != [] && IsSpace(s[0]) { StripLeftEnd(s[1..]); }
  }

  lemma {:induction false} StripRightEnd(s: string)
    ensures var r := StripRight(s); r <= s && (r != [] ==> !IsSpace(r[|r| - 1]))
  {
    if s != [] && IsSpace(s[|s| - 1]) { StripRightEnd(s[..|s| - 1]); }
  }

  lemma TidyStrips(s: string)
    requires Tidy(s)
    ensures Strip(s) == s
  {
  }

  lemma LowerTidy(s: string)
    requires Tidy(s)
    ensures Tidy(Lower(s))
  {
  }

  lemma LowerTwice(s: string)
    ensures Lower(Lower(s)) == Lower(s)
  {
    forall i | 0 <= i < |s| ensures Lower(Lower(s))[i] == Lower(s)[i] {
      assert LowerChar(LowerChar(s[i])) == LowerChar(s[i]);
    }
  }

  // ---------------------------------------------------------------------------
  // What these operations mean
  // ---------------------------------------------------------------------------

  /** The order of two texts that go on alike for a while: the first difference decides, and a text comes before
      its own continuations. */
  lemma {:induction false} FirstDifferenceDecides(alike: string, a: string, b: string)
    ensures a != [] && b != [] && a[0] != b[0] ==> (Less(alike + a, alike + b) <==> a[0] < b[0])
    ensures a == [] ==> (Less(alike + a, alike + b) <==> b != [])
  {
    if alike == [] {
      assert alike + a == a && alike + b == b;
    } else {
      assert (alike + a)[1..] == alike[1..] + a && (alike + b)[1..] == alike[1..] + b;
      FirstDifferenceDecides(alike[1..], a, b);
    }
  }

  lemma SpaceIff(c: char)
    ensures IsSpace(c) <==> c as int in {9, 10, 11, 12, 13, 28, 29, 30, 31, 32}
  {
  }

  ghost predicate AllSpace(s: string) { forall i :: 0 <= i < |s| ==> IsSpace(s[i]) }

  /** The text with white space, or none, on both sides. */
  ghost predicate Padded(raw: string, text: string) {
    exists a, b :: AllSpace(a) && AllSpace(b) && raw == a + text + b
  }

  lemma {:induction false} StripsLeft(a: string, text: string)
    requires AllSpace(a) && (text != [] ==> !IsSpace(text[0]))
    ensures StripLeft(a + text) == text
  {
    if a == [] { assert a + text == text; } else {
      assert (a + text)[1..] == a[1..] + text;
      StripsLeft(a[1..], text);
    }
  }

  lemma {:induction false} StripsRight(text: string, b: string)
    requires AllSpace(b) && (text != [] ==> !IsSpace(text[|text| - 1]))
    ensures StripRight(text + b) == text
  {
    if b == [] { assert text + b == text; } else {
      assert (text + b)[..|text + b| - 1] == text + b[..|b| - 1];
      StripsRight(text, b[..|b| - 1]);
    }
  }

  lemma {:induction false} LeftPart(s: string) returns (a: string)
    ensures AllSpace(a) && s == a + StripLeft(s)
  {
    if s != [] && IsSpace(s[0]) {
      var rest := LeftPart(s[1..]);
      a := [s[0]] + rest;
    } else {
      a := [];
    }
  }

  lemma {:induction false} RightPart(s: string) returns (b: string)
    ensures AllSpace(b) && s == StripRight(s) + b
  {
    if s != [] && IsSpace(s[|s| - 1]) {
      var rest := RightPart(s[..|s| - 1]);
      b := rest + [s[|s| - 1]];
    } else {
      b := [];
    }
  }

  lemma StrippedParts(raw: string) returns (a: string, b: string)
    ensures AllSpace(a) && AllSpace(b) && raw == a + Strip(raw) + b
  {
    a := LeftPart(raw);
    b := RightPart(StripLeft(raw));
    assert raw == a + (Strip(raw) + b);
  }

  /** Stripping finds exactly the tidy text inside the padding, and nothing exactly in white space. */
  lemma StripIff(raw: string, text: string)
    requires Tidy(text)
    ensures Padded(raw, text) <==> Strip(raw) == text
    ensures AllSpace(raw) <==> Strip(raw) == []
  {
    StripEnds(raw);
    var a, b := StrippedParts(raw);
    if Padded(raw, text) {
      var c, d :| AllSpace(c) && AllSpace(d) && raw == c + text + d;
      assert raw == c + (text + d);
      StripsLeft(c, text + d);
      StripsRight(text, d);
    }
    if AllSpace(raw) { StripsLeft(raw, []); assert raw + [] == raw; }
  }

  /** The same character, or the small and the capital form of one of the letters A to Z. */
  predicate SameLetter(c: char, d: char) {
    || c == d
    || ('A' <= c <= 'Z' && d as int == c as int + 32)
    || ('A' <= d <= 'Z' && c as int == d as int + 32)
  }

  predicate SameLetters(a: string, b: string) {
    |a| == |b| && forall i :: 0 <= i < |a| ==> SameLetter(a[i], b[i])
  }

  lemma LowerCharIff(c: char, d: char)
    ensures LowerChar(c) == LowerChar(d) <==> SameLetter(c, d)
  {
  }

  /** Lower case forgets the case of letters, and nothing else. */
  lemma LowerIff(a: string, b: string)
    ensures Lower(a) == Lower(b) <==> SameLetters(a, b)
  {
    var s, t := Lower(a), Lower(b);
    if |a| == |b| {
      forall i | 0 <= i < |a| ensures s[i] == t[i] <==> SameLetter(a[i], b[i]) {
        LowerCharIff(a[i], b[i]);
      }
      assert s == t <==> forall i :: 0 <= i < |a| ==> s[i] == t[i];
    }
  }

  /** No capital is left. */
  lemma LowerHasNoCapitals(s: string)
    ensures forall i :: 0 <= i < |s| ==> !('A' <= Lower(s)[i] <= 'Z')
  {
  }
}
