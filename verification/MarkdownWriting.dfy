/** Reading undoes writing: what a line must look like to be read as a rule, a heading, an item or text, and what a
    document must look like to be read as given blocks. */
module MarkdownWriting {
  import opened Basics
  import opened Text
  import opened MarkdownBlocks

  // ---------------------------------------------------------------------------
  // White space around a line
  // ---------------------------------------------------------------------------

  function Inner(raw: string): string { Strip(StripRight(raw)) }

  lemma InnerParts(raw: string) returns (a: string, b: string)
    ensures AllSpace(a) && AllSpace(b) && raw == a + Inner(raw) + b
  {
    var b1 := RightPart(raw);
    a := LeftPart(StripRight(raw));
    var b2 := RightPart(StripLeft(StripRight(raw)));
    b := b2 + b1;
    assert raw == a + (Inner(raw) + b2) + b1;
  }

  /** Stripping finds exactly the tidy text inside the padding, and nothing exactly in white space. */
  lemma InnerIff(raw: string, text: string)
    requires Tidy(text)
    ensures Padded(raw, text) <==> Inner(raw) == text
    ensures AllSpace(raw) <==> Inner(raw) == []
    ensures Inner(raw) == [] || Tidy(Inner(raw))
  {
    StripEnds(StripRight(raw));
    var a, b := InnerParts(raw);
    if Padded(raw, text) {
      var c, d :| AllSpace(c) && AllSpace(d) && raw == c + text + d;
      StripsRight(c + text, d);
      StripsLeft(c, text);
      TidyStrips(text);
    }
    if AllSpace(raw) { StripsRight([], raw); assert [] + raw == raw; }
  }

  // ---------------------------------------------------------------------------
  // The forms of a line
  // ---------------------------------------------------------------------------

  ghost predicate IsRuleText(s: string) { |s| >= 3 && forall i :: 0 <= i < |s| ==> s[i] == '-' }

  /** One to three number signs, a space, and the text. */
  ghost predicate IsHeadingText(s: string, level: nat, text: string) {
    || (level == 1 && s == "# " + text)
    || (level == 2 && s == "## " + text)
    || (level == 3 && s == "### " + text)
  }

  ghost predicate IsMarker(marker: string, ordered: bool) {
    if ordered
    then |marker| > 1 && marker[|marker| - 1] == '.' && forall i :: 0 <= i < |marker| - 1 ==> '0' <= marker[i] <= '9'
    else marker == "-" || marker == "*"
  }

  /** A dash, a star, or a number with a full stop; white space; and the text. */
  ghost predicate IsItemText(s: string, ordered: bool, text: string) {
    exists marker, gap ::
      IsMarker(marker, ordered) && AllSpace(gap) && gap != [] && Tidy(text) && s == marker + gap + text
  }

  ghost predicate IsOrdinary(s: string) {
    && Tidy(s) && !IsRuleText(s)
    && (forall level, text :: !IsHeadingText(s, level, text))
    && (forall ordered, text :: !IsItemText(s, ordered, text))
  }

  lemma {:induction false} DashesIff(s: string)
    ensures AllDashes(s) <==> forall i :: 0 <= i < |s| ==> s[i] == '-'
  {
    if s != [] {
      DashesIff(s[1..]);
      if AllDashes(s) {
        forall i | 0 <= i < |s| ensures s[i] == '-' { assert i > 0 ==> s[i] == s[1..][i - 1]; }
      }
    }
  }

  lemma HeadingIff(s: string, level: nat, text: string)
    requires s != []
    ensures IsHeadingText(s, level, text) <==>
      HeadingLevel(s) > 0 && level == HeadingLevel(s) && text == s[HeadingLevel(s) + 1..]
  {
    var h1, h2, h3 := "# ", "## ", "### ";
    assert h1[0] == '#' && h1[1] == ' ' && h2[1] == '#' && h2[2] == ' ' && h3[2] == '#' && h3[1] == '#';
    if IsHeadingText(s, level, text) {
      assert s[level] == ' ' && s[level + 1..] == text;
      if level > 1 { assert s[1] == '#'; }
      if level > 2 { assert s[2] == '#'; }
    }
    if HeadingLevel(s) == 1 { assert s == h1 + s[2..]; }
    if HeadingLevel(s) == 2 { assert s == h2 + s[3..]; }
    if HeadingLevel(s) == 3 { assert s == h3 + s[4..]; }
  }

  lemma {:induction false} DigitsCounted(s: string, n: nat)
    requires n <= |s| && (forall i :: 0 <= i < n ==> '0' <= s[i] <= '9')
    requires n < |s| ==> !('0' <= s[n] <= '9')
    ensures DigitCount(s) == n
  {
    if n > 0 { DigitsCounted(s[1..], n - 1); }
  }

  lemma {:induction false} DigitsAre(s: string)
    ensures forall i :: 0 <= i < DigitCount(s) ==> '0' <= s[i] <= '9'
  {
    if s != [] && '0' <= s[0] <= '9' {
      DigitsAre(s[1..]);
      forall i | 0 <= i < DigitCount(s) ensures '0' <= s[i] <= '9' { assert i > 0 ==> s[i] == s[1..][i - 1]; }
    }
  }

  /** What follows a marker, if white space does. */
  lemma AfterMarkerIs(s: string, marker: string, gap: string, text: string)
    requires AllSpace(gap) && gap != [] && Tidy(text) && s == marker + gap + text
    ensures AfterMarker(s, |marker|) == Some(text)
  {
    assert s[|marker|] == gap[0];
    assert s[|marker|..] == gap + text;
    StripsLeft(gap, text);
  }

  lemma MarkerParts(s: string, n: nat) returns (gap: string)
    requires Tidy(s) && n > 0 && AfterMarker(s, n).Some?
    ensures AllSpace(gap) && gap != [] && Tidy(AfterMarker(s, n).value) && s == s[..n] + gap + AfterMarker(s, n).value
  {
    var text := AfterMarker(s, n).value;
    gap := LeftPart(s[n..]);
    assert s == s[..n] + gap + text;
    StripLeftEnd(s[n..]);
    assert text[|text| - 1] == s[|s| - 1];
  }

  lemma ItemIff(s: string, ordered: bool, text: string)
    requires Tidy(s)
    ensures IsItemText(s, ordered, text) <==>
      if ordered then OrderedText(s) == Some(text) else UnorderedText(s) == Some(text)
  {
    if IsItemText(s, ordered, text) {
      var marker, gap :|
        IsMarker(marker, ordered) && AllSpace(gap) && gap != [] && Tidy(text) && s == marker + gap + text;
      AfterMarkerIs(s, marker, gap, text);
      if ordered {
        assert forall i :: 0 <= i < |marker| ==> s[i] == marker[i];
        DigitsCounted(s, |marker| - 1);
      }
    }
    if ordered && OrderedText(s) == Some(text) {
      var n := DigitCount(s);
      DigitsAre(s);
      var gap := MarkerParts(s, n + 1);
      assert IsMarker(s[..n + 1], true);
    }
    if !ordered && UnorderedText(s) == Some(text) {
      var gap := MarkerParts(s, 1);
      assert IsMarker(s[..1], false);
    }
  }

  /** No line has two forms. */
  lemma FormsApart(s: string)
    requires Tidy(s)
    ensures HeadingLevel(s) > 0 ==> !AllDashes(s) && UnorderedText(s).None? && OrderedText(s).None?
    ensures UnorderedText(s).Some? ==> !AllDashes(s) && OrderedText(s).None?
    ensures OrderedText(s).Some? ==> !AllDashes(s)
  {
    DashesIff(s);
    if HeadingLevel(s) > 0 { HeadingIff(s, HeadingLevel(s), s[HeadingLevel(s) + 1..]); assert s[0] == '#'; }
    if UnorderedText(s).Some? { assert IsSpace(s[1]); }
  }

  /** What a line says, by its look. */
  ghost predicate Says(raw: string, k: Kind) {
    match k
    case Blank => AllSpace(raw)
    case Rule => exists s :: Padded(raw, s) && IsRuleText(s)
    case Heading(level, text) => exists s :: Tidy(s) && Padded(raw, s) && IsHeadingText(s, level, text)
    case Item(ordered, text) => exists s :: Padded(raw, s) && IsItemText(s, ordered, text)
    case Plain(text) => Padded(raw, text) && IsOrdinary(text)
  }

  ghost predicate HasForm(s: string, k: Kind) {
    match k
    case Blank => false
    case Rule => IsRuleText(s)
    case Heading(level, text) => IsHeadingText(s, level, text)
    case Item(ordered, text) => IsItemText(s, ordered, text)
    case Plain(text) => text == s && IsOrdinary(s)
  }

  lemma KindOfInner(raw: string)
    ensures Inner(raw) == [] <==> KindOf(raw) == Blank
    ensures Inner(raw) != [] ==> Tidy(Inner(raw))
  {
    StripEnds(StripRight(raw));
  }

  lemma FormIff(raw: string, k: Kind)
    requires Inner(raw) != []
    ensures HasForm(Inner(raw), k) <==> KindOf(raw) == k
  {
    var s := Inner(raw);
    KindOfInner(raw);
    DashesIff(s);
    FormsApart(s);
    match k
    case Blank =>
    case Rule =>
    case Heading(level, text) => HeadingIff(s, level, text);
    case Item(ordered, text) => ItemIff(s, ordered, text);
    case Plain(text) => OrdinaryIff(s);
  }

  lemma OrdinaryIff(s: string)
    requires Tidy(s)
    ensures IsOrdinary(s) <==>
      !IsRuleText(s) && HeadingLevel(s) == 0 && UnorderedText(s).None? && OrderedText(s).None?
  {
    forall level, text ensures IsHeadingText(s, level, text) ==> HeadingLevel(s) > 0 { HeadingIff(s, level, text); }
    forall ordered, text
      ensures IsItemText(s, ordered, text) ==> UnorderedText(s).Some? || OrderedText(s).Some?
    {
      ItemIff(s, ordered, text);
    }
    if HeadingLevel(s) > 0 { HeadingIff(s, HeadingLevel(s), s[HeadingLevel(s) + 1..]); }
    if UnorderedText(s).Some? { ItemIff(s, false, UnorderedText(s).value); }
    if OrderedText(s).Some? { ItemIff(s, true, OrderedText(s).value); }
  }

  lemma FormIsTidy(s: string, k: Kind)
    requires HasForm(s, k)
    ensures k.Heading? || Tidy(s)
  {
    if k.Item? {
      var marker, gap :|
        IsMarker(marker, k.ordered) && AllSpace(gap) && gap != [] && Tidy(k.text) && s == marker + gap + k.text;
      assert s[0] == marker[0];
      assert s[|s| - 1] == k.text[|k.text| - 1];
    }
  }

  lemma SaidText(raw: string, k: Kind) returns (s: string)
    requires Says(raw, k) && !k.Blank?
    ensures Tidy(s) && Padded(raw, s) && HasForm(s, k)
  {
    match k
    case Rule => s :| Padded(raw, s) && IsRuleText(s);
    case Heading(level, text) => s :| Tidy(s) && Padded(raw, s) && IsHeadingText(s, level, text);
    case Item(ordered, text) =>
      s :| Padded(raw, s) && IsItemText(s, ordered, text);
      FormIsTidy(s, k);
    case Plain(text) => s := text;
  }

  /** A line is read as something if and only if it has the look of it. */
  lemma SaysIff(raw: string, k: Kind)
    ensures Says(raw, k) <==> KindOf(raw) == k
  {
    var inner := Inner(raw);
    KindOfInner(raw);
    InnerIff(raw, "x");
    if !k.Blank? {
      if Says(raw, k) {
        var s := SaidText(raw, k);
        InnerIff(raw, s);
        FormIff(raw, k);
      }
      if KindOf(raw) == k {
        InnerIff(raw, inner);
        FormIff(raw, k);
      }
    }
  }

  lemma TidyIsPadded(s: string)
    ensures Padded(s, s)
  {
    assert s == [] + s + [] && AllSpace([]);
  }

  /** The usual spellings of an item. */
  lemma ItemSpellings(text: string, digits: string)
    requires Tidy(text) && digits != [] && forall i :: 0 <= i < |digits| ==> '0' <= digits[i] <= '9'
    ensures KindOf("-" + " " + text) == Item(false, text) && KindOf("*" + " " + text) == Item(false, text)
    ensures KindOf(digits + "." + " " + text) == Item(true, text)
  {
    ItemSpelling("-", false, text);
    ItemSpelling("*", false, text);
    ItemSpelling(digits + ".", true, text);
  }

  /** The usual spellings of a heading. */
  lemma HeadingSpellings(text: string)
    requires Tidy(text)
    ensures KindOf("# " + text) == Heading(1, text) && KindOf("## " + text) == Heading(2, text)
    ensures KindOf("### " + text) == Heading(3, text)
  {
    HeadingSpelling(1, "# ", text);
    HeadingSpelling(2, "## ", text);
    HeadingSpelling(3, "### ", text);
  }

  lemma ItemSpelling(marker: string, ordered: bool, text: string)
    requires Tidy(text) && IsMarker(marker, ordered)
    ensures KindOf(marker + " " + text) == Item(ordered, text)
  {
    var s := marker + " " + text;
    assert AllSpace(" ") && IsItemText(s, ordered, text);
    TidyIsPadded(s);
    SaysIff(s, Item(ordered, text));
  }

  lemma TidyBehind(signs: string, text: string)
    requires Tidy(text) && signs != [] && !IsSpace(signs[0])
    ensures Tidy(signs + text)
  {
    var s := signs + text;
    assert s[|s| - 1] == text[|text| - 1] && s[0] == signs[0];
  }

  lemma HeadingSpelling(level: nat, signs: string, text: string)
    requires Tidy(text) && signs != [] && !IsSpace(signs[0]) && IsHeadingText(signs + text, level, text)
    ensures KindOf(signs + text) == Heading(level, text)
  {
    var s := signs + text;
    assert Says(s, Heading(level, text)) by {
      TidyBehind(signs, text);
      TidyIsPadded(s);
    }
    SaysIff(s, Heading(level, text));
  }

  // ---------------------------------------------------------------------------
  // The lines of a block
  // ---------------------------------------------------------------------------

  /** These lines are a way to write the block. */
  ghost predicate Writes(lines: seq<string>, block: Block) {
    match block
    case Line => |lines| == 1 && Says(lines[0], Rule)
    case Title(level, text) => |lines| == 1 && Says(lines[0], Heading(level, text))
    case List(numbered, items) => items != [] && SayAll(lines, items, numbered)
    case Paragraph(body) => exists parts :: parts != [] && SayPlain(lines, parts) && body == JoinWith(" ", parts)
  }

  ghost predicate SayAll(lines: seq<string>, items: seq<string>, numbered: bool) {
    |lines| == |items| && forall i :: 0 <= i < |lines| ==> Says(lines[i], Item(numbered, items[i]))
  }

  ghost predicate SayPlain(lines: seq<string>, parts: seq<string>) {
    |lines| == |parts| && forall i :: 0 <= i < |lines| ==> Says(lines[i], Plain(parts[i]))
  }

  /** The parts of a paragraph or the items of a list are the texts of its lines, in order. */
  lemma {:induction false} TextsAre(run: seq<Kind>)
    requires forall i :: 0 <= i < |run| ==> run[i].Item? || run[i].Plain?
    ensures |Texts(run)| == |run| && forall i :: 0 <= i < |run| ==> Texts(run)[i] == run[i].text
  {
    if run != [] { TextsAre(run[..|run| - 1]); }
  }

  /** Joining the two halves of a sequence of texts: one separator between any two neighbours and none elsewhere. */
  lemma {:induction false} JoinHalves(separator: string, a: seq<string>, b: seq<string>)
    requires a != [] && b != []
    ensures JoinWith(separator, a + b) == JoinWith(separator, a) + separator + JoinWith(separator, b)
    ensures |a| == 1 ==> JoinWith(separator, a) == a[0]
  {
    assert (a + b)[..|a + b| - 1] == a + b[..|b| - 1];
    if |b| == 1 {
      assert a + b[..|b| - 1] == a;
    } else {
      JoinHalves(separator, a, b[..|b| - 1]);
    }
  }

  lemma ListIff(lines: seq<string>, numbered: bool, items: seq<string>)
    ensures Writes(lines, List(numbered, items)) <==>
      IsRun(Kinds(lines)) && BlockOf(Kinds(lines)) == List(numbered, items)
  {
    var run := Kinds(lines);
    if Writes(lines, List(numbered, items)) {
      forall i | 0 <= i < |run| ensures run[i] == Item(numbered, items[i]) {
        SaysIff(lines[i], Item(numbered, items[i]));
      }
      TextsAre(run);
    }
    if IsRun(run) && BlockOf(run) == List(numbered, items) {
      assert run[0].Item? && forall i :: 0 < i < |run| ==> Joins(run[0], run[i]);
      TextsAre(run);
      forall i | 0 <= i < |lines| ensures Says(lines[i], Item(numbered, items[i])) {
        assert i > 0 ==> Joins(run[0], run[i]);
        SaysIff(lines[i], Item(numbered, items[i]));
      }
    }
  }

  lemma ParagraphRead(lines: seq<string>, parts: seq<string>)
    requires parts != [] && SayPlain(lines, parts)
    ensures IsRun(Kinds(lines)) && BlockOf(Kinds(lines)) == Paragraph(JoinWith(" ", parts))
  {
    var run := Kinds(lines);
    forall i | 0 <= i < |run| ensures run[i] == Plain(parts[i]) { SaysIff(lines[i], Plain(parts[i])); }
    TextsAre(run);
    assert Texts(run) == parts;
  }

  lemma ParagraphWritten(lines: seq<string>)
    requires IsRun(Kinds(lines)) && Kinds(lines)[0].Plain?
    ensures SayPlain(lines, Texts(Kinds(lines)))
  {
    var run := Kinds(lines);
    forall i | 0 <= i < |run| ensures run[i].Plain? { assert i > 0 ==> Joins(run[0], run[i]); }
    TextsAre(run);
    forall i | 0 <= i < |lines| ensures Says(lines[i], Plain(Texts(run)[i])) {
      SaysIff(lines[i], run[i]);
    }
  }

  lemma ParagraphIff(lines: seq<string>, body: string)
    ensures Writes(lines, Paragraph(body)) <==> IsRun(Kinds(lines)) && BlockOf(Kinds(lines)) == Paragraph(body)
  {
    if Writes(lines, Paragraph(body)) {
      var parts :| parts != [] && SayPlain(lines, parts) && body == JoinWith(" ", parts);
      ParagraphRead(lines, parts);
    }
    if IsRun(Kinds(lines)) && BlockOf(Kinds(lines)) == Paragraph(body) { ParagraphWritten(lines); }
  }

  /** Lines are read as one block if and only if they are a way to write it. */
  lemma WritesIff(lines: seq<string>, block: Block)
    ensures Writes(lines, block) <==> IsRun(Kinds(lines)) && BlockOf(Kinds(lines)) == block
  {
    var run := Kinds(lines);
    if IsRun(run) && |run| > 1 { assert Joins(run[0], run[1]); }
    match block
    case Line => if |lines| == 1 { SaysIff(lines[0], Rule); }
    case Title(level, text) => if |lines| == 1 { SaysIff(lines[0], Heading(level, text)); }
    case List(numbered, items) => ListIff(lines, numbered, items);
    case Paragraph(body) => ParagraphIff(lines, body);
  }

  // ---------------------------------------------------------------------------
  // Documents
  // ---------------------------------------------------------------------------

  /** The texts of the blocks one after the other, with blank lines behind each. */
  function Document(texts: seq<seq<string>>, gap: seq<string>): seq<string> {
    if texts == [] then [] else texts[0] + gap + Document(texts[1..], gap)
  }

  ghost predicate BlankGap(gap: seq<string>) { gap != [] && forall i :: 0 <= i < |gap| ==> AllSpace(gap[i]) }

  ghost predicate WriteEach(texts: seq<seq<string>>, blocks: seq<Block>) {
    |texts| == |blocks| && forall i :: 0 <= i < |blocks| ==> Writes(texts[i], blocks[i])
  }

  lemma {:induction false} BlanksVanish(kinds: seq<Kind>, rest: seq<Kind>)
    requires forall i :: 0 <= i < |kinds| ==> kinds[i].Blank?
    ensures Grouping(kinds + rest) == Grouping(rest)
  {
    if kinds == [] { assert kinds + rest == rest; } else {
      assert (kinds + rest)[1..] == kinds[1..] + rest;
      BlanksVanish(kinds[1..], rest);
    }
  }

  lemma KindsConcat(a: seq<string>, b: seq<string>)
    ensures Kinds(a + b) == Kinds(a) + Kinds(b)
  {
  }

  lemma {:induction false} BlocksConcat(a: seq<seq<Kind>>, b: seq<seq<Kind>>)
    ensures BlocksOf(a + b) == BlocksOf(a) + BlocksOf(b)
  {
    if b == [] { assert a + b == a; } else {
      assert (a + b)[..|a + b| - 1] == a + b[..|b| - 1];
      BlocksConcat(a, b[..|b| - 1]);
    }
  }

  /** A written block, blank lines, and the rest: the block, and the blocks of the rest. */
  lemma BlockThenGap(text: seq<string>, gap: seq<string>, rest: seq<string>, block: Block)
    requires Writes(text, block) && BlankGap(gap)
    ensures Grouping(Kinds(text + gap + rest)) == [Kinds(text)] + Grouping(Kinds(rest))
    ensures BlocksOf(Grouping(Kinds(text + gap + rest))) == [block] + BlocksOf(Grouping(Kinds(rest)))
  {
    var run, between, after := Kinds(text), Kinds(gap), Kinds(rest);
    WritesIff(text, block);
    KindsConcat(text + gap, rest);
    KindsConcat(text, gap);
    forall i | 0 <= i < |between| ensures between[i].Blank? { SaysIff(gap[i], Blank); }
    assert run + between + after == run + (between + after);
    RunThenRest(run, between + after);
    BlanksVanish(between, after);
    BlocksConcat([run], Grouping(after));
    assert BlocksOf([run]) == [block];
  }

  /** Whatever blocks are written, and however, with blank lines between them, they are read back. */
  lemma {:induction false} ReadingUndoesWriting(texts: seq<seq<string>>, gap: seq<string>, blocks: seq<Block>)
    requires WriteEach(texts, blocks) && BlankGap(gap)
    ensures BlocksOf(Grouping(Kinds(Document(texts, gap)))) == blocks
  {
    if texts != [] {
      ReadingUndoesWriting(texts[1..], gap, blocks[1..]);
      BlockThenGap(texts[0], gap, Document(texts[1..], gap), blocks[0]);
    }
  }

  /** The stretches of lines the blocks of a document come from. */
  function Stretches(lines: seq<string>): seq<seq<string>>
    decreases |lines|
  {
    if lines == [] then []
    else if KindOf(lines[0]).Blank? then Stretches(lines[1..])
    else
      var n := RunLength(Kinds(lines));
      [lines[..n]] + Stretches(lines[n..])
  }

  lemma FirstStretch(lines: seq<string>)
    requires lines != [] && KindOf(lines[0]) != Blank
    ensures var kinds, n := Kinds(lines), RunLength(Kinds(lines));
      && Writes(lines[..n], BlockOf(kinds[..n]))
      && BlocksOf(Grouping(kinds)) == [BlockOf(kinds[..n])] + BlocksOf(Grouping(Kinds(lines[n..])))
  {
    var kinds, n := Kinds(lines), RunLength(Kinds(lines));
    RunLengthIsMaximal(kinds);
    assert kinds[..n] == Kinds(lines[..n]) && kinds[n..] == Kinds(lines[n..]);
    BlocksConcat([kinds[..n]], Grouping(kinds[n..]));
    assert BlocksOf([kinds[..n]]) == [BlockOf(kinds[..n])];
    WritesIff(lines[..n], BlockOf(kinds[..n]));
  }

  /** Every document writes the blocks it is read as: each block is written by its own stretch of lines. */
  lemma {:induction false} WhatIsReadIsWritten(lines: seq<string>)
    ensures WriteEach(Stretches(lines), BlocksOf(Grouping(Kinds(lines))))
    decreases |lines|
  {
    if lines != [] {
      if KindOf(lines[0]).Blank? {
        assert Kinds(lines)[1..] == Kinds(lines[1..]);
        WhatIsReadIsWritten(lines[1..]);
      } else {
        FirstStretch(lines);
        WhatIsReadIsWritten(lines[RunLength(Kinds(lines))..]);
      }
    }
  }

  /** Setting a document's blocks apart by other blank lines leaves its blocks alone. */
  lemma Reformatted(lines: seq<string>, gap: seq<string>)
    requires BlankGap(gap)
    ensures BlocksOf(Grouping(Kinds(Document(Stretches(lines), gap)))) == BlocksOf(Grouping(Kinds(lines)))
  {
    WhatIsReadIsWritten(lines);
    ReadingUndoesWriting(Stretches(lines), gap, BlocksOf(Grouping(Kinds(lines))));
  }
}
