/** The streaming loop that groups Markdown lines into HTML blocks. */
module MarkdownBlocks {
  import opened Basics
  import opened Text

  /** What one line is; the text is what the line contributes to its block. */
  datatype Kind = Blank | Rule | Heading(level: nat, text: string) | Item(ordered: bool,
                                                                          text: string) | Plain(text: string)

  predicate AllDashes(s: string) { s == [] || (s[0] == '-' && AllDashes(s[1..])) }

  function DigitCount(s: string): (n: nat)
    ensures n <= |s|
  {
    if s == [] || !('0' <= s[0] <= '9') then 0 else 1 + DigitCount(s[1..])
  }

  /** The text after a list marker of the given length, if white space follows it. */
  function AfterMarker(s: string, marker: nat): Option<string> {
    if marker < |s| && IsSpace(s[marker]) then Some(StripLeft(s[marker..])) else None
  }

  function UnorderedText(s: string): Option<string> {
    if s != [] && (s[0] == '-' || s[0] == '*') then AfterMarker(s, 1) else None
  }

  function OrderedText(s: string): Option<string> {
    var n := DigitCount(s);
    if n > 0 && n < |s| && s[n] == '.' then AfterMarker(s, n + 1) else None
  }

  /** Three levels of heading; 0 for none. */
  function HeadingLevel(s: string): (level: nat)
    ensures level > 0 ==> level < |s|
  {
    if "### " <= s then 3 else if "## " <= s then 2 else if "# " <= s then 1 else 0
  }

  function KindOf(raw: string): Kind {
    var s := Strip(StripRight(raw));
    if s == [] then Blank
    else if |s| >= 3 && AllDashes(s) then Rule
    else if HeadingLevel(s) > 0 then Heading(HeadingLevel(s), s[HeadingLevel(s) + 1..])
    else if UnorderedText(s).Some? then Item(false, UnorderedText(s).value)
    else if OrderedText(s).Some? then Item(true, OrderedText(s).value)
    else Plain(s)
  }

  function Kinds(lines: seq<string>): seq<Kind> {
    seq(|lines|, i requires 0 <= i < |lines| => KindOf(lines[i]))
  }

  // ---------------------------------------------------------------------------
  // The grouping, as a function of the whole document
  // ---------------------------------------------------------------------------

  /** Two neighbouring lines belong to one block. */
  predicate Joins(a: Kind, b: Kind) {
    (a.Plain? && b.Plain?) || (a.Item? && b.Item? && a.ordered == b.ordered)
  }

  /** The length of the first maximal run of joining lines. */
  function RunLength(kinds: seq<Kind>): (n: nat)
    requires kinds != []
    ensures 1 <= n <= |kinds|
  {
    if |kinds| > 1 && Joins(kinds[0], kinds[1]) then 1 + RunLength(kinds[1..]) else 1
  }

  /** A document is the sequence of its maximal runs; blank lines only separate. */
  function Grouping(kinds: seq<Kind>): seq<seq<Kind>>
    decreases |kinds|
  {
    if kinds == [] then []
    else if kinds[0].Blank? then Grouping(kinds[1..])
    else [kinds[..RunLength(kinds)]] + Grouping(kinds[RunLength(kinds)..])
  }

  function Texts(run: seq<Kind>): seq<string> {
    if run == [] then []
    else
      var k := run[|run| - 1];
      Texts(run[..|run| - 1]) + (if k.Item? || k.Plain? then [k.text] else [])
  }

  function JoinWith(separator: string, parts: seq<string>): string {
    if parts == [] then ""
    else if |parts| == 1 then parts[0]
    else JoinWith(separator, parts[..|parts| - 1]) + separator + parts[|parts| - 1]
  }

  /** A block as it is written out, before inline markup. */
  datatype Block = Line | Title(height: nat, title: string) | List(numbered: bool,
                                                                   items: seq<string>) | Paragraph(body: string)

  function BlockOf(run: seq<Kind>): Block {
    if run == [] then Line else
    match run[0]
    case Blank => Line
    case Rule => Line
    case Heading(level, text) => Title(level, text)
    case Item(ordered, _) => List(ordered, Texts(run))
    case Plain(_) => Paragraph(JoinWith(" ", Texts(run)))
  }

  function BlocksOf(groups: seq<seq<Kind>>): seq<Block> {
    if groups == [] then [] else BlocksOf(groups[..|groups| - 1]) + [BlockOf(groups[|groups| - 1])]
  }

  lemma BlocksSnoc(groups: seq<seq<Kind>>, g: seq<Kind>)
    ensures BlocksOf(groups + [g]) == BlocksOf(groups) + [BlockOf(g)]
  {
    assert (groups + [g])[..|groups + [g]| - 1] == groups;
  }

  lemma TextsSnoc(run: seq<Kind>, k: Kind)
    requires k.Item? || k.Plain?
    ensures Texts(run + [k]) == Texts(run) + [k.text]
  {
    assert (run + [k])[..|run + [k]| - 1] == run;
  }

  // ---------------------------------------------------------------------------
  // What the grouping means
  // ---------------------------------------------------------------------------

  /** One or more lines of one block. */
  ghost predicate IsRun(kinds: seq<Kind>) {
    kinds != [] && !kinds[0].Blank? && forall i :: 0 < i < |kinds| ==> Joins(kinds[0], kinds[i])
  }

  /** A run that the next line does not join is the first block. */
  lemma {:induction false} RunThenRest(run: seq<Kind>, rest: seq<Kind>)
    requires IsRun(run) && (rest != [] ==> !Joins(run[|run| - 1], rest[0]))
    ensures RunLength(run + rest) == |run|
    ensures Grouping(run + rest) == [run] + Grouping(rest)
  {
    var all := run + rest;
    if |run| > 1 {
      assert Joins(run[0], run[1]);
      assert all[1..] == run[1..] + rest;
      RunThenRest(run[1..], rest);
    }
    assert all[..|run|] == run && all[|run|..] == rest;
  }

  lemma {:induction false} RunLengthIsMaximal(kinds: seq<Kind>)
    requires kinds != [] && !kinds[0].Blank?
    ensures var n := RunLength(kinds);
      IsRun(kinds[..n]) && (n < |kinds| ==> !Joins(kinds[n - 1], kinds[n]))
  {
    if |kinds| > 1 && Joins(kinds[0], kinds[1]) {
      RunLengthIsMaximal(kinds[1..]);
      var n, m := RunLength(kinds), RunLength(kinds[1..]);
      forall i | 0 < i < n ensures Joins(kinds[0], kinds[i]) {
        assert kinds[1..][..m][i - 1] == kinds[i];
      }
    }
  }

  function NonBlank(kinds: seq<Kind>): seq<Kind> {
    if kinds == [] then [] else (if kinds[0].Blank? then [] else [kinds[0]]) + NonBlank(kinds[1..])
  }

  function Flatten(groups: seq<seq<Kind>>): seq<Kind> {
    if groups == [] then [] else groups[0] + Flatten(groups[1..])
  }

  lemma {:induction false} RunHasNoBlank(run: seq<Kind>, rest: seq<Kind>)
    requires run == [] || IsRun(run)
    ensures NonBlank(run + rest) == run + NonBlank(rest)
  {
    if run == [] {
      assert run + rest == rest;
    } else {
      assert (run + rest)[1..] == run[1..] + rest;
      if |run| > 1 {
        assert Joins(run[0], run[1]);
        forall i | 0 < i < |run[1..]| ensures Joins(run[1..][0], run[1..][i]) {
          assert Joins(run[0], run[i + 1]);
        }
      }
      RunHasNoBlank(run[1..], rest);
    }
  }

  /** Every line that is not blank is in exactly one block, in source order; and every block is a run. */
  lemma {:induction false} NothingLost(kinds: seq<Kind>)
    ensures Flatten(Grouping(kinds)) == NonBlank(kinds)
    ensures forall g :: g in Grouping(kinds) ==> IsRun(g)
    decreases |kinds|
  {
    if kinds != [] {
      if kinds[0].Blank? {
        NothingLost(kinds[1..]);
      } else {
        var n := RunLength(kinds);
        RunLengthIsMaximal(kinds);
        NothingLost(kinds[n..]);
        RunHasNoBlank(kinds[..n], kinds[n..]);
        assert kinds == kinds[..n] + kinds[n..];
      }
    }
  }

  /** The blocks of two parts, with the two blocks at the cut made one. */
  function Merged(first: seq<seq<Kind>>, second: seq<seq<Kind>>): seq<seq<Kind>>
    requires first != [] && second != []
  {
    first[..|first| - 1] + [first[|first| - 1] + second[0]] + second[1..]
  }

  ghost predicate CutsWell(a: seq<Kind>, b: seq<Kind>)
    requires a != [] && b != []
  {
    if Joins(a[|a| - 1], b[0])
    then Grouping(a) != [] && Grouping(b) != [] && Grouping(a + b) == Merged(Grouping(a), Grouping(b))
    else Grouping(a + b) == Grouping(a) + Grouping(b)
  }

  /** Where a document is cut, its blocks are the blocks of the two parts, except that the two blocks at the cut
      are one block, the one followed by the other, exactly when the lines at the cut join. */
  lemma {:induction false} CutAnywhere(a: seq<Kind>, b: seq<Kind>)
    requires a != [] && b != []
    ensures CutsWell(a, b)
    decreases |a|
  {
    if a[0].Blank? {
      if |a| > 1 { CutAnywhere(a[1..], b); }
      CutAfterBlank(a, b);
    } else {
      var n := RunLength(a);
      RunLengthIsMaximal(a);
      if n < |a| {
        CutAnywhere(a[n..], b);
        CutAfterRun(a, n, b);
      } else {
        CutAtRun(a, b);
      }
    }
  }

  lemma CutAfterBlank(a: seq<Kind>, b: seq<Kind>)
    requires a != [] && b != [] && a[0].Blank? && (|a| > 1 ==> CutsWell(a[1..], b))
    ensures CutsWell(a, b)
  {
    assert (a + b)[1..] == a[1..] + b;
    assert Grouping(a + b) == Grouping(a[1..] + b) && Grouping(a) == Grouping(a[1..]);
    if |a| == 1 { assert a[1..] + b == b; }
  }

  lemma FirstRun(a: seq<Kind>, n: nat, b: seq<Kind>)
    requires 0 < n < |a| && IsRun(a[..n]) && !Joins(a[n - 1], a[n])
    ensures Grouping(a + b) == [a[..n]] + Grouping(a[n..] + b)
  {
    RunThenRest(a[..n], a[n..] + b);
    assert a + b == a[..n] + (a[n..] + b);
  }

  lemma PrependRun(run: seq<Kind>, whole: seq<seq<Kind>>, first: seq<seq<Kind>>, second: seq<seq<Kind>>)
    ensures whole == first + second ==> [run] + whole == [run] + first + second
    ensures first != [] && second != [] && whole == Merged(first, second) ==>
      [run] + whole == Merged([run] + first, second)
  {
    if first != [] && second != [] {
      var all := [run] + first;
      assert all[..|all| - 1] == [run] + first[..|first| - 1] && all[|all| - 1] == first[|first| - 1];
    }
  }

  lemma FirstRunAlone(a: seq<Kind>, n: nat)
    requires 0 < n < |a| && IsRun(a[..n]) && !Joins(a[n - 1], a[n])
    ensures Grouping(a) == [a[..n]] + Grouping(a[n..])
  {
    FirstRun(a, n, []);
    assert a + [] == a && a[n..] + [] == a[n..];
  }

  lemma CutAfterRun(a: seq<Kind>, n: nat, b: seq<Kind>)
    requires b != [] && 0 < n < |a| && IsRun(a[..n]) && !Joins(a[n - 1], a[n]) && CutsWell(a[n..], b)
    ensures CutsWell(a, b)
  {
    var run, tail := a[..n], a[n..];
    FirstRun(a, n, b);
    FirstRunAlone(a, n);
    PrependRun(run, Grouping(tail + b), Grouping(tail), Grouping(b));
    assert a[|a| - 1] == tail[|tail| - 1];
  }

  lemma CutAtRun(a: seq<Kind>, b: seq<Kind>)
    requires IsRun(a) && b != []
    ensures CutsWell(a, b)
  {
    assert Grouping(a) == [a] by {
      RunThenRest(a, []);
      assert a + [] == a && Grouping([]) == [] && [a] + [] == [a];
    }
    if Joins(a[|a| - 1], b[0]) { OneRunAcross(a, b); } else { RunThenRest(a, b); }
  }

  lemma SplitSum(a: seq<Kind>, b: seq<Kind>, m: nat)
    requires m <= |b|
    ensures a + b == a + b[..m] + b[m..]
  {
    assert b == b[..m] + b[m..];
  }

  lemma OneRunAcross(a: seq<Kind>, b: seq<Kind>)
    requires IsRun(a) && b != [] && Joins(a[|a| - 1], b[0])
    ensures Grouping(b) != [] && Grouping(a + b) == Merged([a], Grouping(b))
  {
    var m := RunLength(b);
    FirstBlock(b);
    SplitSum(a, b, m);
    OneRunAcrossAt(a, b[..m], b[m..]);
    MergeFirst(a, b[..m], Grouping(b[m..]));
  }

  lemma MergeFirst(a: seq<Kind>, run: seq<Kind>, rest: seq<seq<Kind>>)
    ensures Merged([a], [run] + rest) == [a + run] + rest
  {
    assert [a][..0] == [] && ([run] + rest)[1..] == rest;
  }

  /** What does not start blank starts with its first maximal run. */
  lemma FirstBlock(b: seq<Kind>)
    requires b != [] && !b[0].Blank?
    ensures var run, rest := b[..RunLength(b)], b[RunLength(b)..];
      && Grouping(b) == [run] + Grouping(rest) && IsRun(run) && run[0] == b[0]
      && (rest != [] ==> !Joins(run[|run| - 1], rest[0]))
  {
    RunLengthIsMaximal(b);
  }

  lemma OneRunAcrossAt(a: seq<Kind>, run: seq<Kind>, rest: seq<Kind>)
    requires IsRun(a) && IsRun(run) && Joins(a[|a| - 1], run[0])
    requires rest != [] ==> !Joins(run[|run| - 1], rest[0])
    ensures Grouping(a + run + rest) == [a + run] + Grouping(rest)
  {
    RunsMerge(a, run);
    RunThenRest(a + run, rest);
  }

  lemma RunsMerge(a: seq<Kind>, b: seq<Kind>)
    requires IsRun(a) && IsRun(b) && Joins(a[|a| - 1], b[0])
    ensures IsRun(a + b) && (a + b)[|a + b| - 1] == b[|b| - 1]
  {
    forall i | 0 < i < |a + b| ensures Joins((a + b)[0], (a + b)[i]) {
      if i >= |a| { assert i > |a| ==> Joins(b[0], b[i - |a|]); }
    }
  }

  // ---------------------------------------------------------------------------
  // The loop
  // ---------------------------------------------------------------------------

  function Closed(done: seq<seq<Kind>>, open: seq<Kind>): seq<seq<Kind>> {
    if open == [] then done else done + [open]
  }

  /** One line of the loop: what is finished, and the run that is still open. */
  function Step(done: seq<seq<Kind>>, open: seq<Kind>, k: Kind): (seq<seq<Kind>>, seq<Kind>) {
    if open != [] && Joins(open[|open| - 1], k) then (done, open + [k])
    else
      var closed := Closed(done, open);
      match k
      case Blank => (closed, [])
      case Rule => (closed + [[k]], [])
      case Heading(_, _) => (closed + [[k]], [])
      case Item(_, _) => (closed, [k])
      case Plain(_) => (closed, [k])
  }

  /** An item or a plain line goes on with the open run if it joins its first line, and opens a new one otherwise. */
  lemma StepAdds(done: seq<seq<Kind>>, open: seq<Kind>, k: Kind)
    requires (k.Item? || k.Plain?) && (open == [] || IsRun(open))
    ensures Step(done, open, k) ==
      if open != [] && Joins(open[0], k) then (done, open + [k]) else (Closed(done, open), [k])
  {
    assert |open| > 1 ==> Joins(open[0], open[|open| - 1]);
  }

  lemma StepSingle(done: seq<seq<Kind>>, open: seq<Kind>, k: Kind)
    requires k.Rule? || k.Heading?
    ensures Step(done, open, k) == (Closed(done, open) + [[k]], [])
  {
  }

  lemma StepKeepsGrouping(done: seq<seq<Kind>>, open: seq<Kind>, k: Kind, rest: seq<Kind>)
    requires open == [] || IsRun(open)
    ensures Step(done, open, k).0 + Grouping(Step(done, open, k).1 + rest) == done + Grouping(open + ([k] + rest))
    ensures Step(done, open, k).1 == [] || IsRun(Step(done, open, k).1)
  {
    if open != [] && Joins(open[|open| - 1], k) {
      assert open + [k] + rest == open + ([k] + rest);
    } else {
      CloseFirst(done, open, [k] + rest);
      OpenNext(k, rest);
      var closed := Closed(done, open);
      if k.Rule? || k.Heading? {
        assert closed + [[k]] + Grouping(rest) == closed + ([[k]] + Grouping(rest));
      }
    }
  }

  /** What is finished, what is open and what is still to come make up the whole document. */
  ghost predicate Balanced(done: seq<seq<Kind>>, open: seq<Kind>, kinds: seq<Kind>, i: nat) {
    i <= |kinds| && (open == [] || IsRun(open)) && done + Grouping(open + kinds[i..]) == Grouping(kinds)
  }

  lemma BalancedStart(kinds: seq<Kind>)
    ensures Balanced([], [], kinds, 0)
  {
    assert [] + kinds[0..] == kinds;
  }

  lemma BalancedStep(done: seq<seq<Kind>>, open: seq<Kind>, kinds: seq<Kind>, i: nat)
    requires i < |kinds| && Balanced(done, open, kinds, i)
    ensures Balanced(Step(done, open, kinds[i]).0, Step(done, open, kinds[i]).1, kinds, i + 1)
  {
    StepKeepsGrouping(done, open, kinds[i], kinds[i + 1..]);
    assert kinds[i..] == [kinds[i]] + kinds[i + 1..];
  }

  lemma BalancedEnd(done: seq<seq<Kind>>, open: seq<Kind>, kinds: seq<Kind>)
    requires Balanced(done, open, kinds, |kinds|)
    ensures Closed(done, open) == Grouping(kinds)
  {
    ClosingIsGrouping(done, open);
    assert open + kinds[|kinds|..] == open;
  }

  lemma CloseFirst(done: seq<seq<Kind>>, open: seq<Kind>, later: seq<Kind>)
    requires open == [] || (IsRun(open) && (later != [] ==> !Joins(open[|open| - 1], later[0])))
    ensures done + Grouping(open + later) == Closed(done, open) + Grouping(later)
  {
    if open == [] { assert open + later == later; } else { RunThenRest(open, later); }
  }

  lemma OpenNext(k: Kind, rest: seq<Kind>)
    ensures [] + rest == rest
    ensures k.Blank? ==> Grouping([k] + rest) == Grouping(rest)
    ensures k.Rule? || k.Heading? ==> Grouping([k] + rest) == [[k]] + Grouping(rest)
  {
    assert ([k] + rest)[1..] == rest;
    assert [] + rest == rest;
    if k.Rule? || k.Heading? { RunThenRest([k], rest); }
  }

  lemma ClosingIsGrouping(done: seq<seq<Kind>>, open: seq<Kind>)
    requires open == [] || IsRun(open)
    ensures Closed(done, open) == done + Grouping(open)
  {
    if open != [] {
      RunThenRest(open, []);
      assert open + [] == open;
    }
  }

  /** The two buffers are never both in use, and together they hold exactly the open run. */
  ghost predicate Fits(paragraph: seq<string>, items: seq<string>, listType: Option<bool>, open: seq<Kind>) {
    if open == [] then paragraph == [] && items == [] && listType.None?
    else
      && IsRun(open)
      && match open[0]
         case Plain(_) =>
           AllTidy(paragraph) && paragraph == Texts(open) && paragraph != [] && items == [] && listType.None?
         case Item(ordered, _) => paragraph == [] && items == Texts(open) && items != [] && listType == Some(ordered)
         case _ => false
  }

  ghost predicate AllTidy(texts: seq<string>) { forall t :: t in texts ==> Tidy(t) }

  /** The block an open paragraph becomes. */
  lemma OpenParagraph(paragraph: seq<string>, items: seq<string>, listType: Option<bool>, open: seq<Kind>)
    requires Fits(paragraph, items, listType, open)
    ensures paragraph != [] <==> open != [] && open[0].Plain?
    ensures paragraph != [] ==>
      AllTidy(paragraph) && items == [] && listType.None? && BlockOf(open) == Paragraph(JoinWith(" ", paragraph))
  {
  }

  /** The block an open list becomes. */
  lemma OpenItems(paragraph: seq<string>, items: seq<string>, listType: Option<bool>, open: seq<Kind>)
    requires Fits(paragraph, items, listType, open)
    ensures items != [] <==> open != [] && open[0].Item?
    ensures items != [] <==> listType.Some?
    ensures items != [] ==>
      paragraph == [] && listType == Some(open[0].ordered) && BlockOf(open) == List(listType.value, items)
  {
  }

  lemma ItemFits(items: seq<string>, open: seq<Kind>, ordered: bool, text: string)
    requires if open == [] then items == [] else Fits([], items, Some(ordered), open)
    ensures Fits([], items + [text], Some(ordered), open + [Item(ordered, text)])
  {
    TextsSnoc(open, Item(ordered, text));
    assert open == [] ==> Texts(open) == [];
  }

  lemma PlainFits(paragraph: seq<string>, open: seq<Kind>, text: string)
    requires Fits(paragraph, [], None, open) && Tidy(text)
    ensures Fits(paragraph + [text], [], None, open + [Plain(text)])
  {
    TextsSnoc(open, Plain(text));
    assert open == [] ==> Texts(open) == [];
  }

  class BlockWriter {
    var blocks: seq<Block>
    var paragraphBuffer: seq<string>
    var listItems: seq<string>
    /** Some(true) for "ol", Some(false) for "ul". */
    var listType: Option<bool>
    ghost var done: seq<seq<Kind>>
    ghost var open: seq<Kind>

    ghost predicate Valid()
      reads this
    {
      blocks == BlocksOf(done) && Fits(paragraphBuffer, listItems, listType, open)
    }

    constructor ()
      ensures Valid() && done == [] && open == []
    {
      blocks, paragraphBuffer, listItems, listType := [], [], [], None;
      done, open := [], [];
    }

    /** Keep the parts that are not blank, stripped, and join them with single spaces. */
    method JoinedParagraph() returns (text: string)
      requires AllTidy(paragraphBuffer)
      ensures text == JoinWith(" ", paragraphBuffer)
    {
      var kept: seq<string> := [];
      var i := 0;
      while i < |paragraphBuffer|
        invariant 0 <= i <= |paragraphBuffer| && kept == paragraphBuffer[..i]
      {
        assert paragraphBuffer[i] in paragraphBuffer;
        TidyStrips(paragraphBuffer[i]);
        if Strip(paragraphBuffer[i]) != "" { kept := kept + [Strip(paragraphBuffer[i])]; }
        i := i + 1;
      }
      assert paragraphBuffer[..i] == paragraphBuffer;
      text := JoinWith(" ", kept);
    }

    method FlushParagraph()
      requires Valid()
      modifies this
      ensures Valid() && paragraphBuffer == []
      ensures if old(open) != [] && old(open)[0].Plain?
              then open == [] && done == old(done) + [old(open)]
              else open == old(open) && done == old(done)
    {
      OpenParagraph(paragraphBuffer, listItems, listType, open);
      if paragraphBuffer == [] { return; }
      var text := JoinedParagraph();
      Emit(Paragraph(text), open);
      paragraphBuffer, open := [], [];
    }

    /** Append the block of a finished run. */
    method Emit(block: Block, ghost run: seq<Kind>)
      requires blocks == BlocksOf(done) && block == BlockOf(run)
      modifies this`blocks, this`done
      ensures blocks == BlocksOf(done) && done == old(done) + [run]
    {
      BlocksSnoc(done, run);
      blocks := blocks + [block];
      done := done + [run];
    }

    method FlushList()
      requires Valid()
      modifies this
      ensures Valid() && listItems == []
      ensures if old(open) != [] && old(open)[0].Item?
              then open == [] && done == old(done) + [old(open)]
              else open == old(open) && done == old(done)
    {
      OpenItems(paragraphBuffer, listItems, listType, open);
      if listItems == [] || listType.None? { return; }
      Emit(List(listType.value, listItems), open);
      listItems, listType, open := [], None, [];
    }

    method Single(block: Block, ghost k: Kind)
      requires Valid() && (k.Rule? || k.Heading?) && block == BlockOf([k])
      modifies this
      ensures Valid() && (done, open) == Step(old(done), old(open), k)
    {
      Separate();
      StepSingle(old(done), old(open), k);
      Emit(block, [k]);
    }

    /** Both flushes: the open run, if there is one, becomes a block. */
    method Separate()
      requires Valid()
      modifies this
      ensures Valid() && open == [] && done == Closed(old(done), old(open))
    {
      FlushParagraph();
      FlushList();
    }

    /** Make room for an item: what is open stays only if it is a list of the same type. */
    method OpenList(ordered: bool)
      requires Valid()
      modifies this
      ensures Valid() && paragraphBuffer == []
      ensures if old(open) != [] && old(open)[0].Item? && old(open)[0].ordered == ordered
              then open == old(open) && done == old(done)
              else open == [] && done == Closed(old(done), old(open))
    {
      FlushParagraph();
      if listType.Some? && listType.value != ordered { FlushList(); }
    }

    method AddItem(ordered: bool, text: string)
      requires Valid()
      modifies this
      ensures Valid() && (done, open) == Step(old(done), old(open), Item(ordered, text))
    {
      StepAdds(done, open, Item(ordered, text));
      OpenList(ordered);
      listType := Some(ordered);
      ItemFits(listItems, open, ordered, text);
      listItems := listItems + [text];
      open := open + [Item(ordered, text)];
    }

    method AddPlain(text: string)
      requires Valid() && Tidy(text)
      modifies this
      ensures Valid() && (done, open) == Step(old(done), old(open), Plain(text))
    {
      StepAdds(done, open, Plain(text));
      FlushList();
      PlainFits(paragraphBuffer, open, text);
      paragraphBuffer := paragraphBuffer + [text];
      open := open + [Plain(text)];
    }

    method Feed(raw: string)
      requires Valid()
      modifies this
      ensures Valid() && (done, open) == Step(old(done), old(open), KindOf(raw))
    {
      var line := StripRight(raw);
      var stripped := Strip(line);
      if stripped == "" {
        Separate();
        return;
      }
      if |stripped| >= 3 && AllDashes(stripped) {
        Single(Line, Rule);
        return;
      }
      var level := HeadingLevel(stripped);
      if level > 0 {
        Single(Title(level, stripped[level + 1..]), Heading(level, stripped[level + 1..]));
        return;
      }
      var unordered := UnorderedText(stripped);
      if unordered.Some? {
        AddItem(false, unordered.value);
        return;
      }
      var ordered := OrderedText(stripped);
      if ordered.Some? {
        AddItem(true, ordered.value);
        return;
      }
      StripEnds(line);
      AddPlain(stripped);
    }
  }

  /** The loop's blocks are those of the document's maximal runs. */
  method MarkdownToBlocks(lines: seq<string>) returns (blocks: seq<Block>)
    ensures blocks == BlocksOf(Grouping(Kinds(lines)))
  {
    var writer := new BlockWriter();
    ghost var kinds := Kinds(lines);
    BalancedStart(kinds);
    var i := 0;
    while i < |lines|
      invariant 0 <= i <= |lines| && fresh(writer) && writer.Valid()
      invariant Balanced(writer.done, writer.open, kinds, i)
    {
      BalancedStep(writer.done, writer.open, kinds, i);
      writer.Feed(lines[i]);
      i := i + 1;
    }
    BalancedEnd(writer.done, writer.open, kinds);
    writer.Separate();
    blocks := writer.blocks;
  }
}
