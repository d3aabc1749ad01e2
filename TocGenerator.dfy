/**
 * The table-of-contents generator: one indented Markdown bullet per heading,
 * linking to its slug, built up in a string builder and then assigned to
 * the context's `toc`, replacing what was there.
 */
module TocGenerator {
  import opened JavaString
  import opened Context

  /** `"  ".repeat(Math.max(0, level - 1))`. */
  function Indent(level: int): string
  {
    Repeat("  ", if level - 1 > 0 then level - 1 else 0)
  }

  /** One entry without its line break: `indent + "- [" + heading + "](#" + slug + ")"`. */
  function TocLine(heading: string, slug: string, level: int): string
  {
    Indent(level) + "- [" + heading + "](#" + slug + ")"
  }

  /** The entries of the first `n` headings, in order. */
  function TocLines(headings: seq<string>, slugs: seq<string>, levels: seq<int>, n: nat): (lines: seq<string>)
    requires n <= |headings| && n <= |slugs| && n <= |levels|
    ensures |lines| == n
  {
    if n == 0 then []
    else TocLines(headings, slugs, levels, n - 1) + [TocLine(headings[n - 1], slugs[n - 1], levels[n - 1])]
  }

  /**
   * The effect of `process`: `get(i)` on a list shorter than `headings` throws
   * before `toc` is assigned; otherwise `toc` is every entry followed by '\n'.
   */
  function TocGeneration(d: Doc): Run
  {
    var n := |d.headings|;
    if |d.slugs| < n || |d.headingLevels| < n then Run(d, Threw(IndexOutOfBounds))
    else Run(d.(toc := Unlines(TocLines(d.headings, d.slugs, d.headingLevels, n))), Completed)
  }

  /** `TocGenerator.process`: the indexed loop appending one entry per heading. */
  method Process(context: MarkdownContext) returns (outcome: Outcome)
    modifies context
    ensures Run(context.Snapshot(), outcome) == TocGeneration(old(context.Snapshot()))
  {
    var headings, slugs, levels := context.headings, context.slugs, context.headingLevels;
    var builder := "";
    for i := 0 to |headings|
      invariant i <= |slugs| && i <= |levels|
      invariant builder == Unlines(TocLines(headings, slugs, levels, i))
      invariant context.Snapshot() == old(context.Snapshot())
    {
      var heading := headings[i];
      if i >= |slugs| {
        return Threw(IndexOutOfBounds);
      }
      var slug := slugs[i];
      if i >= |levels| {
        return Threw(IndexOutOfBounds);
      }
      var level := levels[i];
      var indent := Repeat("  ", if level - 1 > 0 then level - 1 else 0);
      ghost var before := TocLines(headings, slugs, levels, i);
      ghost var entry := TocLine(heading, slug, level);
      assert TocLines(headings, slugs, levels, i + 1) == before + [entry];
      assert Unlines(before + [entry]) == builder + entry + "\n" by {
        assert (before + [entry])[..i] == before;
      }
      AppendEntry(builder, indent, heading, slug, level);
      builder := builder + indent + "- [" + heading + "](#" + slug + ")\n";
    }
    context.toc := builder;
    return Completed;
  }

  /** Appending the pieces of one entry and its line break appends the entry and a line break. */
  lemma AppendEntry(builder: string, indent: string, heading: string, slug: string, level: int)
    requires indent == Indent(level)
    ensures builder + indent + "- [" + heading + "](#" + slug + ")\n" == builder + TocLine(heading, slug, level) + "\n"
  {
  }

  /** An indent is `2 * max(0, level - 1)` spaces, fixed by that heading's own level. */
  lemma IndentIsSpaces(level: int)
    ensures Indent(level) == RepeatChar(' ', 2 * (if level - 1 > 0 then level - 1 else 0))
  {
    RepeatTwoSpaces(if level - 1 > 0 then level - 1 else 0);
  }

  lemma {:induction false} RepeatTwoSpaces(n: nat)
    ensures Repeat("  ", n) == RepeatChar(' ', 2 * n)
  {
    if n > 0 {
      RepeatTwoSpaces(n - 1);
      assert RepeatChar(' ', 2 * n) == [' '] + ([' '] + RepeatChar(' ', 2 * (n - 1)));
    }
  }

  /** Entry k of the contents is built from heading k, slug k and level k. */
  lemma {:induction false} TocLineAt(headings: seq<string>, slugs: seq<string>, levels: seq<int>, n: nat, k: nat)
    requires n <= |headings| && n <= |slugs| && n <= |levels| && k < n
    ensures TocLines(headings, slugs, levels, n)[k] == TocLine(headings[k], slugs[k], levels[k])
  {
    if k < n - 1 {
      TocLineAt(headings, slugs, levels, n - 1, k);
    }
  }

  /** With no headings the contents are empty, whatever `toc` held before. */
  lemma NoHeadingsNoToc(d: Doc)
    requires d.headings == []
    ensures TocGeneration(d) == Run(d.(toc := ""), Completed)
  {
  }

  /**
   * The contents read back line by line are the entries: no entry is empty and,
   * when no heading and no slug holds a '\n', none spans two lines.
   */
  lemma TocSplitsIntoEntries(d: Doc)
    requires d.headings != []
    requires |d.slugs| >= |d.headings| && |d.headingLevels| >= |d.headings|
    requires forall k :: 0 <= k < |d.headings| ==> '\n' !in d.headings[k] && '\n' !in d.slugs[k]
    ensures TocGeneration(d).outcome.Completed?
    ensures Split(TocGeneration(d).doc.toc) == TocLines(d.headings, d.slugs, d.headingLevels, |d.headings|)
  {
    var n := |d.headings|;
    var lines := TocLines(d.headings, d.slugs, d.headingLevels, n);
    forall k | 0 <= k < n
      ensures '\n' !in lines[k]
    {
      TocLineAt(d.headings, d.slugs, d.headingLevels, n, k);
      IndentIsSpaces(d.headingLevels[k]);
      var l := d.headingLevels[k];
      var ind := Indent(l);
      assert lines[k] == ind + "- [" + d.headings[k] + "](#" + d.slugs[k] + ")";
      assert '\n' !in ind;
    }
    TocLineAt(d.headings, d.slugs, d.headingLevels, n, n - 1);
    SplitUnlines(lines);
  }
}
