/**
 * The heading extractor: every line of the content that, once trimmed, is
 * an ATX heading (`^#{1,6} .+`) contributes its level and its text, in
 * line order, to the two parallel lists of the context.
 */
module HeadingExtractor {
  import opened JavaString
  import opened Context

  /** The number of '#' characters `t` starts with. */
  function HashRun(t: string): (h: nat)
    ensures h <= |t|
  {
    if t != [] && t[0] == '#' then 1 + HashRun(t[1..]) else 0
  }

  /** The run is all '#' and is not followed by another '#'. */
  lemma {:induction false} HashRunMeaning(t: string)
    ensures forall k :: 0 <= k < HashRun(t) ==> t[k] == '#'
    ensures HashRun(t) < |t| ==> t[HashRun(t)] != '#'
  {
    if t != [] && t[0] == '#' {
      HashRunMeaning(t[1..]);
    }
  }

  /**
   * `t.matches("^#{1,6} .+")`: one to six '#' (necessarily the whole run,
   * since a further '#' is not the space), one space, then at least one
   * character that `.` accepts.
   */
  predicate IsAtxHeading(t: string)
  {
    var h := HashRun(t);
    1 <= h <= 6 && h + 1 < |t| && t[h] == ' ' &&
    forall k :: h + 1 <= k < |t| ==> !IsLineTerminator(t[k])
  }

  /** The regex read literally: some count of '#' between 1 and 6, a space, a non-empty rest. */
  ghost predicate AtxRegex(t: string)
  {
    exists j :: 1 <= j <= 6 && j + 1 < |t| && AtxSplitAt(t, j)
  }

  ghost predicate AtxSplitAt(t: string, j: nat)
    requires j + 1 < |t|
  {
    (forall k :: 0 <= k < j ==> t[k] == '#') && t[j] == ' ' &&
    forall k :: j + 1 <= k < |t| ==> !IsLineTerminator(t[k])
  }

  /** The greedy reading agrees with the backtracking one. */
  lemma AtxHeadingIsRegex(t: string)
    ensures IsAtxHeading(t) <==> AtxRegex(t)
  {
    if IsAtxHeading(t) {
      HashRunMeaning(t);
      assert AtxSplitAt(t, HashRun(t));
    }
    if AtxRegex(t) {
      var j :| 1 <= j <= 6 && j + 1 < |t| && AtxSplitAt(t, j);
      HashRunIs(t, j);
    }
  }

  /** A '#' run of length `j` not followed by another '#' is the whole run. */
  lemma {:induction false} HashRunIs(t: string, j: nat)
    requires j <= |t| && forall k :: 0 <= k < j ==> t[k] == '#'
    requires j < |t| ==> t[j] != '#'
    ensures HashRun(t) == j
  {
    if j > 0 {
      HashRunIs(t[1..], j - 1);
    }
  }

  /** `replaceFirst("^#+ ", "")`: the leading '#' run and the space after it removed, if both are there. */
  function StripMarker(t: string): string
  {
    var h := HashRun(t);
    if 1 <= h && h < |t| && t[h] == ' ' then t[h + 1..] else t
  }

  /** The extractor's test on one line; the injector repeats it. */
  predicate Matches(line: string)
  {
    IsAtxHeading(Trim(line))
  }

  /** The heading text a matching line contributes. */
  function HeadingText(line: string): string
  {
    StripMarker(Trim(line))
  }

  /** The heading level a matching line contributes. */
  function HeadingLevel(line: string): int
  {
    HashRun(Trim(line))
  }

  /** The number of matching lines. */
  function MatchCount(lines: seq<string>): (n: nat)
    ensures n <= |lines|
  {
    if lines == [] then 0
    else MatchCount(lines[..|lines| - 1]) + (if Matches(lines[|lines| - 1]) then 1 else 0)
  }

  /** The texts of the matching lines, in line order. */
  function HeadingTexts(lines: seq<string>): seq<string>
  {
    if lines == [] then []
    else
      var last := lines[|lines| - 1];
      HeadingTexts(lines[..|lines| - 1]) + (if Matches(last) then [HeadingText(last)] else [])
  }

  /** The levels of the matching lines, in line order. */
  function HeadingLevels(lines: seq<string>): seq<int>
  {
    if lines == [] then []
    else
      var last := lines[|lines| - 1];
      HeadingLevels(lines[..|lines| - 1]) + (if Matches(last) then [HeadingLevel(last)] else [])
  }

  /** The effect of `process`: texts and levels appended after the existing entries, nothing else changed. */
  function Extraction(d: Doc): Doc
  {
    var lines := Split(d.originalContent);
    d.(headings := d.headings + HeadingTexts(lines),
       headingLevels := d.headingLevels + HeadingLevels(lines))
  }

  /**
   * `HeadingExtractor.process`: one pass over the lines, the level counted by
   * a loop over the leading '#' characters.
   */
  method Process(context: MarkdownContext)
    modifies context
    ensures context.Snapshot() == Extraction(old(context.Snapshot()))
  {
    var lines := Split(context.originalContent);
    for i := 0 to |lines|
      invariant context.originalContent == old(context.originalContent)
      invariant context.slugs == old(context.slugs) && context.toc == old(context.toc)
      invariant context.headings == old(context.headings) + HeadingTexts(lines[..i])
      invariant context.headingLevels == old(context.headingLevels) + HeadingLevels(lines[..i])
    {
      ExtractedStep(lines, i);
      var line := lines[i];
      var trimmed := Trim(line);
      assert Matches(line) == IsAtxHeading(trimmed);
      if IsAtxHeading(trimmed) {
        assert HeadingText(line) == StripMarker(trimmed);
        var level := 0;
        HashRunMeaning(trimmed);
        while level < |trimmed| && trimmed[level] == '#'
          invariant level <= HashRun(trimmed)
        {
          level := level + 1;
        }
        assert HeadingLevel(line) == level;
        AppendAssociates(old(context.headings), HeadingTexts(lines[..i]), [StripMarker(trimmed)]);
        AppendAssociates(old(context.headingLevels), HeadingLevels(lines[..i]), [level]);
        context.headingLevels := context.headingLevels + [level];
        context.headings := context.headings + [StripMarker(trimmed)];
      } else {
        assert HeadingTexts(lines[..i]) + [] == HeadingTexts(lines[..i]);
        assert HeadingLevels(lines[..i]) + [] == HeadingLevels(lines[..i]);
      }
    }
    assert lines[..|lines|] == lines;
  }

  /** One more line adds its own entry, if it matches. */
  lemma ExtractedStep(lines: seq<string>, i: nat)
    requires i < |lines|
    ensures HeadingTexts(lines[..i + 1]) == HeadingTexts(lines[..i]) + (if Matches(lines[i]) then [HeadingText(lines[i])] else [])
    ensures HeadingLevels(lines[..i + 1]) == HeadingLevels(lines[..i]) + (if Matches(lines[i]) then [HeadingLevel(lines[i])] else [])
  {
    assert lines[..i + 1][..i] == lines[..i];
  }

  /** Both lists grow by the number of matching lines, so the lists stay parallel. */
  lemma {:induction false} ExtractedCounts(lines: seq<string>)
    ensures |HeadingTexts(lines)| == MatchCount(lines)
    ensures |HeadingLevels(lines)| == MatchCount(lines)
  {
    if lines != [] {
      ExtractedCounts(lines[..|lines| - 1]);
    }
  }

  /** A single line contributes its entry if it matches and nothing otherwise. */
  lemma ExtractedLine(line: string)
    ensures HeadingTexts([line]) == if Matches(line) then [HeadingText(line)] else []
    ensures HeadingLevels([line]) == if Matches(line) then [HeadingLevel(line)] else []
    ensures MatchCount([line]) == if Matches(line) then 1 else 0
  {
    assert [line][..0] == [];
  }

  /** Extraction from joined line lists: entries of the earlier lines come first. */
  lemma {:induction false} ExtractedConcat(a: seq<string>, b: seq<string>)
    ensures HeadingTexts(a + b) == HeadingTexts(a) + HeadingTexts(b)
    ensures HeadingLevels(a + b) == HeadingLevels(a) + HeadingLevels(b)
    ensures MatchCount(a + b) == MatchCount(a) + MatchCount(b)
    decreases |b|
  {
    if b == [] {
      assert a + b == a;
    } else {
      var b' := b[..|b| - 1];
      assert (a + b)[..|a + b| - 1] == a + b';
      assert (a + b)[|a + b| - 1] == b[|b| - 1];
      ExtractedConcat(a, b');
    }
  }

  /**
   * A matching line at position `i` supplies entry number `MatchCount(lines[..i])`
   * of both lists: its own text and level.
   */
  lemma ExtractedAtLine(lines: seq<string>, i: nat)
    requires i < |lines| && Matches(lines[i])
    ensures MatchCount(lines[..i]) < MatchCount(lines)
    ensures MatchCount(lines[..i]) < |HeadingTexts(lines)| && MatchCount(lines[..i]) < |HeadingLevels(lines)|
    ensures HeadingTexts(lines)[MatchCount(lines[..i])] == HeadingText(lines[i])
    ensures HeadingLevels(lines)[MatchCount(lines[..i])] == HeadingLevel(lines[i])
  {
    assert lines == lines[..i] + [lines[i]] + lines[i + 1..];
    assert lines[..i + 1][..i] == lines[..i];
    ExtractedConcat(lines[..i], [lines[i]]);
    assert lines[..i] + [lines[i]] == lines[..i + 1];
    ExtractedConcat(lines[..i + 1], lines[i + 1..]);
    assert [lines[i]][..0] == [];
    ExtractedCounts(lines[..i]);
  }

  /** A matching line has a level between 1 and 6 and a non-empty text that is its trimmed form minus the marker. */
  lemma MatchingLine(line: string)
    requires Matches(line)
    ensures 1 <= HeadingLevel(line) <= 6
    ensures HeadingText(line) != []
    ensures Trim(line) == RepeatChar('#', HeadingLevel(line)) + " " + HeadingText(line)
  {
    var t := Trim(line);
    var h := HashRun(t);
    HashRunMeaning(t);
    assert t == t[..h] + [t[h]] + t[h + 1..];
    assert t[..h] == RepeatChar('#', h) by {
      RepeatCharIsRun(t[..h], '#');
    }
  }

  lemma {:induction false} RepeatCharIsRun(s: string, c: char)
    requires forall k :: 0 <= k < |s| ==> s[k] == c
    ensures s == RepeatChar(c, |s|)
  {
    if s != [] {
      RepeatCharIsRun(s[..|s| - 1], c);
      assert s == s[..|s| - 1] + [c];
    }
  }

  /** Every extracted entry has a level between 1 and 6 and a non-empty text. */
  lemma {:induction false} ExtractedEntries(lines: seq<string>)
    ensures forall j :: 0 <= j < |HeadingLevels(lines)| ==> 1 <= HeadingLevels(lines)[j] <= 6
    ensures forall j :: 0 <= j < |HeadingTexts(lines)| ==> HeadingTexts(lines)[j] != []
  {
    if lines != [] {
      var last := lines[|lines| - 1];
      ExtractedEntries(lines[..|lines| - 1]);
      if Matches(last) {
        MatchingLine(last);
      }
    }
  }

  /** Whitespace around a line changes neither whether it matches nor what it contributes. */
  lemma SurroundingWhitespace(w1: string, line: string, w2: string)
    requires AllTrimmable(w1) && AllTrimmable(w2)
    ensures Matches(w1 + line + w2) == Matches(line)
    ensures HeadingText(w1 + line + w2) == HeadingText(line)
    ensures HeadingLevel(w1 + line + w2) == HeadingLevel(line)
  {
    TrimIgnoresSurrounding(w1, line, w2);
  }

  /** Lines that contribute nothing: no space after the marker, seven '#', no text after the space. */
  lemma NoSpaceIsNoHeading()
    ensures !Matches("#Title")
  {
    TrimIsMiddle("#Title", 0, 6);
  }

  lemma SevenHashesIsNoHeading()
    ensures !Matches("####### x")
  {
    var t := "####### x";
    TrimIsMiddle(t, 0, 9);
    HashRunIs(t, 7);
  }

  lemma NoTextIsNoHeading()
    ensures !Matches("  ## ")
  {
    TrimIsMiddle("  ## ", 2, 4);
  }

  lemma SixHashesIsHeading()
    ensures Matches(" ###### x ") && HeadingText(" ###### x ") == "x" && HeadingLevel(" ###### x ") == 6
  {
    assert RepeatChar('#', 6) == "######";
    assert " ###### x " == " " + RepeatChar('#', 6) + " " + "x" + " ";
    HeadingLine(" ", 6, "x", " ");
  }

  /**
   * A marker of one to six '#', a space and a text with visible ends and no
   * line terminator, with whitespace around it, is a heading of that level
   * and that text.
   */
  lemma HeadingLine(w1: string, h: nat, text: string, w2: string)
    requires AllTrimmable(w1) && AllTrimmable(w2) && 1 <= h <= 6
    requires text != [] && !IsTrimmable(text[0]) && !IsTrimmable(text[|text| - 1])
    requires forall k :: 0 <= k < |text| ==> !IsLineTerminator(text[k])
    ensures var line := w1 + RepeatChar('#', h) + " " + text + w2;
      Matches(line) && HeadingText(line) == text && HeadingLevel(line) == h
  {
    var t := RepeatChar('#', h) + " " + text;
    AppendAssociates(w1, RepeatChar('#', h), " ");
    AppendAssociates(w1, RepeatChar('#', h) + " ", text);
    MarkedLine(h, text);
    TrimIgnoresSurrounding(w1, t, w2);
  }

  /** The trimmed form of such a line: it is its own trim, and its marker and text are as built. */
  lemma MarkedLine(h: nat, text: string)
    requires 1 <= h <= 6
    requires text != [] && !IsTrimmable(text[0]) && !IsTrimmable(text[|text| - 1])
    requires forall k :: 0 <= k < |text| ==> !IsLineTerminator(text[k])
    ensures var t := RepeatChar('#', h) + " " + text;
      Trim(t) == t && IsAtxHeading(t) && HashRun(t) == h && StripMarker(t) == text
  {
    var t := RepeatChar('#', h) + " " + text;
    assert Trim(t) == t by {
      assert t[0] == '#' && t[|t| - 1] == text[|text| - 1];
      assert t[..0] == [] && t[|t|..] == [];
      TrimIsMiddle(t, 0, |t|);
      assert t[0..|t|] == t;
    }
    assert HashRun(t) == h by {
      HashRunIs(t, h);
    }
    assert t[h + 1..] == text;
  }

}
