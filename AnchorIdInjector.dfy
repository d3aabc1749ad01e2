/**
 * The anchor injector: a second pass over the lines of the content that
 * repeats the extractor's test and rewrites the next not yet used heading
 * into `hashPrefix heading {#slug}`, copying every other line, and replaces
 * the content by the result.
 */
module AnchorIdInjector {
  import opened JavaString
  import opened Context
  import opened HeadingExtractor

  /**
   * The rewrite of one line: the trimmed text before the first occurrence of
   * the heading text, the text and the anchor; `substring(0, -1)` throws when
   * the text does not occur.
   */
  function RewriteLine(line: string, text: string, slug: string): Result<string>
  {
    match IndexOf(line, text)
    case None => Failure(StringIndexOutOfBounds)
    case Some(k) => Success(Trim(line[..k]) + " " + text + " {#" + slug + "}")
  }

  /** The value of `headingIndex` after `lines`: matching lines counted until all headings are used. */
  function RunningIndex(lines: seq<string>, headingCount: nat): nat
  {
    if MatchCount(lines) < headingCount then MatchCount(lines) else headingCount
  }

  /** The output for one line when `headingIndex` is `index`. */
  function InjectedLine(line: string, index: nat, headings: seq<string>, slugs: seq<string>): Result<string>
  {
    if index < |headings| && Matches(line) then
      if index < |slugs| then RewriteLine(line, headings[index], slugs[index]) else Failure(IndexOutOfBounds)
    else Success(line)
  }

  /** The output lines for `lines`, or the first exception. */
  function Injected(lines: seq<string>, headings: seq<string>, slugs: seq<string>): Result<seq<string>>
  {
    if lines == [] then Success([])
    else
      var init := lines[..|lines| - 1];
      match Injected(init, headings, slugs)
      case Failure(e) => Failure(e)
      case Success(out) =>
        match InjectedLine(lines[|lines| - 1], RunningIndex(init, |headings|), headings, slugs)
        case Failure(e) => Failure(e)
        case Success(line) => Success(out + [line])
  }

  /** The new content: the output lines, each followed by '\n', or the first exception. */
  function Injection(lines: seq<string>, headings: seq<string>, slugs: seq<string>): Result<string>
  {
    match Injected(lines, headings, slugs)
    case Failure(e) => Failure(e)
    case Success(out) => Success(Unlines(out))
  }

  /** The effect of `process`: the content replaced by the new content, unless an exception ends it first. */
  function AnchorIdInjection(d: Doc): Run
  {
    match Injection(Split(d.originalContent), d.headings, d.slugs)
    case Failure(e) => Run(d, Threw(e))
    case Success(content) => Run(d.(originalContent := content), Completed)
  }

  /** `AnchorIdInjector.process`: the new content is built first, then assigned. */
  method Process(context: MarkdownContext) returns (outcome: Outcome)
    modifies context
    ensures Run(context.Snapshot(), outcome) == AnchorIdInjection(old(context.Snapshot()))
  {
    var modified := Inject(Split(context.originalContent), context.headings, context.slugs);
    if modified.Failure? {
      return Threw(modified.error);
    }
    context.originalContent := modified.value;
    return Completed;
  }

  /** The line loop of `process`, with its running heading index and string builder. */
  method Inject(lines: seq<string>, headings: seq<string>, slugs: seq<string>) returns (r: Result<string>)
    ensures r == Injection(lines, headings, slugs)
  {
    var modified := "";
    var headingIndex := 0;
    for i := 0 to |lines|
      invariant headingIndex == RunningIndex(lines[..i], |headings|)
      invariant Injected(lines[..i], headings, slugs).Success?
      invariant modified == Unlines(Injected(lines[..i], headings, slugs).value)
    {
      var line := lines[i];
      RunningIndexStep(lines, i, |headings|);
      if headingIndex < |headings| && Matches(line) {
        var headingText := headings[headingIndex];
        if headingIndex >= |slugs| {
          InjectStep(lines, i, headings, slugs);
          InjectFailurePersists(lines, headings, slugs, i + 1);
          return Failure(IndexOutOfBounds);
        }
        var slug := slugs[headingIndex];
        var at := IndexOf(line, headingText);
        if at.None? {
          InjectStep(lines, i, headings, slugs);
          InjectFailurePersists(lines, headings, slugs, i + 1);
          return Failure(StringIndexOutOfBounds);
        }
        var hashPrefix := Trim(line[..at.value]);
        var rewritten := hashPrefix + " " + headingText + " {#" + slug + "}";
        InjectAppend(lines, i, headings, slugs, rewritten);
        modified := modified + rewritten;
        headingIndex := headingIndex + 1;
      } else {
        InjectAppend(lines, i, headings, slugs, line);
        modified := modified + line;
      }
      modified := modified + "\n";
    }
    assert lines[..|lines|] == lines;
    return Success(modified);
  }

  /** One more line: its output after the earlier ones, or its exception. */
  lemma InjectStep(lines: seq<string>, i: nat, headings: seq<string>, slugs: seq<string>)
    requires i < |lines| && Injected(lines[..i], headings, slugs).Success?
    ensures Injected(lines[..i + 1], headings, slugs)
         == match InjectedLine(lines[i], RunningIndex(lines[..i], |headings|), headings, slugs)
            case Failure(e) => Failure(e)
            case Success(line) => Success(Injected(lines[..i], headings, slugs).value + [line])
  {
    assert lines[..i + 1][..i] == lines[..i];
  }

  /** One more line that does not throw: the builder grows by its output and a '\n'. */
  lemma InjectAppend(lines: seq<string>, i: nat, headings: seq<string>, slugs: seq<string>, next: string)
    requires i < |lines| && Injected(lines[..i], headings, slugs).Success?
    requires InjectedLine(lines[i], RunningIndex(lines[..i], |headings|), headings, slugs) == Success(next)
    ensures Injected(lines[..i + 1], headings, slugs).Success?
    ensures Unlines(Injected(lines[..i + 1], headings, slugs).value)
         == Unlines(Injected(lines[..i], headings, slugs).value) + next + "\n"
  {
    InjectStep(lines, i, headings, slugs);
    var out := Injected(lines[..i], headings, slugs).value;
    assert (out + [next])[..|out + [next]| - 1] == out;
  }

  /** `headingIndex` rises by one exactly on a rewritten line and never passes the number of headings. */
  lemma RunningIndexStep(lines: seq<string>, i: nat, headingCount: nat)
    requires i < |lines|
    ensures RunningIndex(lines[..i], headingCount) <= headingCount
    ensures RunningIndex(lines[..i + 1], headingCount)
         == RunningIndex(lines[..i], headingCount) +
            (if RunningIndex(lines[..i], headingCount) < headingCount && Matches(lines[i]) then 1 else 0)
  {
    assert lines[..i + 1][..i] == lines[..i];
  }

  /** An exception ends the pass: the whole pass fails with it. */
  lemma {:induction false} InjectFailurePersists(lines: seq<string>, headings: seq<string>, slugs: seq<string>, n: nat)
    requires n <= |lines| && Injected(lines[..n], headings, slugs).Failure?
    ensures Injected(lines, headings, slugs) == Injected(lines[..n], headings, slugs)
    decreases |lines| - n
  {
    if n < |lines| {
      assert lines[..n + 1][..n] == lines[..n];
      InjectFailurePersists(lines, headings, slugs, n + 1);
    } else {
      assert lines[..n] == lines;
    }
  }

  /**
   * A completed pass has one output line per input line: line i is what
   * `InjectedLine` makes of it with the running index of the lines before it.
   */
  lemma {:induction false} InjectedLines(lines: seq<string>, headings: seq<string>, slugs: seq<string>)
    requires Injected(lines, headings, slugs).Success?
    ensures |Injected(lines, headings, slugs).value| == |lines|
    ensures forall i :: 0 <= i < |lines| ==>
      InjectedLine(lines[i], RunningIndex(lines[..i], |headings|), headings, slugs)
        == Success(Injected(lines, headings, slugs).value[i])
  {
    if lines != [] {
      var init := lines[..|lines| - 1];
      var last := lines[|lines| - 1];
      InjectedLines(init, headings, slugs);
      var out := Injected(init, headings, slugs).value;
      var next := InjectedLine(last, RunningIndex(init, |headings|), headings, slugs).value;
      assert Injected(lines, headings, slugs).value == out + [next];
      forall i | 0 <= i < |lines|
        ensures InjectedLine(lines[i], RunningIndex(lines[..i], |headings|), headings, slugs)
             == Success((out + [next])[i])
      {
        if i < |init| {
          assert lines[..i] == init[..i] && lines[i] == init[i];
        } else {
          assert lines[..i] == init;
        }
      }
    }
  }

  /** Every line the pass reaches has a slug and, if it is rewritten, contains its heading text. */
  predicate EveryLineSucceeds(lines: seq<string>, headings: seq<string>, slugs: seq<string>)
  {
    forall i :: 0 <= i < |lines| ==> InjectedLine(lines[i], RunningIndex(lines[..i], |headings|), headings, slugs).Success?
  }

  /** The pass completes exactly when every line it rewrites has a slug and contains its heading text. */
  lemma InjectedSucceeds(lines: seq<string>, headings: seq<string>, slugs: seq<string>)
    ensures Injected(lines, headings, slugs).Success? <==> EveryLineSucceeds(lines, headings, slugs)
  {
    if Injected(lines, headings, slugs).Success? {
      InjectedLines(lines, headings, slugs);
    }
    if EveryLineSucceeds(lines, headings, slugs) {
      EveryLineSucceedsCompletes(lines, headings, slugs);
    }
  }

  lemma {:induction false} EveryLineSucceedsCompletes(lines: seq<string>, headings: seq<string>, slugs: seq<string>)
    requires EveryLineSucceeds(lines, headings, slugs)
    ensures Injected(lines, headings, slugs).Success?
  {
    if lines != [] {
      var init := lines[..|lines| - 1];
      forall i | 0 <= i < |init|
        ensures InjectedLine(init[i], RunningIndex(init[..i], |headings|), headings, slugs).Success?
      {
        assert lines[..i] == init[..i];
        assert lines[i] == init[i];
      }
      EveryLineSucceedsCompletes(init, headings, slugs);
      assert lines[..|lines| - 1] == init;
    }
  }

  /** Lines after all headings are used, and lines that do not match, are copied unchanged. */
  lemma CopiedLines(line: string, index: nat, headings: seq<string>, slugs: seq<string>)
    requires index >= |headings| || !Matches(line)
    ensures InjectedLine(line, index, headings, slugs) == Success(line)
  {
  }

  /** The output of a completed pass is its lines, each ended by '\n'; split again it gives those lines back. */
  lemma InjectedOutput(out: seq<string>)
    requires out != [] && out[|out| - 1] != ""
    requires forall k :: 0 <= k < |out| ==> '\n' !in out[k]
    ensures Unlines(out)[|Unlines(out)| - 1] == '\n'
    ensures Split(Unlines(out)) == out
  {
    SplitUnlines(out);
  }

  /**
   * A heading line whose text starts with a visible character other than '#'
   * keeps its marker: the `hashPrefix` is exactly the '#' run.
   */
  lemma HashPrefixOfHeading(w1: string, h: nat, text: string, w2: string, slug: string)
    requires AllTrimmable(w1) && AllTrimmable(w2) && h >= 1
    requires text != [] && text[0] != '#' && !IsTrimmable(text[0])
    ensures RewriteLine(w1 + RepeatChar('#', h) + " " + text + w2, text, slug)
         == Success(RepeatChar('#', h) + " " + text + " {#" + slug + "}")
  {
    var hashes := RepeatChar('#', h);
    var line := w1 + hashes + " " + text + w2;
    var p := |w1| + h + 1;
    assert line[p..p + |text|] == text;
    assert OccursAt(line, text, p);
    forall j | 0 <= j < p
      ensures !OccursAt(line, text, j)
    {
      assert line[j] != text[0] by {
        if j < |w1| {
          assert line[j] == w1[j];
        } else if j < |w1| + h {
          assert line[j] == hashes[j - |w1|];
        } else {
          assert line[j] == ' ';
        }
      }
      if j + |text| <= |line| {
        assert line[j..j + |text|][0] == line[j];
      }
    }
    var at := IndexOf(line, text);
    assert at == Some(p);
    var prefix := line[..p];
    assert prefix == w1 + hashes + " ";
    assert prefix[..|w1|] == w1;
    assert AllTrimmable(prefix[|w1| + h..]) by {
      assert prefix[|w1| + h..] == " ";
    }
    assert prefix[|w1|..|w1| + h] == hashes;
    TrimIsMiddle(prefix, |w1|, |w1| + h);
  }

  /** When the text itself starts with '#', an earlier occurrence cuts the marker short. */
  lemma ShortenedHashPrefix()
    ensures Matches("## #") && HeadingText("## #") == "#"
    ensures RewriteLine("## #", "#", "x") == Success(" # {#x}")
  {
    assert Matches("## #") && HeadingText("## #") == "#" by {
      TrimIsMiddle("## #", 0, 4);
      assert "## #"[0..4] == "## #";
      HashRunIs("## #", 2);
      assert "## #"[3..] == "#";
    }
    assert IndexOf("## #", "#") == Some(0) by {
      assert "## #"[..1] == "#";
    }
    var r := "" + " " + "#" + " {#" + "x" + "}";
    assert RewriteLine("## #", "#", "x") == Success(r) by {
      assert "## #"[..0] == "";
      assert Trim("") == "";
    }
    ShortenedAnchorText();
  }

  /** The anchored line of `## #` as a string fact of its own; in the lemma above it makes the query costlier. */
  lemma ShortenedAnchorText()
    ensures "" + " " + "#" + " {#" + "x" + "}" == " # {#x}"
  {
  }

  /**
   * The injected form of a matching line with its own heading text: the
   * extracted text always occurs in the line, so this rewrite cannot throw.
   */
  function Anchor(line: string, slug: string): string
    requires Matches(line)
  {
    HeadingTextOccurs(line);
    RewriteLine(line, HeadingText(line), slug).value
  }

  /**
   * After extraction, a heading whose text starts with a visible character
   * other than '#' is rewritten to its marker, its text and its anchor,
   * without the whitespace around it.
   */
  lemma AnchorOfPlainHeading(line: string, slug: string)
    requires Matches(line) && HeadingText(line) != []
    requires HeadingText(line)[0] != '#' && !IsTrimmable(HeadingText(line)[0])
    ensures Anchor(line, slug) == RepeatChar('#', HeadingLevel(line)) + " " + HeadingText(line) + " {#" + slug + "}"
  {
    MatchingLine(line);
    var w1, w2 := TrimSurroundings(line);
    var h, text := HeadingLevel(line), HeadingText(line);
    assert line == w1 + RepeatChar('#', h) + " " + text + w2;
    HashPrefixOfHeading(w1, h, text, w2, slug);
  }

  /** The text extracted from a matching line occurs in that line. */
  lemma HeadingTextOccurs(line: string)
    requires Matches(line)
    ensures RewriteLine(line, HeadingText(line), "").Success?
    ensures forall slug :: RewriteLine(line, HeadingText(line), slug).Success?
  {
    var t := Trim(line);
    var a := LeadingTrimmable(line);
    TrimMeaning(line);
    var h := HashRun(t);
    var text := HeadingText(line);
    assert text == t[h + 1..];
    assert line[a + h + 1..a + h + 1 + |text|] == text;
    assert OccursAt(line, text, a + h + 1);
  }

  /**
   * The reference output of the pass after extraction: every matching line
   * anchored with its own text and the slug of its position among the
   * matching lines, every other line copied.
   */
  function AnchoredLines(lines: seq<string>, slugs: seq<string>): (out: seq<string>)
    requires MatchCount(lines) <= |slugs|
    ensures |out| == |lines|
  {
    if lines == [] then []
    else
      var init := lines[..|lines| - 1];
      var last := lines[|lines| - 1];
      AnchoredLines(init, slugs) + [if Matches(last) then Anchor(last, slugs[MatchCount(init)]) else last]
  }

  /** Without matching lines the pass copies every line. */
  lemma {:induction false} AnchoredLinesWithoutHeadings(lines: seq<string>, slugs: seq<string>)
    requires MatchCount(lines) == 0
    ensures AnchoredLines(lines, slugs) == lines
  {
    if lines != [] {
      var init := lines[..|lines| - 1];
      AnchoredLinesWithoutHeadings(init, slugs);
      assert lines == init + [lines[|lines| - 1]];
    }
  }

  /** A last line `last` after `init` is anchored with the slug after those of `init`. */
  lemma AnchoredLast(lines: seq<string>, init: seq<string>, last: string, slugs: seq<string>)
    requires lines == init + [last] && MatchCount(lines) <= |slugs|
    ensures MatchCount(init) + (if Matches(last) then 1 else 0) == MatchCount(lines)
    ensures AnchoredLines(lines, slugs)
         == AnchoredLines(init, slugs) + [if Matches(last) then Anchor(last, slugs[MatchCount(init)]) else last]
  {
    assert lines[..|lines| - 1] == init && lines[|lines| - 1] == last;
  }

  /** Anchoring goes section by section: the lines after `a` take the slugs after the ones `a` used. */
  lemma {:induction false} AnchoredConcat(a: seq<string>, b: seq<string>, slugs: seq<string>)
    requires MatchCount(a + b) <= |slugs|
    ensures MatchCount(a) + MatchCount(b) <= |slugs|
    ensures AnchoredLines(a + b, slugs) == AnchoredLines(a, slugs) + AnchoredLines(b, slugs[MatchCount(a)..])
    decreases |b|
  {
    assert MatchCount(a + b) == MatchCount(a) + MatchCount(b) by {
      ExtractedConcat(a, b);
    }
    if b == [] {
      assert a + b == a;
    } else {
      var init, last := b[..|b| - 1], b[|b| - 1];
      var m, k := MatchCount(a), MatchCount(init);
      var rest := slugs[m..];
      assert b == init + [last];
      AppendAssociates(a, init, [last]);
      assert MatchCount(a + init) == m + k && MatchCount(b) == k + (if Matches(last) then 1 else 0) by {
        ExtractedConcat(a, init);
      }
      AnchoredConcat(a, init, slugs);
      var x := if Matches(last) then Anchor(last, slugs[m + k]) else last;
      AnchoredLast(a + b, a + init, last, slugs);
      assert AnchoredLines(b, rest) == AnchoredLines(init, rest) + [x] by {
        AnchoredLast(b, init, last, rest);
        if Matches(last) {
          assert rest[k] == slugs[m + k];
        }
      }
      AppendAssociates(AnchoredLines(a, slugs), AnchoredLines(init, rest), [x]);
    }
  }

  /**
   * The two passes stay in sync: with the extractor's texts (as a prefix of
   * the heading list) and enough slugs, the injector rewrites exactly the
   * matching lines, each with its own text, and never throws.
   */
  lemma {:induction false} InjectorFollowsExtractor(lines: seq<string>, headings: seq<string>, slugs: seq<string>)
    requires MatchCount(lines) <= |headings| && MatchCount(lines) <= |slugs|
    requires headings[..MatchCount(lines)] == HeadingTexts(lines)
    ensures Injected(lines, headings, slugs) == Success(AnchoredLines(lines, slugs))
  {
    if lines != [] {
      var init := lines[..|lines| - 1];
      var last := lines[|lines| - 1];
      ExtractedCounts(init);
      ExtractedCounts(lines);
      assert headings[..MatchCount(init)] == HeadingTexts(init) by {
        assert headings[..MatchCount(init)] == headings[..MatchCount(lines)][..MatchCount(init)];
      }
      InjectorFollowsExtractor(init, headings, slugs);
      assert RunningIndex(init, |headings|) == MatchCount(init);
      if Matches(last) {
        assert headings[MatchCount(init)] == HeadingTexts(lines)[MatchCount(init)];
        HeadingTextOccurs(last);
      }
    }
  }
}
