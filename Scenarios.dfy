/**
 * The three end-to-end examples of the processor's test suite, run through
 * the model of the default pipeline: the content of each example, the
 * configuration it uses, and the headings, levels, slugs, contents and
 * rewritten lines the pipeline leaves in the context.
 *
 * Each slug is computed chunk by chunk: a heading is cut after each of its
 * separators, every chunk goes through stages 1 to 4 on its own, and the
 * generic lemmas below put the chunks back together.
 */
module Scenarios {
  import opened JavaString
  import opened SlugifyConfiguration
  import opened DefaultSlugStrategy
  import opened Context
  import opened HeadingExtractor
  import opened Pipeline
  import TocGenerator
  import AnchorIdInjector
  import SlugMapper

  /** `[^a-z0-9\s-]`: everything but lower-case letters, digits, whitespace and '-'. */
  const NotSlugCharacter := CharClass(true, [CharRange('a', 'z'), CharRange('0', '9'), CharRange('\t', '\r'), CharRange(' ', ' '), CharRange('-', '-')])

  /** What `[^a-z0-9\s-]` matches: every character but the five ranges of the class. */
  lemma NotSlugCharacterMeaning()
    ensures forall c :: Strips(NotSlugCharacter, c) <==>
      !('a' <= c <= 'z' || '0' <= c <= '9' || '\t' <= c <= '\r' || c == ' ' || c == '-')
  {
    var r := NotSlugCharacter.ranges;
    forall c: char
      ensures InRanges(c, r) <==> 'a' <= c <= 'z' || '0' <= c <= '9' || '\t' <= c <= '\r' || c == ' ' || c == '-'
    {
      assert r[1..][1..][1..][1..][1..] == [];
      assert InRanges(c, r[1..][1..][1..][1..]) <==> c == '-';
      assert InRanges(c, r[1..][1..][1..]) <==> c == ' ' || c == '-';
      assert InRanges(c, r[1..][1..]) <==> '\t' <= c <= '\r' || c == ' ' || c == '-';
      assert InRanges(c, r[1..]) <==> '0' <= c <= '9' || '\t' <= c <= '\r' || c == ' ' || c == '-';
    }
  }

  /** The configuration of the basic and the external-file examples: every stage on, '-' as separator. */
  const TestConfig := SlugifyConfig([], true, true, '-', true, true, true, NotSlugCharacter)

  /** The configuration of the special-characters example: the same, with runs of '-' left alone. */
  const SpecialConfig := SlugifyConfig([], true, true, '-', true, true, false, NotSlugCharacter)

  /** Stages 5 and 6: whitespace runs replaced, then separator runs collapsed if configured. */
  function Separated(config: SlugifyConfig, s: string): string
  {
    var separated := ReplaceWhitespace(s, config.whitespaceReplacement);
    if config.collapseDashes then CollapseSeparators(separated, config.whitespaceReplacement) else separated
  }

  /** Without replacements, stages 1 to 4 work character by character. */
  lemma BeforeConcat(config: SlugifyConfig, a: string, b: string)
    requires config.replacements == []
    ensures BeforeSeparators(config, a + b) == BeforeSeparators(config, a) + BeforeSeparators(config, b)
  {
    StripAccentsConcat(a, b);
    var ua := if config.removeAccents then StripAccents(a) else a;
    var ub := if config.removeAccents then StripAccents(b) else b;
    LowerCaseConcat(ua, ub);
    var la := if config.toLowerCase then LowerCase(ua) else ua;
    var lb := if config.toLowerCase then LowerCase(ub) else ub;
    StripConcat(la, lb, config.allowedCharactersRegex);
  }

  /** Stripping leaves text alone that holds no character the pattern matches. */
  lemma {:induction false} StripNothing(x: string, pattern: AllowedPattern)
    requires forall k :: 0 <= k < |x| ==> !Strips(pattern, x[k])
    ensures Strip(x, pattern) == x
  {
    if x != [] {
      StripNothing(x[1..], pattern);
    }
  }

  /** Stripping `x + [c] + y` drops `c` when the pattern matches it and none of `x`. */
  lemma StripAt(x: string, c: char, y: string, pattern: AllowedPattern)
    requires forall k :: 0 <= k < |x| ==> !Strips(pattern, x[k])
    requires Strips(pattern, c)
    ensures Strip(x + [c] + y, pattern) == x + Strip(y, pattern)
  {
    AppendAssociates(x, [c], y);
    assert Strip([c] + y, pattern) == Strip(y, pattern) by {
      assert ([c] + y)[0] == c && ([c] + y)[1..] == y;
    }
    StripConcat(x, [c] + y, pattern);
    StripNothing(x, pattern);
  }

  /** Stages 1 to 4 of a chunk without accented letters whose lower-cased characters all stay. */
  lemma KeptChunk(config: SlugifyConfig, chunk: string, lowered: string)
    requires config.replacements == [] && config.removeAccents && config.toLowerCase && config.stripNonAlphanumeric
    requires forall k :: 0 <= k < |chunk| ==> chunk[k] < '\U{C0}'
    requires |lowered| == |chunk| && forall k :: 0 <= k < |chunk| ==> LowerChar(chunk[k]) == lowered[k]
    requires forall k :: 0 <= k < |lowered| ==> !Strips(config.allowedCharactersRegex, lowered[k])
    ensures BeforeSeparators(config, chunk) == lowered
  {
    StripAccentsKeepsPlainText(chunk);
    LowerCaseMeaning(chunk);
    assert LowerCase(chunk) == lowered;
    StripNothing(lowered, config.allowedCharactersRegex);
  }

  /** Stages 1 to 4 of a chunk without accented letters: lower-cased, then stripped. */
  lemma StrippedChunk(config: SlugifyConfig, chunk: string, lowered: string, kept: string)
    requires config.replacements == [] && config.removeAccents && config.toLowerCase && config.stripNonAlphanumeric
    requires forall k :: 0 <= k < |chunk| ==> chunk[k] < '\U{C0}'
    requires |lowered| == |chunk| && forall k :: 0 <= k < |chunk| ==> LowerChar(chunk[k]) == lowered[k]
    requires Strip(lowered, config.allowedCharactersRegex) == kept
    ensures BeforeSeparators(config, chunk) == kept
  {
    StripAccentsKeepsPlainText(chunk);
    LowerCaseMeaning(chunk);
    assert LowerCase(chunk) == lowered;
  }

  /** Stages 1 to 4 of a chunk without accented letters in which one character, `c`, is stripped. */
  lemma DroppedCharChunk(config: SlugifyConfig, chunk: string, lowered: string, x: string, c: char, y: string, ky: string, kept: string)
    requires config.replacements == [] && config.removeAccents && config.toLowerCase && config.stripNonAlphanumeric
    requires forall k :: 0 <= k < |chunk| ==> chunk[k] < '\U{C0}'
    requires |lowered| == |chunk| && forall k :: 0 <= k < |chunk| ==> LowerChar(chunk[k]) == lowered[k]
    requires lowered == x + [c] + y && kept == x + ky
    requires forall k :: 0 <= k < |x| ==> !Strips(config.allowedCharactersRegex, x[k])
    requires Strips(config.allowedCharactersRegex, c) && Strip(y, config.allowedCharactersRegex) == ky
    ensures BeforeSeparators(config, chunk) == kept
  {
    StripAt(x, c, y, config.allowedCharactersRegex);
    StrippedChunk(config, chunk, lowered, kept);
  }

  /**
   * Stages 1 to 4 of a chunk whose first letter is the only accented one: it
   * loses its mark, then the chunk is lower-cased and nothing is stripped.
   */
  lemma AccentedChunk(config: SlugifyConfig, chunk: string, unaccented: string, lowered: string)
    requires config.replacements == [] && config.removeAccents && config.toLowerCase && config.stripNonAlphanumeric
    requires chunk != [] && Decomposable(chunk[0])
    requires unaccented == [Decomposition(chunk[0] as Latin1Supplement).value.0] + chunk[1..]
    requires forall k :: 1 <= k < |chunk| ==> chunk[k] < '\U{C0}'
    requires |lowered| == |unaccented| && forall k :: 0 <= k < |unaccented| ==> LowerChar(unaccented[k]) == lowered[k]
    requires forall k :: 0 <= k < |lowered| ==> !Strips(config.allowedCharactersRegex, lowered[k])
    ensures BeforeSeparators(config, chunk) == lowered
  {
    var c, rest := chunk[0], chunk[1..];
    assert chunk == [c] + rest;
    StripAccentsConcat([c], rest);
    StripAccentsKeepsPlainText(rest);
    var parts := Decomposition(c as Latin1Supplement).value;
    assert Decompose([c]) == [parts.0, parts.1];
    assert RemoveMarks([parts.0, parts.1]) == [parts.0];
    LowerCaseMeaning(unaccented);
    assert LowerCase(unaccented) == lowered;
    StripNothing(lowered, config.allowedCharactersRegex);
  }

  /** Stages 5 and 6 leave a word without whitespace (and, when collapsing, without separators) as it is. */
  lemma Word(config: SlugifyConfig, w: string)
    requires forall k :: 0 <= k < |w| ==> !IsRegexSpace(w[k]) && (config.collapseDashes ==> w[k] != config.whitespaceReplacement)
    ensures Separated(config, w) == w
  {
    var sep := config.whitespaceReplacement;
    ReplaceRunsOfPlain(w, IsRegexSpace, sep, false);
    if config.collapseDashes {
      ReplaceRunsOfPlain(w, IsChar(sep), sep, false);
    }
  }

  /** A word followed by a whitespace run ends in one separator after stages 5 and 6. */
  lemma WordSpace(config: SlugifyConfig, w: string, ws: string)
    requires w != [] && forall k :: 0 <= k < |w| ==> !IsRegexSpace(w[k]) && w[k] != config.whitespaceReplacement
    requires ws != [] && forall k :: 0 <= k < |ws| ==> IsRegexSpace(ws[k])
    ensures Separated(config, w + ws) == w + [config.whitespaceReplacement]
  {
    var sep := config.whitespaceReplacement;
    assert w + ws == w + ws + [];
    ReplaceRunsMaximalRun(w, ws, [], IsRegexSpace, sep);
    ReplaceRunsOfPlain(w, IsRegexSpace, sep, false);
    if config.collapseDashes {
      assert w + [sep] == w + [sep] + [];
      ReplaceRunsMaximalRun(w, [sep], [], IsChar(sep), sep);
      ReplaceRunsOfPlain(w, IsChar(sep), sep, false);
    }
  }

  /** Stages 5 and 6 split where the second part starts with neither whitespace nor the separator. */
  lemma SeparatedConcat(config: SlugifyConfig, a: string, b: string)
    requires b != [] && !IsRegexSpace(b[0]) && b[0] != config.whitespaceReplacement
    ensures Separated(config, a + b) == Separated(config, a) + Separated(config, b)
  {
    var sep := config.whitespaceReplacement;
    ReplaceRunsConcat(a, b, IsRegexSpace, sep, false);
    ReplaceRunsStateIrrelevant(b, IsRegexSpace, sep);
    var ra, rb := ReplaceWhitespace(a, sep), ReplaceWhitespace(b, sep);
    assert rb[0] == b[0];
    ReplaceRunsConcat(ra, rb, IsChar(sep), sep, false);
    ReplaceRunsStateIrrelevant(rb, IsChar(sep), sep);
  }

  /** One more chunk: stages 1 to 6 of the longer heading are those of the shorter one, then the chunk's. */
  lemma ChunkStep(config: SlugifyConfig, a: string, b: string, sa: string, kb: string, sb: string)
    requires config.replacements == []
    requires Separated(config, BeforeSeparators(config, a)) == sa
    requires BeforeSeparators(config, b) == kb && Separated(config, kb) == sb
    requires kb != [] && !IsRegexSpace(kb[0]) && kb[0] != config.whitespaceReplacement
    ensures Separated(config, BeforeSeparators(config, a + b)) == sa + sb
  {
    BeforeConcat(config, a, b);
    SeparatedConcat(config, BeforeSeparators(config, a), kb);
  }

  /** A slug already free of separators at both ends is what stage 7 leaves. */
  lemma SlugFromSeparated(config: SlugifyConfig, heading: string, s: string)
    requires !(config.stripNonAlphanumeric && config.allowedCharactersRegex.Invalid?) && config.trimEdges
    requires Separated(config, BeforeSeparators(config, heading)) == s
    requires s != [] && s[0] != config.whitespaceReplacement
    requires s[|s| - 1] != config.whitespaceReplacement && !IsLineTerminator(s[|s| - 1])
    ensures Slugify(config, heading) == Success(s)
  {
    TrimSeparatorsKeepsTrimmed(s, config.whitespaceReplacement);
  }

  /** The slug of a heading made of two chunks. */
  lemma TwoChunks(config: SlugifyConfig, h: string, a: string, b: string, ka: string, kb: string, sa: string, sb: string, slug: string)
    requires config.replacements == [] && config.trimEdges
    requires !(config.stripNonAlphanumeric && config.allowedCharactersRegex.Invalid?)
    requires h == a + b && slug == sa + sb
    requires BeforeSeparators(config, a) == ka && BeforeSeparators(config, b) == kb
    requires Separated(config, ka) == sa && Separated(config, kb) == sb
    requires kb != [] && !IsRegexSpace(kb[0]) && kb[0] != config.whitespaceReplacement
    requires slug != [] && slug[0] != config.whitespaceReplacement
    requires slug[|slug| - 1] != config.whitespaceReplacement && !IsLineTerminator(slug[|slug| - 1])
    ensures Slugify(config, h) == Success(slug)
  {
    ChunkStep(config, a, b, sa, kb, sb);
    SlugFromSeparated(config, h, slug);
  }

  /** The slug of a heading made of four chunks. */
  lemma FourChunks(config: SlugifyConfig, h: string, a: string, b: string, c: string, d: string,
                   ka: string, kb: string, kc: string, kd: string,
                   sa: string, sb: string, sc: string, sd: string, slug: string)
    requires config.replacements == [] && config.trimEdges
    requires !(config.stripNonAlphanumeric && config.allowedCharactersRegex.Invalid?)
    requires h == a + b + c + d && slug == sa + sb + sc + sd
    requires BeforeSeparators(config, a) == ka && BeforeSeparators(config, b) == kb
    requires BeforeSeparators(config, c) == kc && BeforeSeparators(config, d) == kd
    requires Separated(config, ka) == sa && Separated(config, kb) == sb
    requires Separated(config, kc) == sc && Separated(config, kd) == sd
    requires kb != [] && !IsRegexSpace(kb[0]) && kb[0] != config.whitespaceReplacement
    requires kc != [] && !IsRegexSpace(kc[0]) && kc[0] != config.whitespaceReplacement
    requires kd != [] && !IsRegexSpace(kd[0]) && kd[0] != config.whitespaceReplacement
    requires slug != [] && slug[0] != config.whitespaceReplacement
    requires slug[|slug| - 1] != config.whitespaceReplacement && !IsLineTerminator(slug[|slug| - 1])
    ensures Slugify(config, h) == Success(slug)
  {
    ChunkStep(config, a, b, sa, kb, sb);
    ChunkStep(config, a + b, c, sa + sb, kc, sc);
    ChunkStep(config, a + b + c, d, sa + sb + sc, kd, sd);
    SlugFromSeparated(config, h, slug);
  }

  // One lemma per chunk of each example heading. Each holds the string facts of its one literal,
  // so that the solver meets them in a small query; stated inside the slug lemmas that use them,
  // the same facts make those queries too costly.

  lemma TitleChunk()
    ensures BeforeSeparators(TestConfig, "Title ") == "title "
  {
    NotSlugCharacterMeaning();
    KeptChunk(TestConfig, "Title ", "title ");
  }

  lemma TitleSeparated()
    ensures Separated(TestConfig, "title ") == "title-"
  {
    var w := "title";
    assert Separated(TestConfig, w + " ") == w + [TestConfig.whitespaceReplacement] by {
      WordSpace(TestConfig, w, " ");
    }
    assert w + " " == "title " && w + "-" == "title-";
  }

  lemma OneChunk()
    ensures BeforeSeparators(TestConfig, "One") == "one"
  {
    NotSlugCharacterMeaning();
    KeptChunk(TestConfig, "One", "one");
  }

  lemma OneSeparated()
    ensures Separated(TestConfig, "one") == "one"
  {
    Word(TestConfig, "one");
  }

  lemma SubtitleChunk()
    ensures BeforeSeparators(TestConfig, "Subtitle ") == "subtitle "
  {
    NotSlugCharacterMeaning();
    KeptChunk(TestConfig, "Subtitle ", "subtitle ");
  }

  lemma SubtitleSeparated()
    ensures Separated(TestConfig, "subtitle ") == "subtitle-"
  {
    var w := "subtitle";
    assert Separated(TestConfig, w + " ") == w + [TestConfig.whitespaceReplacement] by {
      WordSpace(TestConfig, w, " ");
    }
    assert w + " " == "subtitle " && w + "-" == "subtitle-";
  }

  lemma TwoChunk()
    ensures BeforeSeparators(TestConfig, "Two") == "two"
  {
    NotSlugCharacterMeaning();
    KeptChunk(TestConfig, "Two", "two");
  }

  lemma TwoSeparated()
    ensures Separated(TestConfig, "two") == "two"
  {
    Word(TestConfig, "two");
  }

  lemma FinalChunk()
    ensures BeforeSeparators(TestConfig, "Final ") == "final "
  {
    NotSlugCharacterMeaning();
    KeptChunk(TestConfig, "Final ", "final ");
  }

  lemma FinalSeparated()
    ensures Separated(TestConfig, "final ") == "final-"
  {
    var w := "final";
    assert Separated(TestConfig, w + " ") == w + [TestConfig.whitespaceReplacement] by {
      WordSpace(TestConfig, w, " ");
    }
    assert w + " " == "final " && w + "-" == "final-";
  }

  lemma SectionChunk()
    ensures BeforeSeparators(TestConfig, "Section") == "section"
  {
    NotSlugCharacterMeaning();
    KeptChunk(TestConfig, "Section", "section");
  }

  lemma SectionSeparated()
    ensures Separated(TestConfig, "section") == "section"
  {
    Word(TestConfig, "section");
  }

  lemma HeadingChunk()
    ensures BeforeSeparators(TestConfig, "Heading ") == "heading "
  {
    NotSlugCharacterMeaning();
    KeptChunk(TestConfig, "Heading ", "heading ");
  }

  lemma HeadingSeparated()
    ensures Separated(TestConfig, "heading ") == "heading-"
  {
    var w := "heading";
    assert Separated(TestConfig, w + " ") == w + [TestConfig.whitespaceReplacement] by {
      WordSpace(TestConfig, w, " ");
    }
    assert w + " " == "heading " && w + "-" == "heading-";
  }

  lemma AChunk()
    ensures BeforeSeparators(TestConfig, "A") == "a"
  {
    NotSlugCharacterMeaning();
    KeptChunk(TestConfig, "A", "a");
  }

  lemma ASeparated()
    ensures Separated(TestConfig, "a") == "a"
  {
    Word(TestConfig, "a");
  }

  lemma BChunk()
    ensures BeforeSeparators(TestConfig, "B") == "b"
  {
    NotSlugCharacterMeaning();
    KeptChunk(TestConfig, "B", "b");
  }

  lemma BSeparated()
    ensures Separated(TestConfig, "b") == "b"
  {
    Word(TestConfig, "b");
  }

  lemma CChunk()
    ensures BeforeSeparators(TestConfig, "C") == "c"
  {
    NotSlugCharacterMeaning();
    KeptChunk(TestConfig, "C", "c");
  }

  lemma CSeparated()
    ensures Separated(TestConfig, "c") == "c"
  {
    Word(TestConfig, "c");
  }

  lemma WelcomeSpecialChunk()
    ensures BeforeSeparators(SpecialConfig, "Welcome ") == "welcome "
  {
    NotSlugCharacterMeaning();
    KeptChunk(SpecialConfig, "Welcome ", "welcome ");
  }

  lemma WelcomeSpecialSeparated()
    ensures Separated(SpecialConfig, "welcome ") == "welcome-"
  {
    var w := "welcome";
    assert Separated(SpecialConfig, w + " ") == w + [SpecialConfig.whitespaceReplacement] by {
      WordSpace(SpecialConfig, w, " ");
    }
    assert w + " " == "welcome " && w + "-" == "welcome-";
  }

  lemma ToSpecialChunk()
    ensures BeforeSeparators(SpecialConfig, "to ") == "to "
  {
    NotSlugCharacterMeaning();
    KeptChunk(SpecialConfig, "to ", "to ");
  }

  lemma ToSpecialSeparated()
    ensures Separated(SpecialConfig, "to ") == "to-"
  {
    var w := "to";
    assert Separated(SpecialConfig, w + " ") == w + [SpecialConfig.whitespaceReplacement] by {
      WordSpace(SpecialConfig, w, " ");
    }
    assert w + " " == "to " && w + "-" == "to-";
  }

  lemma TheSpecialChunk()
    ensures BeforeSeparators(SpecialConfig, "the ") == "the "
  {
    NotSlugCharacterMeaning();
    KeptChunk(SpecialConfig, "the ", "the ");
  }

  lemma TheSpecialSeparated()
    ensures Separated(SpecialConfig, "the ") == "the-"
  {
    var w := "the";
    assert Separated(SpecialConfig, w + " ") == w + [SpecialConfig.whitespaceReplacement] by {
      WordSpace(SpecialConfig, w, " ");
    }
    assert w + " " == "the " && w + "-" == "the-";
  }

  lemma JungleSpecialChunk()
    ensures BeforeSeparators(SpecialConfig, "Jungle!") == "jungle"
  {
    NotSlugCharacterMeaning();
    DroppedCharChunk(SpecialConfig, "Jungle!", "jungle!", "jungle", '!', "", "", "jungle");
  }

  lemma JungleSpecialSeparated()
    ensures Separated(SpecialConfig, "jungle") == "jungle"
  {
    Word(SpecialConfig, "jungle");
  }

  lemma WhatsSpecialChunk()
    ensures BeforeSeparators(SpecialConfig, "What's ") == "whats "
  {
    NotSlugCharacterMeaning();
    StripNothing("s ", NotSlugCharacter);
    DroppedCharChunk(SpecialConfig, "What's ", "what's ", "what", '\'', "s ", "s ", "whats ");
  }

  lemma WhatsSpecialSeparated()
    ensures Separated(SpecialConfig, "whats ") == "whats-"
  {
    var w := "whats";
    assert Separated(SpecialConfig, w + " ") == w + [SpecialConfig.whitespaceReplacement] by {
      WordSpace(SpecialConfig, w, " ");
    }
    assert w + " " == "whats " && w + "-" == "whats-";
  }

  lemma NewSpecialChunk()
    ensures BeforeSeparators(SpecialConfig, "New ") == "new "
  {
    NotSlugCharacterMeaning();
    KeptChunk(SpecialConfig, "New ", "new ");
  }

  lemma NewSpecialSeparated()
    ensures Separated(SpecialConfig, "new ") == "new-"
  {
    var w := "new";
    assert Separated(SpecialConfig, w + " ") == w + [SpecialConfig.whitespaceReplacement] by {
      WordSpace(SpecialConfig, w, " ");
    }
    assert w + " " == "new " && w + "-" == "new-";
  }

  lemma InSpecialChunk()
    ensures BeforeSeparators(SpecialConfig, "in ") == "in "
  {
    NotSlugCharacterMeaning();
    KeptChunk(SpecialConfig, "in ", "in ");
  }

  lemma InSpecialSeparated()
    ensures Separated(SpecialConfig, "in ") == "in-"
  {
    var w := "in";
    assert Separated(SpecialConfig, w + " ") == w + [SpecialConfig.whitespaceReplacement] by {
      WordSpace(SpecialConfig, w, " ");
    }
    assert w + " " == "in " && w + "-" == "in-";
  }

  lemma VersionTailStripped()
    ensures Strip("0?", NotSlugCharacter) == "0"
  {
    NotSlugCharacterMeaning();
    assert "0?" == "0" + ['?'] + "";
    StripAt("0", '?', "", NotSlugCharacter);
  }

  lemma VersionSpecialChunk()
    ensures BeforeSeparators(SpecialConfig, "v2.0?") == "v20"
  {
    NotSlugCharacterMeaning();
    VersionTailStripped();
    DroppedCharChunk(SpecialConfig, "v2.0?", "v2.0?", "v2", '.', "0?", "0", "v20");
  }

  lemma VersionSpecialSeparated()
    ensures Separated(SpecialConfig, "v20") == "v20"
  {
    Word(SpecialConfig, "v20");
  }

  lemma UberSpecialChunk()
    ensures BeforeSeparators(SpecialConfig, "Über-") == "uber-"
  {
    NotSlugCharacterMeaning();
    AccentedChunk(SpecialConfig, "Über-", "Uber-", "uber-");
  }

  lemma UberSpecialSeparated()
    ensures Separated(SpecialConfig, "uber-") == "uber-"
  {
    Word(SpecialConfig, "uber-");
  }

  lemma CoolSpecialChunk()
    ensures BeforeSeparators(SpecialConfig, "cool ") == "cool "
  {
    NotSlugCharacterMeaning();
    KeptChunk(SpecialConfig, "cool ", "cool ");
  }

  lemma CoolSpecialSeparated()
    ensures Separated(SpecialConfig, "cool ") == "cool-"
  {
    var w := "cool";
    assert Separated(SpecialConfig, w + " ") == w + [SpecialConfig.whitespaceReplacement] by {
      WordSpace(SpecialConfig, w, " ");
    }
    assert w + " " == "cool " && w + "-" == "cool-";
  }

  lemma StuffSpecialChunk()
    ensures BeforeSeparators(SpecialConfig, "Stuff & ") == "stuff  "
  {
    NotSlugCharacterMeaning();
    StripNothing(" ", NotSlugCharacter);
    DroppedCharChunk(SpecialConfig, "Stuff & ", "stuff & ", "stuff ", '&', " ", " ", "stuff  ");
  }

  lemma StuffSpecialSeparated()
    ensures Separated(SpecialConfig, "stuff  ") == "stuff-"
  {
    assert "stuff  " == "stuff" + "  ";
    WordSpace(SpecialConfig, "stuff", "  ");
  }

  lemma FeaturesSpecialChunk()
    ensures BeforeSeparators(SpecialConfig, "Features") == "features"
  {
    NotSlugCharacterMeaning();
    KeptChunk(SpecialConfig, "Features", "features");
  }

  lemma FeaturesSpecialSeparated()
    ensures Separated(SpecialConfig, "features") == "features"
  {
    Word(SpecialConfig, "features");
  }

  lemma TitleOneText()
    ensures "Title One" == "Title " + "One"
    ensures "title-one" == "title-" + "one"
    ensures !IsRegexSpace("one"[0]) && "one"[0] != '-'
    ensures "title-one"[0] != '-' && "title-one"[8] != '-' && !IsLineTerminator("title-one"[8])
  {
  }

  lemma TitleOneSlug()
    ensures Slugify(TestConfig, "Title One") == Success("title-one")
  {
    TitleChunk();
    TitleSeparated();
    OneChunk();
    OneSeparated();
    TitleOneText();
    TwoChunks(TestConfig, "Title One", "Title ", "One", "title ", "one", "title-", "one", "title-one");
  }

  lemma SubtitleTwoText()
    ensures "Subtitle Two" == "Subtitle " + "Two"
    ensures "subtitle-two" == "subtitle-" + "two"
    ensures !IsRegexSpace("two"[0]) && "two"[0] != '-'
    ensures "subtitle-two"[0] != '-' && "subtitle-two"[11] != '-' && !IsLineTerminator("subtitle-two"[11])
  {
  }

  lemma SubtitleTwoSlug()
    ensures Slugify(TestConfig, "Subtitle Two") == Success("subtitle-two")
  {
    SubtitleChunk();
    SubtitleSeparated();
    TwoChunk();
    TwoSeparated();
    SubtitleTwoText();
    TwoChunks(TestConfig, "Subtitle Two", "Subtitle ", "Two", "subtitle ", "two", "subtitle-", "two", "subtitle-two");
  }

  lemma FinalSectionText()
    ensures "Final Section" == "Final " + "Section"
    ensures "final-section" == "final-" + "section"
    ensures !IsRegexSpace("section"[0]) && "section"[0] != '-'
    ensures "final-section"[0] != '-' && "final-section"[12] != '-' && !IsLineTerminator("final-section"[12])
  {
  }

  lemma FinalSectionSlug()
    ensures Slugify(TestConfig, "Final Section") == Success("final-section")
  {
    FinalChunk();
    FinalSeparated();
    SectionChunk();
    SectionSeparated();
    FinalSectionText();
    TwoChunks(TestConfig, "Final Section", "Final ", "Section", "final ", "section", "final-", "section", "final-section");
  }

  lemma HeadingAText()
    ensures "Heading A" == "Heading " + "A"
    ensures "heading-a" == "heading-" + "a"
    ensures !IsRegexSpace("a"[0]) && "a"[0] != '-'
    ensures "heading-a"[0] != '-' && "heading-a"[8] != '-' && !IsLineTerminator("heading-a"[8])
  {
  }

  lemma HeadingASlug()
    ensures Slugify(TestConfig, "Heading A") == Success("heading-a")
  {
    HeadingChunk();
    HeadingSeparated();
    AChunk();
    ASeparated();
    HeadingAText();
    TwoChunks(TestConfig, "Heading A", "Heading ", "A", "heading ", "a", "heading-", "a", "heading-a");
  }

  lemma HeadingBText()
    ensures "Heading B" == "Heading " + "B"
    ensures "heading-b" == "heading-" + "b"
    ensures !IsRegexSpace("b"[0]) && "b"[0] != '-'
    ensures "heading-b"[0] != '-' && "heading-b"[8] != '-' && !IsLineTerminator("heading-b"[8])
  {
  }

  lemma HeadingBSlug()
    ensures Slugify(TestConfig, "Heading B") == Success("heading-b")
  {
    HeadingChunk();
    HeadingSeparated();
    BChunk();
    BSeparated();
    HeadingBText();
    TwoChunks(TestConfig, "Heading B", "Heading ", "B", "heading ", "b", "heading-", "b", "heading-b");
  }

  lemma HeadingCText()
    ensures "Heading C" == "Heading " + "C"
    ensures "heading-c" == "heading-" + "c"
    ensures !IsRegexSpace("c"[0]) && "c"[0] != '-'
    ensures "heading-c"[0] != '-' && "heading-c"[8] != '-' && !IsLineTerminator("heading-c"[8])
  {
  }

  lemma HeadingCSlug()
    ensures Slugify(TestConfig, "Heading C") == Success("heading-c")
  {
    HeadingChunk();
    HeadingSeparated();
    CChunk();
    CSeparated();
    HeadingCText();
    TwoChunks(TestConfig, "Heading C", "Heading ", "C", "heading ", "c", "heading-", "c", "heading-c");
  }

  lemma JungleText()
    ensures "Welcome to the Jungle!" == "Welcome " + "to " + "the " + "Jungle!"
    ensures "welcome-to-the-jungle" == "welcome-" + "to-" + "the-" + "jungle"
    ensures !IsRegexSpace("to "[0]) && "to "[0] != '-'
    ensures !IsRegexSpace("the "[0]) && "the "[0] != '-'
    ensures !IsRegexSpace("jungle"[0]) && "jungle"[0] != '-'
    ensures "welcome-to-the-jungle"[0] != '-' && "welcome-to-the-jungle"[20] != '-' && !IsLineTerminator("welcome-to-the-jungle"[20])
  {
  }

  lemma JungleSlug()
    ensures Slugify(SpecialConfig, "Welcome to the Jungle!") == Success("welcome-to-the-jungle")
  {
    WelcomeSpecialChunk();
    WelcomeSpecialSeparated();
    ToSpecialChunk();
    ToSpecialSeparated();
    TheSpecialChunk();
    TheSpecialSeparated();
    JungleSpecialChunk();
    JungleSpecialSeparated();
    JungleText();
    FourChunks(SpecialConfig, "Welcome to the Jungle!", "Welcome ", "to ", "the ", "Jungle!", "welcome ", "to ", "the ", "jungle", "welcome-", "to-", "the-", "jungle", "welcome-to-the-jungle");
  }

  lemma WhatsNewText()
    ensures "What's New in v2.0?" == "What's " + "New " + "in " + "v2.0?"
    ensures "whats-new-in-v20" == "whats-" + "new-" + "in-" + "v20"
    ensures !IsRegexSpace("new "[0]) && "new "[0] != '-'
    ensures !IsRegexSpace("in "[0]) && "in "[0] != '-'
    ensures !IsRegexSpace("v20"[0]) && "v20"[0] != '-'
    ensures "whats-new-in-v20"[0] != '-' && "whats-new-in-v20"[15] != '-' && !IsLineTerminator("whats-new-in-v20"[15])
  {
  }

  lemma WhatsNewSlug()
    ensures Slugify(SpecialConfig, "What's New in v2.0?") == Success("whats-new-in-v20")
  {
    WhatsSpecialChunk();
    WhatsSpecialSeparated();
    NewSpecialChunk();
    NewSpecialSeparated();
    InSpecialChunk();
    InSpecialSeparated();
    VersionSpecialChunk();
    VersionSpecialSeparated();
    WhatsNewText();
    FourChunks(SpecialConfig, "What's New in v2.0?", "What's ", "New ", "in ", "v2.0?", "whats ", "new ", "in ", "v20", "whats-", "new-", "in-", "v20", "whats-new-in-v20");
  }

  lemma UberCoolText()
    ensures "Über-cool Stuff & Features" == "Über-" + "cool " + "Stuff & " + "Features"
    ensures "uber-cool-stuff-features" == "uber-" + "cool-" + "stuff-" + "features"
    ensures !IsRegexSpace("cool "[0]) && "cool "[0] != '-'
    ensures !IsRegexSpace("stuff  "[0]) && "stuff  "[0] != '-'
    ensures !IsRegexSpace("features"[0]) && "features"[0] != '-'
    ensures "uber-cool-stuff-features"[0] != '-' && "uber-cool-stuff-features"[23] != '-' && !IsLineTerminator("uber-cool-stuff-features"[23])
  {
  }

  lemma UberCoolSlug()
    ensures Slugify(SpecialConfig, "Über-cool Stuff & Features") == Success("uber-cool-stuff-features")
  {
    UberSpecialChunk();
    UberSpecialSeparated();
    CoolSpecialChunk();
    CoolSpecialSeparated();
    StuffSpecialChunk();
    StuffSpecialSeparated();
    FeaturesSpecialChunk();
    FeaturesSpecialSeparated();
    UberCoolText();
    FourChunks(SpecialConfig, "Über-cool Stuff & Features", "Über-", "cool ", "Stuff & ", "Features", "uber-", "cool ", "stuff  ", "features", "uber-", "cool-", "stuff-", "features", "uber-cool-stuff-features");
  }

  // ---------------------------------------------------------------------
  // Whole documents

  /**
   * One section of an example document: a heading line, what the extractor
   * and the strategy make of it, and the plain lines up to the next heading.
   */
  datatype Section = Section(heading: string, text: string, level: nat, slug: string, body: seq<string>)

  /** The lines after a heading, up to the next one: none of them matches. */
  predicate NoHeadingLines(p: seq<string>)
  {
    forall k :: 0 <= k < |p| ==> !Matches(p[k])
  }

  /** The heading line matches, with this text and level; the text starts with a visible character other than '#'. */
  predicate HeadingFacts(s: Section)
  {
    Matches(s.heading) && HeadingText(s.heading) == s.text && HeadingLevel(s.heading) == s.level &&
    s.text != [] && s.text[0] != '#' && !IsTrimmable(s.text[0])
  }

  /** No line of the section holds a line break. */
  predicate NoBreaks(s: Section)
  {
    '\n' !in s.heading && forall k :: 0 <= k < |s.body| ==> '\n' !in s.body[k]
  }

  /** A section as the pipeline must see it under `config`: one heading, its slug, no other heading, no line break. */
  predicate WellFormed(config: SlugifyConfig, s: Section)
  {
    HeadingFacts(s) && NoHeadingLines(s.body) && NoBreaks(s) && Slugify(config, s.text) == Success(s.slug)
  }

  /** The lines of a section. */
  function SectionLines(s: Section): seq<string>
  {
    [s.heading] + s.body
  }

  /** The lines of a section once its heading is anchored: marker, text and slug, without the indentation. */
  function AnchoredSection(s: Section): seq<string>
  {
    [RepeatChar('#', s.level) + " " + s.text + " {#" + s.slug + "}"] + s.body
  }

  /** The anchored heading line, given the marker and the space that start it. */
  lemma AnchoredAs(s: Section, prefix: string)
    requires prefix == RepeatChar('#', s.level) + " "
    ensures AnchoredSection(s) == [prefix + s.text + " {#" + s.slug + "}"] + s.body
  {
  }

  /** A contents entry, given its indentation and the opening of its link. */
  lemma TocLineAs(heading: string, slug: string, level: int, prefix: string)
    requires prefix == TocGenerator.Indent(level) + "- ["
    ensures TocGenerator.TocLine(heading, slug, level) == prefix + heading + "](#" + slug + ")"
  {
  }

  /** A line whose trimmed form starts with a visible character other than '#' is no heading. */
  lemma PlainLine(ws: string, text: string)
    requires AllTrimmable(ws)
    requires text != [] && !IsTrimmable(text[0]) && !IsTrimmable(text[|text| - 1]) && text[0] != '#'
    ensures !Matches(ws + text)
  {
    assert ws + text == ws + text + [];
    TrimIsMiddle(ws + text + [], |ws|, |ws| + |text|);
    assert (ws + text + [])[|ws|..|ws| + |text|] == text;
  }

  /** Lines without headings contribute nothing and are copied. */
  lemma {:induction false} PlainLines(p: seq<string>, slugs: seq<string>)
    requires NoHeadingLines(p)
    ensures HeadingTexts(p) == [] && HeadingLevels(p) == [] && MatchCount(p) == 0
    ensures AnchorIdInjector.AnchoredLines(p, slugs) == p
  {
    NoMatches(p);
    ExtractedCounts(p);
    AnchorIdInjector.AnchoredLinesWithoutHeadings(p, slugs);
  }

  lemma {:induction false} NoMatches(p: seq<string>)
    requires NoHeadingLines(p)
    ensures MatchCount(p) == 0
  {
    if p != [] {
      NoMatches(p[..|p| - 1]);
    }
  }

  /** A section contributes its one entry, and only its heading is anchored, with the first slug given. */
  lemma SectionFacts(s: Section, slugs: seq<string>)
    requires HeadingFacts(s) && NoHeadingLines(s.body) && |slugs| >= 1 && slugs[0] == s.slug
    ensures HeadingTexts(SectionLines(s)) == [s.text] && HeadingLevels(SectionLines(s)) == [s.level]
    ensures MatchCount(SectionLines(s)) == 1
    ensures AnchorIdInjector.AnchoredLines(SectionLines(s), slugs) == AnchoredSection(s)
  {
    SectionEntries(s);
    SectionAnchors(s, slugs);
  }

  /** The one entry of a section is that of its heading line. */
  lemma SectionEntries(s: Section)
    requires HeadingFacts(s) && NoHeadingLines(s.body)
    ensures HeadingTexts(SectionLines(s)) == [s.text] && HeadingLevels(SectionLines(s)) == [s.level]
    ensures MatchCount(SectionLines(s)) == 1
  {
    PlainLines(s.body, []);
    ExtractedLine(s.heading);
    ExtractedConcat([s.heading], s.body);
  }

  /** Only the heading line of a section is anchored, with the first slug given. */
  lemma SectionAnchors(s: Section, slugs: seq<string>)
    requires HeadingFacts(s) && NoHeadingLines(s.body) && |slugs| >= 1 && slugs[0] == s.slug
    ensures MatchCount(SectionLines(s)) == 1
    ensures AnchorIdInjector.AnchoredLines(SectionLines(s), slugs) == AnchoredSection(s)
  {
    var h := s.heading;
    assert MatchCount(SectionLines(s)) == 1 && MatchCount([h]) == 1 by {
      SectionEntries(s);
      ExtractedLine(h);
    }
    assert AnchorIdInjector.AnchoredLines(s.body, slugs[1..]) == s.body by {
      PlainLines(s.body, slugs[1..]);
    }
    assert AnchorIdInjector.AnchoredLines([h], slugs) == [AnchorIdInjector.Anchor(h, s.slug)] by {
      ExtractedLine(h);
      assert [h][..0] == [];
    }
    assert AnchorIdInjector.Anchor(h, s.slug) == AnchoredSection(s)[0] by {
      AnchorIdInjector.AnchorOfPlainHeading(h, s.slug);
    }
    AnchorIdInjector.AnchoredConcat([h], s.body, slugs);
  }

  /** Extraction and anchoring of a document made of three sections. */
  lemma ThreeSections(a: Section, b: Section, c: Section)
    requires HeadingFacts(a) && HeadingFacts(b) && HeadingFacts(c)
    requires NoHeadingLines(a.body) && NoHeadingLines(b.body) && NoHeadingLines(c.body)
    ensures var lines := SectionLines(a) + SectionLines(b) + SectionLines(c);
      HeadingTexts(lines) == [a.text, b.text, c.text] &&
      HeadingLevels(lines) == [a.level, b.level, c.level] &&
      MatchCount(lines) == 3 &&
      AnchorIdInjector.AnchoredLines(lines, [a.slug, b.slug, c.slug])
        == AnchoredSection(a) + AnchoredSection(b) + AnchoredSection(c)
  {
    var slugs := [a.slug, b.slug, c.slug];
    var sa, sb, sc := SectionLines(a), SectionLines(b), SectionLines(c);
    SectionFacts(a, slugs);
    SectionFacts(b, slugs[1..]);
    SectionFacts(c, slugs[2..]);
    ExtractedConcat(sa, sb);
    ExtractedConcat(sa + sb, sc);
    AnchorIdInjector.AnchoredConcat(sa + sb, sc, slugs);
    AnchorIdInjector.AnchoredConcat(sa, sb, slugs);
  }

  /** The contents of three headings: one entry each, in order. */
  lemma ThreeEntries(headings: seq<string>, slugs: seq<string>, levels: seq<int>)
    requires |headings| == 3 && |slugs| == 3 && |levels| == 3
    ensures TocGenerator.TocLines(headings, slugs, levels, 3)
      == [TocGenerator.TocLine(headings[0], slugs[0], levels[0]),
          TocGenerator.TocLine(headings[1], slugs[1], levels[1]),
          TocGenerator.TocLine(headings[2], slugs[2], levels[2])]
  {
    assert TocGenerator.TocLines(headings, slugs, levels, 1) == [TocGenerator.TocLine(headings[0], slugs[0], levels[0])];
    assert TocGenerator.TocLines(headings, slugs, levels, 2)
      == TocGenerator.TocLines(headings, slugs, levels, 1) + [TocGenerator.TocLine(headings[1], slugs[1], levels[1])];
  }

  /** The lines of three sections hold no line break, so splitting their joined text gives them back. */
  lemma ThreeSectionsSplit(a: Section, b: Section, c: Section)
    requires NoBreaks(a) && NoBreaks(b) && NoBreaks(c)
    requires c.heading != "" && (c.body == [] || c.body[|c.body| - 1] != "")
    ensures Split(Unlines(SectionLines(a) + SectionLines(b) + SectionLines(c))) == SectionLines(a) + SectionLines(b) + SectionLines(c)
  {
    var lines := SectionLines(a) + SectionLines(b) + SectionLines(c);
    forall k | 0 <= k < |lines|
      ensures '\n' !in lines[k]
    {
      if k < |SectionLines(a)| {
        assert lines[k] == SectionLines(a)[k];
      } else if k < |SectionLines(a)| + |SectionLines(b)| {
        assert lines[k] == SectionLines(b)[k - |SectionLines(a)|];
      } else {
        assert lines[k] == SectionLines(c)[k - |SectionLines(a)| - |SectionLines(b)|];
      }
    }
    assert lines[|lines| - 1] == SectionLines(c)[|SectionLines(c)| - 1];
    SplitUnlines(lines);
  }

  /**
   * The default pipeline on a document of three well-formed sections: their
   * texts, levels and slugs in order, one entry of contents per section, and
   * every heading line anchored.
   */
  lemma ThreeSectionRun(config: SlugifyConfig, a: Section, b: Section, c: Section)
    requires !(config.stripNonAlphanumeric && config.allowedCharactersRegex.Invalid?)
    requires WellFormed(config, a) && WellFormed(config, b) && WellFormed(config, c)
    requires c.body == [] || c.body[|c.body| - 1] != ""
    ensures RunSteps(DefaultSteps(config), Fresh(Unlines(SectionLines(a) + SectionLines(b) + SectionLines(c))))
         == Run(Doc(Unlines(AnchoredSection(a) + AnchoredSection(b) + AnchoredSection(c)),
                    [a.text, b.text, c.text], [a.level, b.level, c.level], [a.slug, b.slug, c.slug],
                    Unlines([TocGenerator.TocLine(a.text, a.slug, a.level),
                             TocGenerator.TocLine(b.text, b.slug, b.level),
                             TocGenerator.TocLine(c.text, c.slug, c.level)])),
                Completed)
  {
    var lines := SectionLines(a) + SectionLines(b) + SectionLines(c);
    var content := Unlines(lines);
    var headings, levels, slugs := [a.text, b.text, c.text], [a.level as int, b.level, c.level], [a.slug, b.slug, c.slug];
    assert Split(content) == lines by {
      ThreeSectionsSplit(a, b, c);
    }
    assert HeadingTexts(lines) == headings && HeadingLevels(lines) == levels && MatchCount(lines) == 3
        && AnchorIdInjector.AnchoredLines(lines, slugs) == AnchoredSection(a) + AnchoredSection(b) + AnchoredSection(c) by {
      ThreeSections(a, b, c);
    }
    assert TocGenerator.TocLines(headings, slugs, levels, 3)
      == [TocGenerator.TocLine(a.text, a.slug, a.level), TocGenerator.TocLine(b.text, b.slug, b.level), TocGenerator.TocLine(c.text, c.slug, c.level)] by {
      ThreeEntries(headings, slugs, levels);
    }
    assert forall k :: 0 <= k < 3 ==> Slugify(config, headings[k]) == Success(slugs[k]) by {
      ThreeSlugs(config, a, b, c);
    }
    DefaultPipelineResult(config, content, headings, levels, slugs);
  }

  /** The slugs of the three sections, in order. */
  lemma ThreeSlugs(config: SlugifyConfig, a: Section, b: Section, c: Section)
    requires Slugify(config, a.text) == Success(a.slug)
    requires Slugify(config, b.text) == Success(b.slug)
    requires Slugify(config, c.text) == Success(c.slug)
    ensures forall k :: 0 <= k < 3 ==> Slugify(config, [a.text, b.text, c.text][k]) == Success([a.slug, b.slug, c.slug][k])
  {
    forall k | 0 <= k < 3
      ensures Slugify(config, [a.text, b.text, c.text][k]) == Success([a.slug, b.slug, c.slug][k])
    {
      if k == 0 {
      } else if k == 1 {
      } else {
      }
    }
  }

  /** `Unlines` of one more line, from the front. */
  lemma {:induction false} UnlinesCons(x: string, xs: seq<string>)
    ensures Unlines([x] + xs) == x + "\n" + Unlines(xs)
    decreases |xs|
  {
    if xs == [] {
      assert [x] + xs == [x];
      assert [x][..0] == [];
    } else {
      var init := xs[..|xs| - 1];
      assert ([x] + xs)[..|xs|] == [x] + init;
      UnlinesCons(x, init);
    }
  }

  /** A section's lines as text: the heading line, then each body line, each followed by '\n'. */
  lemma SectionText(s: Section, rest: seq<string>)
    ensures Unlines(SectionLines(s) + rest) == s.heading + "\n" + Unlines(s.body + rest)
  {
    assert SectionLines(s) + rest == [s.heading] + (s.body + rest);
    UnlinesCons(s.heading, s.body + rest);
  }

  // ---------------------------------------------------------------------
  // The basic example: three headings with text between them

  const TitleOne := Section("    # " + "Title One", "Title One", 1, "title-one", ["    " + "Some text here.", ""])
  const SubtitleTwo := Section("    ## " + "Subtitle Two", "Subtitle Two", 2, "subtitle-two", ["    " + "More text.", ""])
  const FinalSection := Section("    ### " + "Final Section", "Final Section", 3, "final-section", ["    " + "Even more text."])

  /** A heading text the pipeline keeps as it is: visible ends, no leading '#', no line terminator. */
  predicate VisibleText(t: string)
  {
    t != [] && t[0] != '#' && !IsTrimmable(t[0]) && !IsTrimmable(t[|t| - 1]) &&
    forall k :: 0 <= k < |t| ==> !IsLineTerminator(t[k])
  }

  /** The heading line is the indentation `ws`, the marker of the section's level, a space and the text. */
  predicate Marked(s: Section, ws: string)
  {
    1 <= s.level <= 6 && s.heading == ws + RepeatChar('#', s.level) + " " + s.text
  }

  /** A heading line indented by whitespace has the facts of its trimmed form. */
  lemma IndentedSectionHeading(s: Section, ws: string)
    requires AllTrimmable(ws) && Marked(s, ws) && VisibleText(s.text)
    ensures HeadingFacts(s)
  {
    assert s.heading == ws + RepeatChar('#', s.level) + " " + s.text + "";
    HeadingLine(ws, s.level, s.text, "");
  }

  /** The empty line is no heading. */
  lemma EmptyLineIsPlain()
    ensures !Matches("")
  {
    TrimOfTrimmable("");
  }

  /** Text made of lines, read from the front: each line, then '\n', then the rest. */
  lemma UnlinesFrom(lines: seq<string>, i: nat)
    requires i < |lines|
    ensures Unlines(lines[i..]) == lines[i] + "\n" + Unlines(lines[i + 1..])
  {
    assert lines[i..] == [lines[i]] + lines[i + 1..];
    UnlinesCons(lines[i], lines[i + 1..]);
  }

  // The facts about each section come as separate small lemmas (heading, marker, visible text,
  // body, line breaks) for the same reason: literal string facts stay cheap only in small queries.

  lemma TitleOneHeading()
    ensures HeadingFacts(TitleOne)
  {
    TitleOneMarked();
    TitleOneVisible();
    assert AllTrimmable("    ");
    IndentedSectionHeading(TitleOne, "    ");
  }

  lemma TitleOneMarked()
    ensures Marked(TitleOne, "    ")
  {
    var prefix := "    # ";
    assert prefix == "    " + RepeatChar('#', 1) + " " by {
      assert RepeatChar('#', 1) == "#";
    }
  }

  lemma TitleOneVisible()
    ensures VisibleText(TitleOne.text)
  {
  }

  lemma TitleOneBody()
    ensures NoHeadingLines(TitleOne.body)
  {
    EmptyLineIsPlain();
    PlainLine("    ", "Some text here.");
  }

  lemma TitleOneBreaks()
    ensures NoBreaks(TitleOne)
  {
  }

  lemma TitleOneWellFormed()
    ensures WellFormed(TestConfig, TitleOne)
  {
    TitleOneHeading();
    TitleOneBody();
    TitleOneBreaks();
    TitleOneSlug();
  }

  lemma SubtitleTwoHeading()
    ensures HeadingFacts(SubtitleTwo)
  {
    SubtitleTwoMarked();
    SubtitleTwoVisible();
    assert AllTrimmable("    ");
    IndentedSectionHeading(SubtitleTwo, "    ");
  }

  lemma SubtitleTwoMarked()
    ensures Marked(SubtitleTwo, "    ")
  {
    var prefix := "    ## ";
    assert prefix == "    " + RepeatChar('#', 2) + " " by {
      assert RepeatChar('#', 2) == "##";
    }
  }

  lemma SubtitleTwoVisible()
    ensures VisibleText(SubtitleTwo.text)
  {
  }

  lemma SubtitleTwoBody()
    ensures NoHeadingLines(SubtitleTwo.body)
  {
    EmptyLineIsPlain();
    PlainLine("    ", "More text.");
  }

  lemma SubtitleTwoBreaks()
    ensures NoBreaks(SubtitleTwo)
  {
  }

  lemma SubtitleTwoWellFormed()
    ensures WellFormed(TestConfig, SubtitleTwo)
  {
    SubtitleTwoHeading();
    SubtitleTwoBody();
    SubtitleTwoBreaks();
    SubtitleTwoSlug();
  }

  lemma FinalSectionHeading()
    ensures HeadingFacts(FinalSection)
  {
    FinalSectionMarked();
    FinalSectionVisible();
    assert AllTrimmable("    ");
    IndentedSectionHeading(FinalSection, "    ");
  }

  lemma FinalSectionMarked()
    ensures Marked(FinalSection, "    ")
  {
    var prefix := "    ### ";
    assert prefix == "    " + RepeatChar('#', 3) + " " by {
      assert RepeatChar('#', 3) == "###";
    }
  }

  lemma FinalSectionVisible()
    ensures VisibleText(FinalSection.text)
  {
  }

  lemma FinalSectionBody()
    ensures NoHeadingLines(FinalSection.body)
  {
    PlainLine("    ", "Even more text.");
  }

  lemma FinalSectionBreaks()
    ensures NoBreaks(FinalSection)
  {
  }

  lemma FinalSectionWellFormed()
    ensures WellFormed(TestConfig, FinalSection)
  {
    FinalSectionHeading();
    FinalSectionBody();
    FinalSectionBreaks();
    FinalSectionSlug();
  }

  /**
   * The lines of the basic example's text block: its closing delimiter sits
   * four columns left of the text, so every non-empty line keeps four spaces.
   */
  const BasicLines := ["    # " + "Title One", "    " + "Some text here.", "", "    ## " + "Subtitle Two", "    " + "More text.", "",
                       "    ### " + "Final Section", "    " + "Even more text."]

  lemma BasicSections()
    ensures SectionLines(TitleOne) + SectionLines(SubtitleTwo) + SectionLines(FinalSection) == BasicLines
  {
  }

  lemma TitleOneAnchored()
    ensures AnchoredSection(TitleOne) == ["# " + "Title One" + " {#" + "title-one" + "}"] + TitleOne.body
  {
    assert RepeatChar('#', 1) + " " == "# " by {
      assert RepeatChar('#', 1) == "#";
    }
    AnchoredAs(TitleOne, "# ");
  }

  lemma SubtitleTwoAnchored()
    ensures AnchoredSection(SubtitleTwo) == ["## " + "Subtitle Two" + " {#" + "subtitle-two" + "}"] + SubtitleTwo.body
  {
    assert RepeatChar('#', 2) + " " == "## " by {
      assert RepeatChar('#', 2) == "##";
    }
    AnchoredAs(SubtitleTwo, "## ");
  }

  lemma FinalSectionAnchored()
    ensures AnchoredSection(FinalSection) == ["### " + "Final Section" + " {#" + "final-section" + "}"] + FinalSection.body
  {
    assert RepeatChar('#', 3) + " " == "### " by {
      assert RepeatChar('#', 3) == "###";
    }
    AnchoredAs(FinalSection, "### ");
  }

  lemma BasicAnchoredLines()
    ensures AnchoredSection(TitleOne) + AnchoredSection(SubtitleTwo) + AnchoredSection(FinalSection)
         == ["# " + "Title One" + " {#" + "title-one" + "}", "    " + "Some text here.", "", "## " + "Subtitle Two" + " {#" + "subtitle-two" + "}", "    " + "More text.", "",
             "### " + "Final Section" + " {#" + "final-section" + "}", "    " + "Even more text."]
  {
    TitleOneAnchored();
    SubtitleTwoAnchored();
    FinalSectionAnchored();
  }

  lemma TitleOneTocLine()
    ensures TocGenerator.TocLine("Title One", "title-one", 1) == "- [" + "Title One" + "](#" + "title-one" + ")"
  {
    assert TocGenerator.Indent(1) == "";
    TocLineAs("Title One", "title-one", 1, "- [");
  }

  lemma SubtitleTwoTocLine()
    ensures TocGenerator.TocLine("Subtitle Two", "subtitle-two", 2) == "  - [" + "Subtitle Two" + "](#" + "subtitle-two" + ")"
  {
    assert TocGenerator.Indent(2) == "  ";
    TocLineAs("Subtitle Two", "subtitle-two", 2, "  - [");
  }

  lemma FinalSectionTocLine()
    ensures TocGenerator.TocLine("Final Section", "final-section", 3) == "    - [" + "Final Section" + "](#" + "final-section" + ")"
  {
    assert TocGenerator.Indent(3) == "    " by {
      assert Repeat("  ", 1) == "  ";
    }
    TocLineAs("Final Section", "final-section", 3, "    - [");
  }

  lemma BasicTocLines()
    ensures [TocGenerator.TocLine("Title One", "title-one", 1),
             TocGenerator.TocLine("Subtitle Two", "subtitle-two", 2),
             TocGenerator.TocLine("Final Section", "final-section", 3)]
         == ["- [" + "Title One" + "](#" + "title-one" + ")", "  - [" + "Subtitle Two" + "](#" + "subtitle-two" + ")", "    - [" + "Final Section" + "](#" + "final-section" + ")"]
  {
    TitleOneTocLine();
    SubtitleTwoTocLine();
    FinalSectionTocLine();
  }

  /**
   * The basic example (the text block ends in a line break, so it is its
   * lines each followed by '\n'): the headings, levels and slugs it expects,
   * the three indented entries of the contents, and each heading line
   * carrying its anchor while the other lines stay as they were.
   */
  lemma BasicExample()
    ensures var r := RunSteps(DefaultSteps(TestConfig), Fresh(Unlines(BasicLines)));
      r.outcome == Completed &&
      r.doc.headings == ["Title One", "Subtitle Two", "Final Section"] &&
      r.doc.headingLevels == [1, 2, 3] &&
      r.doc.slugs == ["title-one", "subtitle-two", "final-section"] &&
      r.doc.toc == Unlines(["- [" + "Title One" + "](#" + "title-one" + ")", "  - [" + "Subtitle Two" + "](#" + "subtitle-two" + ")", "    - [" + "Final Section" + "](#" + "final-section" + ")"]) &&
      r.doc.originalContent
        == Unlines(["# " + "Title One" + " {#" + "title-one" + "}", "    " + "Some text here.", "", "## " + "Subtitle Two" + " {#" + "subtitle-two" + "}", "    " + "More text.", "",
                    "### " + "Final Section" + " {#" + "final-section" + "}", "    " + "Even more text."])
  {
    TitleOneWellFormed();
    SubtitleTwoWellFormed();
    FinalSectionWellFormed();
    BasicSections();
    ThreeSectionRun(TestConfig, TitleOne, SubtitleTwo, FinalSection);
    BasicAnchoredLines();
    BasicTocLines();
  }

  // ---------------------------------------------------------------------
  // The external-file example: three headings separated by empty lines

  const HeadingASection := Section("    # " + "Heading A", "Heading A", 1, "heading-a", [""])
  const HeadingBSection := Section("    ## " + "Heading B", "Heading B", 2, "heading-b", [""])
  const HeadingCSection := Section("    ### " + "Heading C", "Heading C", 3, "heading-c", [])

  lemma HeadingASectionHeading()
    ensures HeadingFacts(HeadingASection)
  {
    HeadingAMarked();
    HeadingAVisible();
    assert AllTrimmable("    ");
    IndentedSectionHeading(HeadingASection, "    ");
  }

  lemma HeadingAMarked()
    ensures Marked(HeadingASection, "    ")
  {
    var prefix := "    # ";
    assert prefix == "    " + RepeatChar('#', 1) + " " by {
      assert RepeatChar('#', 1) == "#";
    }
  }

  lemma HeadingAVisible()
    ensures VisibleText(HeadingASection.text)
  {
  }

  lemma HeadingASectionBody()
    ensures NoHeadingLines(HeadingASection.body)
  {
    EmptyLineIsPlain();
  }

  lemma HeadingASectionBreaks()
    ensures NoBreaks(HeadingASection)
  {
  }

  lemma HeadingASectionWellFormed()
    ensures WellFormed(TestConfig, HeadingASection)
  {
    HeadingASectionHeading();
    HeadingASectionBody();
    HeadingASectionBreaks();
    HeadingASlug();
  }

  lemma HeadingBSectionHeading()
    ensures HeadingFacts(HeadingBSection)
  {
    HeadingBMarked();
    HeadingBVisible();
    assert AllTrimmable("    ");
    IndentedSectionHeading(HeadingBSection, "    ");
  }

  lemma HeadingBMarked()
    ensures Marked(HeadingBSection, "    ")
  {
    var prefix := "    ## ";
    assert prefix == "    " + RepeatChar('#', 2) + " " by {
      assert RepeatChar('#', 2) == "##";
    }
  }

  lemma HeadingBVisible()
    ensures VisibleText(HeadingBSection.text)
  {
  }

  lemma HeadingBSectionBody()
    ensures NoHeadingLines(HeadingBSection.body)
  {
    EmptyLineIsPlain();
  }

  lemma HeadingBSectionBreaks()
    ensures NoBreaks(HeadingBSection)
  {
  }

  lemma HeadingBSectionWellFormed()
    ensures WellFormed(TestConfig, HeadingBSection)
  {
    HeadingBSectionHeading();
    HeadingBSectionBody();
    HeadingBSectionBreaks();
    HeadingBSlug();
  }

  lemma HeadingCSectionHeading()
    ensures HeadingFacts(HeadingCSection)
  {
    HeadingCMarked();
    HeadingCVisible();
    assert AllTrimmable("    ");
    IndentedSectionHeading(HeadingCSection, "    ");
  }

  lemma HeadingCMarked()
    ensures Marked(HeadingCSection, "    ")
  {
    var prefix := "    ### ";
    assert prefix == "    " + RepeatChar('#', 3) + " " by {
      assert RepeatChar('#', 3) == "###";
    }
  }

  lemma HeadingCVisible()
    ensures VisibleText(HeadingCSection.text)
  {
  }

  lemma HeadingCSectionBody()
    ensures NoHeadingLines(HeadingCSection.body)
  {
  }

  lemma HeadingCSectionBreaks()
    ensures NoBreaks(HeadingCSection)
  {
  }

  lemma HeadingCSectionWellFormed()
    ensures WellFormed(TestConfig, HeadingCSection)
  {
    HeadingCSectionHeading();
    HeadingCSectionBody();
    HeadingCSectionBreaks();
    HeadingCSlug();
  }

  lemma HeadingASectionAnchored()
    ensures AnchoredSection(HeadingASection) == ["# " + "Heading A" + " {#" + "heading-a" + "}"] + HeadingASection.body
  {
    assert RepeatChar('#', 1) + " " == "# " by {
      assert RepeatChar('#', 1) == "#";
    }
    AnchoredAs(HeadingASection, "# ");
  }

  lemma HeadingBSectionAnchored()
    ensures AnchoredSection(HeadingBSection) == ["## " + "Heading B" + " {#" + "heading-b" + "}"] + HeadingBSection.body
  {
    assert RepeatChar('#', 2) + " " == "## " by {
      assert RepeatChar('#', 2) == "##";
    }
    AnchoredAs(HeadingBSection, "## ");
  }

  lemma HeadingCSectionAnchored()
    ensures AnchoredSection(HeadingCSection) == ["### " + "Heading C" + " {#" + "heading-c" + "}"] + HeadingCSection.body
  {
    assert RepeatChar('#', 3) + " " == "### " by {
      assert RepeatChar('#', 3) == "###";
    }
    AnchoredAs(HeadingCSection, "### ");
  }

  lemma ExternalFileSections()
    ensures SectionLines(HeadingASection) + SectionLines(HeadingBSection) + SectionLines(HeadingCSection) == ["    # " + "Heading A", "", "    ## " + "Heading B", "", "    ### " + "Heading C"]
  {
  }

  lemma ExternalFileAnchoredLines()
    ensures AnchoredSection(HeadingASection) + AnchoredSection(HeadingBSection) + AnchoredSection(HeadingCSection)
         == ["# " + "Heading A" + " {#" + "heading-a" + "}", "", "## " + "Heading B" + " {#" + "heading-b" + "}", "", "### " + "Heading C" + " {#" + "heading-c" + "}"]
  {
    HeadingASectionAnchored();
    HeadingBSectionAnchored();
    HeadingCSectionAnchored();
  }

  /**
   * The external-file example, with the file's content given directly: the
   * headings and slugs it expects, and each heading line carrying its anchor.
   */
  lemma ExternalFileExample()
    ensures var r := RunSteps(DefaultSteps(TestConfig), Fresh(Unlines(["    # " + "Heading A", "", "    ## " + "Heading B", "", "    ### " + "Heading C"])));
      r.outcome == Completed &&
      r.doc.headings == ["Heading A", "Heading B", "Heading C"] &&
      r.doc.headingLevels == [1, 2, 3] &&
      r.doc.slugs == ["heading-a", "heading-b", "heading-c"] &&
      r.doc.originalContent == Unlines(["# " + "Heading A" + " {#" + "heading-a" + "}", "", "## " + "Heading B" + " {#" + "heading-b" + "}", "", "### " + "Heading C" + " {#" + "heading-c" + "}"])
  {
    HeadingASectionWellFormed();
    HeadingBSectionWellFormed();
    HeadingCSectionWellFormed();
    ExternalFileSections();
    ThreeSectionRun(TestConfig, HeadingASection, HeadingBSection, HeadingCSection);
    ExternalFileAnchoredLines();
  }

  // ---------------------------------------------------------------------
  // The special-characters example: three consecutive headings

  const JungleSection := Section("    # " + "Welcome to the Jungle!", "Welcome to the Jungle!", 1, "welcome-to-the-jungle", [])
  const WhatsNewSection := Section("    ## " + "What's New in v2.0?", "What's New in v2.0?", 2, "whats-new-in-v20", [])
  const UberCoolSection := Section("    ### " + "Über-cool Stuff & Features", "Über-cool Stuff & Features", 3, "uber-cool-stuff-features", [])

  lemma JungleSectionHeading()
    ensures HeadingFacts(JungleSection)
  {
    JungleMarked();
    JungleVisible();
    assert AllTrimmable("    ");
    IndentedSectionHeading(JungleSection, "    ");
  }

  lemma JungleMarked()
    ensures Marked(JungleSection, "    ")
  {
    var prefix := "    # ";
    assert prefix == "    " + RepeatChar('#', 1) + " " by {
      assert RepeatChar('#', 1) == "#";
    }
  }

  lemma JungleVisible()
    ensures VisibleText(JungleSection.text)
  {
  }

  lemma JungleSectionBody()
    ensures NoHeadingLines(JungleSection.body)
  {
  }

  lemma JungleSectionBreaks()
    ensures NoBreaks(JungleSection)
  {
  }

  lemma JungleSectionWellFormed()
    ensures WellFormed(SpecialConfig, JungleSection)
  {
    JungleSectionHeading();
    JungleSectionBody();
    JungleSectionBreaks();
    JungleSlug();
  }

  lemma WhatsNewSectionHeading()
    ensures HeadingFacts(WhatsNewSection)
  {
    WhatsNewMarked();
    WhatsNewVisible();
    assert AllTrimmable("    ");
    IndentedSectionHeading(WhatsNewSection, "    ");
  }

  lemma WhatsNewMarked()
    ensures Marked(WhatsNewSection, "    ")
  {
    var prefix := "    ## ";
    assert prefix == "    " + RepeatChar('#', 2) + " " by {
      assert RepeatChar('#', 2) == "##";
    }
  }

  lemma WhatsNewVisible()
    ensures VisibleText(WhatsNewSection.text)
  {
  }

  lemma WhatsNewSectionBody()
    ensures NoHeadingLines(WhatsNewSection.body)
  {
  }

  lemma WhatsNewSectionBreaks()
    ensures NoBreaks(WhatsNewSection)
  {
  }

  lemma WhatsNewSectionWellFormed()
    ensures WellFormed(SpecialConfig, WhatsNewSection)
  {
    WhatsNewSectionHeading();
    WhatsNewSectionBody();
    WhatsNewSectionBreaks();
    WhatsNewSlug();
  }

  lemma UberCoolSectionHeading()
    ensures HeadingFacts(UberCoolSection)
  {
    UberCoolMarked();
    UberCoolVisible();
    assert AllTrimmable("    ");
    IndentedSectionHeading(UberCoolSection, "    ");
  }

  lemma UberCoolMarked()
    ensures Marked(UberCoolSection, "    ")
  {
    var prefix := "    ### ";
    assert prefix == "    " + RepeatChar('#', 3) + " " by {
      assert RepeatChar('#', 3) == "###";
    }
  }

  lemma UberCoolVisible()
    ensures VisibleText(UberCoolSection.text)
  {
  }

  lemma UberCoolSectionBody()
    ensures NoHeadingLines(UberCoolSection.body)
  {
  }

  lemma UberCoolSectionBreaks()
    ensures NoBreaks(UberCoolSection)
  {
  }

  lemma UberCoolSectionWellFormed()
    ensures WellFormed(SpecialConfig, UberCoolSection)
  {
    UberCoolSectionHeading();
    UberCoolSectionBody();
    UberCoolSectionBreaks();
    UberCoolSlug();
  }

  lemma SpecialSections()
    ensures SectionLines(JungleSection) + SectionLines(WhatsNewSection) + SectionLines(UberCoolSection) == ["    # " + "Welcome to the Jungle!", "    ## " + "What's New in v2.0?", "    ### " + "Über-cool Stuff & Features"]
  {
  }

  /**
   * The special-characters example: punctuation is stripped, the accented
   * letter loses its accent, and the whitespace run left where '&' was
   * stripped still becomes one separator although collapsing is off.
   */
  lemma SpecialCharactersExample()
    ensures var r := RunSteps(DefaultSteps(SpecialConfig),
                              Fresh(Unlines(["    # " + "Welcome to the Jungle!", "    ## " + "What's New in v2.0?", "    ### " + "Über-cool Stuff & Features"])));
      r.outcome == Completed &&
      r.doc.headings == ["Welcome to the Jungle!", "What's New in v2.0?", "Über-cool Stuff & Features"] &&
      r.doc.headingLevels == [1, 2, 3] &&
      r.doc.slugs == ["welcome-to-the-jungle", "whats-new-in-v20", "uber-cool-stuff-features"]
  {
    JungleSectionWellFormed();
    WhatsNewSectionWellFormed();
    UberCoolSectionWellFormed();
    SpecialSections();
    ThreeSectionRun(SpecialConfig, JungleSection, WhatsNewSection, UberCoolSection);
  }

  // ---------------------------------------------------------------------
  // Colliding headings

  lemma IntroChunk()
    ensures BeforeSeparators(TestConfig, "Intro") == "intro"
  {
    NotSlugCharacterMeaning();
    KeptChunk(TestConfig, "Intro", "intro");
  }

  lemma IntroText()
    ensures "intro"[0] != '-' && "intro"[4] != '-' && !IsLineTerminator("intro"[4])
    ensures forall k :: 0 <= k < |"intro"| ==> !IsRegexSpace("intro"[k]) && "intro"[k] != '-'
  {
  }

  lemma IntroSeparated()
    ensures Separated(TestConfig, "intro") == "intro"
  {
    IntroText();
    Word(TestConfig, "intro");
  }

  lemma IntroSlug()
    ensures Slugify(TestConfig, "Intro") == Success("intro")
  {
    IntroChunk();
    IntroSeparated();
    IntroText();
    SlugFromSeparated(TestConfig, "Intro", "intro");
  }

  /** A heading listed twice is mapped twice to its one slug. */
  lemma RepeatedHeading(config: SlugifyConfig, heading: string, slug: string)
    requires Slugify(config, heading) == Success(slug)
    ensures SlugMapper.MapSlugs(config, [heading, heading]) == ([slug, slug], Completed)
  {
    var headings := [heading, heading];
    SlugMapper.MapSlugsMeaning(config, headings);
    var done := SlugMapper.MapSlugs(config, headings).0;
    assert Slugify(config, headings[0]) == Success(done[0]);
    assert Slugify(config, headings[1]) == Success(done[1]);
    assert done == [slug, slug];
  }

  /** Two headings with the same text get the same slug: nothing makes them unique. */
  lemma CollidingHeadings()
    ensures SlugMapper.MapSlugs(TestConfig, ["Intro", "Intro"]) == (["intro", "intro"], Completed)
  {
    IntroSlug();
    RepeatedHeading(TestConfig, "Intro", "intro");
  }
}
