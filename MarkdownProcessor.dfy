/**
 * The processor: an append-only list of steps run in registration order on
 * one shared context, and the default pipeline of the four steps. A step's
 * exception propagates out of `process` and skips the remaining steps.
 */
module Pipeline {
  import opened JavaString
  import opened SlugifyConfiguration
  import opened DefaultSlugStrategy
  import opened Context
  import opened HeadingExtractor
  import SlugMapper
  import TocGenerator
  import AnchorIdInjector

  /** The processing steps; `MapSlugs` carries the configuration of its default slug strategy. */
  datatype Step =
    | ExtractHeadings
    | MapSlugs(strategy: SlugifyConfig)
    | GenerateToc
    | InjectAnchorIds

  /** The effect of one step on a context. */
  function Apply(step: Step, d: Doc): Run
  {
    match step
    case ExtractHeadings => Run(Extraction(d), Completed)
    case MapSlugs(config) => SlugMapper.SlugMapping(config, d)
    case GenerateToc => TocGenerator.TocGeneration(d)
    case InjectAnchorIds => AnchorIdInjector.AnchorIdInjection(d)
  }

  /** One more step after `r`, unless `r` ended with an exception. */
  function Then(r: Run, step: Step): Run
  {
    if r.outcome.Threw? then r else Apply(step, r.doc)
  }

  /** The steps in order, each on the context the previous one left, until one throws. */
  function RunSteps(steps: seq<Step>, d: Doc): Run
  {
    if steps == [] then Run(d, Completed)
    else Then(RunSteps(steps[..|steps| - 1], d), steps[|steps| - 1])
  }

  /** `step.process(context)`: the call through the step interface. */
  method ApplyStep(step: Step, context: MarkdownContext) returns (outcome: Outcome)
    modifies context
    ensures Run(context.Snapshot(), outcome) == Apply(step, old(context.Snapshot()))
  {
    match step {
      case ExtractHeadings =>
        HeadingExtractor.Process(context);
        outcome := Completed;
      case MapSlugs(config) =>
        outcome := SlugMapper.Process(config, context);
      case GenerateToc =>
        outcome := TocGenerator.Process(context);
      case InjectAnchorIds =>
        outcome := AnchorIdInjector.Process(context);
    }
  }

  /** The four steps of `defaultPipeline`, in their order. */
  function DefaultSteps(config: SlugifyConfig): (steps: seq<Step>)
    ensures |steps| == 4
  {
    [ExtractHeadings, MapSlugs(config), GenerateToc, InjectAnchorIds]
  }

  /** `MarkdownProcessor`: the registered steps. */
  class MarkdownProcessor {
    var steps: seq<Step>

    constructor()
      ensures steps == []
    {
      steps := [];
    }

    /** `addStep`: the step goes last, and the processor itself is returned for chaining. */
    method AddStep(step: Step) returns (self: MarkdownProcessor)
      modifies this
      ensures steps == old(steps) + [step]
      ensures self == this
    {
      steps := steps + [step];
      self := this;
    }

    /** `process`: every registered step once, in order, on the same context. */
    method Process(context: MarkdownContext) returns (outcome: Outcome)
      modifies context
      ensures Run(context.Snapshot(), outcome) == RunSteps(steps, old(context.Snapshot()))
    {
      for i := 0 to |steps|
        invariant RunSteps(steps[..i], old(context.Snapshot())) == Run(context.Snapshot(), Completed)
      {
        RunStepsPrefix(steps, i, old(context.Snapshot()));
        outcome := ApplyStep(steps[i], context);
        if outcome.Threw? {
          StepsAfterThrow(steps, i + 1, old(context.Snapshot()));
          return;
        }
      }
      assert steps[..|steps|] == steps;
      return Completed;
    }

    /** `defaultPipeline`: a new processor with the extractor, the mapper, the generator and the injector. */
    static method DefaultPipeline(config: SlugifyConfig) returns (p: MarkdownProcessor)
      ensures fresh(p)
      ensures p.steps == DefaultSteps(config)
    {
      p := new MarkdownProcessor();
      p := p.AddStep(ExtractHeadings);
      p := p.AddStep(MapSlugs(config));
      p := p.AddStep(GenerateToc);
      p := p.AddStep(InjectAnchorIds);
    }
  }

  /** The steps up to and including step i: step i on the result of the ones before it. */
  lemma RunStepsPrefix(steps: seq<Step>, i: nat, d: Doc)
    requires i < |steps|
    ensures RunSteps(steps[..i + 1], d) == Then(RunSteps(steps[..i], d), steps[i])
  {
    assert steps[..i + 1][..i] == steps[..i];
  }

  /** After a step throws, the steps registered later never run. */
  lemma {:induction false} StepsAfterThrow(steps: seq<Step>, n: nat, d: Doc)
    requires n <= |steps| && RunSteps(steps[..n], d).outcome.Threw?
    ensures RunSteps(steps, d) == RunSteps(steps[..n], d)
    decreases |steps| - n
  {
    if n < |steps| {
      assert steps[..n + 1][..n] == steps[..n];
      StepsAfterThrow(steps, n + 1, d);
    } else {
      assert steps[..n] == steps;
    }
  }

  /** Registering steps in two batches runs the first batch, then the second on its result. */
  lemma {:induction false} RunStepsConcat(a: seq<Step>, b: seq<Step>, d: Doc)
    ensures RunSteps(a + b, d)
         == var r := RunSteps(a, d); if r.outcome.Threw? then r else RunSteps(b, r.doc)
    decreases |b|
  {
    if b == [] {
      assert a + b == a;
    } else {
      var b' := b[..|b| - 1];
      assert (a + b)[..|a + b| - 1] == a + b';
      assert (a + b)[|a + b| - 1] == b[|b| - 1];
      RunStepsConcat(a, b', d);
    }
  }

  /** Every step that completes runs on the context left by the one before it. */
  lemma {:induction false} RunStepsCompleted(steps: seq<Step>, d: Doc, k: nat)
    requires k < |steps| && RunSteps(steps, d).outcome.Completed?
    ensures RunSteps(steps[..k], d).outcome.Completed?
    ensures RunSteps(steps[..k + 1], d) == Apply(steps[k], RunSteps(steps[..k], d).doc)
    decreases |steps| - k
  {
    if k + 1 < |steps| {
      var init := steps[..|steps| - 1];
      assert init[..k] == steps[..k] && init[..k + 1] == steps[..k + 1];
      RunStepsCompleted(init, d, k);
    } else {
      assert steps[..k + 1] == steps;
      assert steps[..k] == steps[..|steps| - 1];
    }
  }

  /** The default pipeline is the four steps, one after the other. */
  lemma DefaultStepsInOrder(config: SlugifyConfig, d: Doc)
    ensures RunSteps(DefaultSteps(config), d)
         == Then(Then(Then(Apply(ExtractHeadings, d), MapSlugs(config)), GenerateToc), InjectAnchorIds)
  {
    var steps := DefaultSteps(config);
    assert steps[..3] == [ExtractHeadings, MapSlugs(config), GenerateToc];
    assert steps[..3][..2] == steps[..2] == [ExtractHeadings, MapSlugs(config)];
    assert steps[..2][..1] == steps[..1] == [ExtractHeadings];
    assert steps[..1][..0] == [];
    assert RunSteps(steps[..1], d) == Then(Run(d, Completed), ExtractHeadings);
    assert RunSteps(steps[..2], d) == Then(RunSteps(steps[..1], d), MapSlugs(config));
    assert RunSteps(steps[..3], d) == Then(RunSteps(steps[..2], d), GenerateToc);
    assert RunSteps(steps, d) == Then(RunSteps(steps[..3], d), InjectAnchorIds);
  }

  /** Extraction on a fresh context fills the two lists and leaves the rest as created. */
  lemma ExtractFresh(content: string)
    ensures var lines := Split(content);
      Apply(ExtractHeadings, Fresh(content)) == Run(Doc(content, HeadingTexts(lines), HeadingLevels(lines), [], ""), Completed)
  {
    var lines := Split(content);
    assert [] + HeadingTexts(lines) == HeadingTexts(lines);
    assert [] + HeadingLevels(lines) == HeadingLevels(lines);
  }

  /** Mapping into an empty slug list, when no heading throws. */
  lemma MapAfterExtraction(config: SlugifyConfig, d: Doc)
    requires d.slugs == []
    requires !(config.stripNonAlphanumeric && config.allowedCharactersRegex.Invalid?) || d.headings == []
    ensures Then(Run(d, Completed), MapSlugs(config)) == Run(d.(slugs := SlugMapper.MapSlugs(config, d.headings).0), Completed)
    ensures |SlugMapper.MapSlugs(config, d.headings).0| == |d.headings|
    ensures forall k :: 0 <= k < |d.headings| ==> Slugify(config, d.headings[k]) == Success(SlugMapper.MapSlugs(config, d.headings).0[k])
  {
    SlugMapper.MapSlugsMeaning(config, d.headings);
    assert [] + SlugMapper.MapSlugs(config, d.headings).0 == SlugMapper.MapSlugs(config, d.headings).0;
  }

  /** Mapping throws on the first heading when the pattern does not compile. */
  lemma MapThrowsAfterExtraction(config: SlugifyConfig, d: Doc)
    requires d.slugs == [] && d.headings != []
    requires config.stripNonAlphanumeric && config.allowedCharactersRegex.Invalid?
    ensures Then(Run(d, Completed), MapSlugs(config)) == Run(d, Threw(PatternSyntax))
  {
    SlugMapper.MapSlugsMeaning(config, d.headings);
    assert d.slugs + [] == d.slugs;
  }

  /** The table of contents, when there are as many slugs and levels as headings. */
  lemma TocAfterMapping(d: Doc)
    requires |d.slugs| == |d.headings| == |d.headingLevels|
    ensures Then(Run(d, Completed), GenerateToc)
         == Run(d.(toc := Unlines(TocGenerator.TocLines(d.headings, d.slugs, d.headingLevels, |d.headings|))), Completed)
  {
  }

  /** Injection with the extractor's own texts and enough slugs completes with the reference output. */
  lemma InjectAfterExtraction(d: Doc)
    requires d.headings == HeadingTexts(Split(d.originalContent))
    requires MatchCount(Split(d.originalContent)) <= |d.slugs|
    ensures var lines := Split(d.originalContent);
      Then(Run(d, Completed), InjectAnchorIds)
        == Run(d.(originalContent := Unlines(AnchorIdInjector.AnchoredLines(lines, d.slugs))), Completed)
  {
    var lines := Split(d.originalContent);
    ExtractedCounts(lines);
    assert d.headings[..MatchCount(lines)] == d.headings;
    AnchorIdInjector.InjectorFollowsExtractor(lines, d.headings, d.slugs);
  }

  /**
   * On a fresh context whose strategy strips with a pattern that does not
   * compile, the default pipeline throws in the mapper as soon as there is a
   * heading: the lists are extracted, no slug is added and nothing else changes.
   */
  lemma DefaultPipelineThrows(config: SlugifyConfig, content: string)
    requires config.stripNonAlphanumeric && config.allowedCharactersRegex.Invalid?
    requires MatchCount(Split(content)) > 0
    ensures RunSteps(DefaultSteps(config), Fresh(content))
         == Run(Extraction(Fresh(content)), Threw(PatternSyntax))
  {
    var lines := Split(content);
    ExtractedCounts(lines);
    ExtractFresh(content);
    var d1 := Doc(content, HeadingTexts(lines), HeadingLevels(lines), [], "");
    MapThrowsAfterExtraction(config, d1);
    DefaultStepsInOrder(config, Fresh(content));
  }

  /**
   * Otherwise the default pipeline completes on a fresh context, and its
   * result is one document: the extracted lists, the strategy's slugs for
   * them, the table of contents built from the three, and the content with
   * every matching line anchored.
   */
  lemma DefaultPipelineRun(config: SlugifyConfig, content: string)
    requires !(config.stripNonAlphanumeric && config.allowedCharactersRegex.Invalid?) || MatchCount(Split(content)) == 0
    ensures var lines := Split(content);
      var headings, levels := HeadingTexts(lines), HeadingLevels(lines);
      var slugs := SlugMapper.MapSlugs(config, headings).0;
      |headings| == |levels| == |slugs| == MatchCount(lines) &&
      RunSteps(DefaultSteps(config), Fresh(content))
        == Run(Doc(Unlines(AnchorIdInjector.AnchoredLines(lines, slugs)), headings, levels, slugs,
                   Unlines(TocGenerator.TocLines(headings, slugs, levels, MatchCount(lines)))),
               Completed)
  {
    var lines := Split(content);
    var n := MatchCount(lines);
    var hs, ls := HeadingTexts(lines), HeadingLevels(lines);
    ExtractedCounts(lines);
    var slugs := SlugMapper.MapSlugs(config, hs).0;
    var d0 := Fresh(content);
    var d1 := Doc(content, hs, ls, [], "");
    var d2 := d1.(slugs := slugs);
    var r1 := Apply(ExtractHeadings, d0);
    assert r1 == Run(d1, Completed) by {
      ExtractFresh(content);
    }
    var r2 := Then(r1, MapSlugs(config));
    assert r2 == Run(d2, Completed) && |slugs| == n by {
      MapAfterExtraction(config, d1);
    }
    var d3 := d2.(toc := Unlines(TocGenerator.TocLines(hs, slugs, ls, n)));
    var r3 := Then(r2, GenerateToc);
    assert r3 == Run(d3, Completed) by {
      TocAfterMapping(d2);
    }
    var d4 := d3.(originalContent := Unlines(AnchorIdInjector.AnchoredLines(lines, slugs)));
    var r4 := Then(r3, InjectAnchorIds);
    assert r4 == Run(d4, Completed) by {
      InjectAfterExtraction(d3);
    }
    DefaultStepsInOrder(config, d0);
  }

  /**
   * What the completed run means: the three lists are parallel and in line
   * order, entry k being the text, the level and the slug of the k-th
   * matching line; the table of contents is built from them, and every
   * matching line of the content, and no other, is anchored with its own
   * text and slug.
   */
  lemma DefaultPipelineCompletes(config: SlugifyConfig, content: string)
    requires !(config.stripNonAlphanumeric && config.allowedCharactersRegex.Invalid?) || MatchCount(Split(content)) == 0
    ensures var r := RunSteps(DefaultSteps(config), Fresh(content));
      var lines := Split(content);
      r.outcome == Completed &&
      r.doc.headings == HeadingTexts(lines) &&
      r.doc.headingLevels == HeadingLevels(lines) &&
      |r.doc.headings| == |r.doc.headingLevels| == |r.doc.slugs| == MatchCount(lines) &&
      (forall k :: 0 <= k < |r.doc.slugs| ==> Slugify(config, r.doc.headings[k]) == Success(r.doc.slugs[k])) &&
      r.doc.toc == Unlines(TocGenerator.TocLines(r.doc.headings, r.doc.slugs, r.doc.headingLevels, MatchCount(lines))) &&
      r.doc.originalContent == Unlines(AnchorIdInjector.AnchoredLines(lines, r.doc.slugs))
  {
    DefaultPipelineRun(config, content);
    var lines := Split(content);
    var headings := HeadingTexts(lines);
    SlugMapper.MapSlugsMeaning(config, headings);
  }

  /**
   * The slugs are fixed by the headings, so the whole result of the default
   * pipeline is a function of the content: given the slug of every heading,
   * it is this document.
   */
  lemma DefaultPipelineResult(config: SlugifyConfig, content: string, headings: seq<string>, levels: seq<int>, slugs: seq<string>)
    requires HeadingTexts(Split(content)) == headings && HeadingLevels(Split(content)) == levels
    requires |headings| == |levels| == |slugs| == MatchCount(Split(content))
    requires forall k :: 0 <= k < |slugs| ==> Slugify(config, headings[k]) == Success(slugs[k])
    ensures RunSteps(DefaultSteps(config), Fresh(content))
         == Run(Doc(Unlines(AnchorIdInjector.AnchoredLines(Split(content), slugs)), headings, levels, slugs,
                    Unlines(TocGenerator.TocLines(headings, slugs, levels, |slugs|))),
                Completed)
  {
    assert !(config.stripNonAlphanumeric && config.allowedCharactersRegex.Invalid?) || MatchCount(Split(content)) == 0 by {
      if slugs != [] {
        assert Slugify(config, headings[0]).Success?;
      }
    }
    assert SlugMapper.MapSlugs(config, headings).0 == slugs by {
      SlugMapper.MapSlugsMeaning(config, headings);
      SlugsAreDetermined(config, headings, SlugMapper.MapSlugs(config, headings).0, slugs);
    }
    DefaultPipelineRun(config, content);
  }

  /** Two slug lists for the same headings that both succeed are the same list. */
  lemma SlugsAreDetermined(config: SlugifyConfig, headings: seq<string>, xs: seq<string>, ys: seq<string>)
    requires |xs| == |ys| == |headings|
    requires forall k :: 0 <= k < |headings| ==> Slugify(config, headings[k]) == Success(xs[k])
    requires forall k :: 0 <= k < |headings| ==> Slugify(config, headings[k]) == Success(ys[k])
    ensures xs == ys
  {
    assert forall k :: 0 <= k < |headings| ==> xs[k] == ys[k];
  }

  /**
   * The cross-references agree: the anchor on the line of heading k and the
   * link of entry k of the contents carry the same slug.
   */
  lemma AnchorsMatchToc(lines: seq<string>, slugs: seq<string>, levels: seq<int>, i: nat)
    requires MatchCount(lines) <= |slugs| && MatchCount(lines) <= |levels|
    requires i < |lines| && Matches(lines[i])
    ensures |HeadingTexts(lines)| == MatchCount(lines)
    ensures var k := MatchCount(lines[..i]);
      k < MatchCount(lines) &&
      AnchorIdInjector.AnchoredLines(lines, slugs)[i] == AnchorIdInjector.Anchor(lines[i], slugs[k]) &&
      TocGenerator.TocLines(HeadingTexts(lines), slugs, levels, MatchCount(lines))[k]
        == TocGenerator.TocLine(HeadingText(lines[i]), slugs[k], levels[k])
  {
    ExtractedAtLine(lines, i);
    ExtractedCounts(lines);
    AnchoredLineAt(lines, slugs, i);
    TocGenerator.TocLineAt(HeadingTexts(lines), slugs, levels, MatchCount(lines), MatchCount(lines[..i]));
  }

  /** Line i of the reference output: the anchored line if it matches, the line itself if not. */
  lemma {:induction false} AnchoredLineAt(lines: seq<string>, slugs: seq<string>, i: nat)
    requires MatchCount(lines) <= |slugs| && i < |lines|
    ensures MatchCount(lines[..i]) <= MatchCount(lines)
    ensures Matches(lines[i]) ==>
      MatchCount(lines[..i]) < |slugs| &&
      AnchorIdInjector.AnchoredLines(lines, slugs)[i] == AnchorIdInjector.Anchor(lines[i], slugs[MatchCount(lines[..i])])
    ensures !Matches(lines[i]) ==> AnchorIdInjector.AnchoredLines(lines, slugs)[i] == lines[i]
  {
    var init := lines[..|lines| - 1];
    if i < |lines| - 1 {
      assert init[..i] == lines[..i];
      AnchoredLineAt(init, slugs, i);
    } else {
      assert init == lines[..i];
    }
  }
}
