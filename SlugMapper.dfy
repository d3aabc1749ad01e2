/**
 * The slug mapper: `toSlug` applied to every heading, in order, each slug
 * appended to the context's slug list. An exception from `toSlug` ends
 * the step with the slugs appended so far.
 */
module SlugMapper {
  import opened JavaString
  import opened SlugifyConfiguration
  import opened DefaultSlugStrategy
  import opened Context

  /** The slugs appended before `toSlug` first throws, and how the loop ended. */
  function MapSlugs(config: SlugifyConfig, headings: seq<string>): (seq<string>, Outcome)
  {
    if headings == [] then ([], Completed)
    else
      var (done, outcome) := MapSlugs(config, headings[..|headings| - 1]);
      if outcome.Threw? then (done, outcome)
      else match Slugify(config, headings[|headings| - 1])
        case Success(slug) => (done + [slug], Completed)
        case Failure(e) => (done, Threw(e))
  }

  /** The effect of `process`: the new slugs after the existing ones, nothing else changed. */
  function SlugMapping(config: SlugifyConfig, d: Doc): Run
  {
    var (done, outcome) := MapSlugs(config, d.headings);
    Run(d.(slugs := d.slugs + done), outcome)
  }

  /**
   * `SlugMapper.process`: the loop over the headings, calling the strategy on
   * each one and appending its slug.
   */
  method Process(config: SlugifyConfig, context: MarkdownContext) returns (outcome: Outcome)
    modifies context
    ensures Run(context.Snapshot(), outcome) == SlugMapping(config, old(context.Snapshot()))
  {
    var headings := context.headings;
    for i := 0 to |headings|
      invariant context.originalContent == old(context.originalContent) && context.toc == old(context.toc)
      invariant context.headings == headings && context.headingLevels == old(context.headingLevels)
      invariant MapSlugs(config, headings[..i]).1 == Completed
      invariant context.slugs == old(context.slugs) + MapSlugs(config, headings[..i]).0
    {
      assert headings[..i + 1][..i] == headings[..i];
      var slug := ToSlug(config, headings[i]);
      if slug.Failure? {
        assert MapSlugs(config, headings[..i + 1]) == (MapSlugs(config, headings[..i]).0, Threw(slug.error));
        ThrowEndsMapping(config, headings, i + 1);
        return Threw(slug.error);
      }
      context.slugs := context.slugs + [slug.value];
    }
    assert headings[..|headings|] == headings;
    return Completed;
  }

  /** Once a heading has thrown, the later headings are never reached. */
  lemma {:induction false} ThrowEndsMapping(config: SlugifyConfig, headings: seq<string>, n: nat)
    requires n <= |headings| && MapSlugs(config, headings[..n]).1.Threw?
    ensures MapSlugs(config, headings) == MapSlugs(config, headings[..n])
    decreases |headings| - n
  {
    if n < |headings| {
      var longer := headings[..n + 1];
      assert longer[..n] == headings[..n];
      ThrowEndsMapping(config, headings, n + 1);
    } else {
      assert headings[..n] == headings;
    }
  }

  /**
   * The loop throws exactly when it has a heading and the strategy strips with
   * a pattern that does not compile; it then throws on the first heading, so
   * nothing is appended. Otherwise slug number k is the slug of heading k.
   */
  lemma {:induction false} MapSlugsMeaning(config: SlugifyConfig, headings: seq<string>)
    ensures var (done, outcome) := MapSlugs(config, headings);
      (outcome.Threw? <==> headings != [] && config.stripNonAlphanumeric && config.allowedCharactersRegex.Invalid?) &&
      (outcome.Threw? ==> done == [] && outcome.error == PatternSyntax) &&
      (outcome.Completed? ==>
        |done| == |headings| &&
        forall k :: 0 <= k < |headings| ==> Slugify(config, headings[k]) == Success(done[k]))
  {
    if headings != [] {
      var init := headings[..|headings| - 1];
      MapSlugsMeaning(config, init);
      var (done, outcome) := MapSlugs(config, init);
      if outcome.Completed? && Slugify(config, headings[|headings| - 1]).Success? {
        var all := MapSlugs(config, headings).0;
        assert forall k :: 0 <= k < |init| ==> headings[k] == init[k] && all[k] == done[k];
      }
    }
  }

  /** No deduplication: equal headings receive equal slugs. */
  lemma EqualHeadingsEqualSlugs(config: SlugifyConfig, headings: seq<string>, j: nat, k: nat)
    requires j < |headings| && k < |headings| && headings[j] == headings[k]
    requires MapSlugs(config, headings).1.Completed?
    ensures |MapSlugs(config, headings).0| == |headings|
    ensures MapSlugs(config, headings).0[j] == MapSlugs(config, headings).0[k]
  {
    MapSlugsMeaning(config, headings);
  }

  /** Starting from no slugs, a completed mapping leaves as many slugs as headings. */
  lemma SlugMappingCounts(config: SlugifyConfig, d: Doc)
    requires d.slugs == []
    requires SlugMapping(config, d).outcome.Completed?
    ensures |SlugMapping(config, d).doc.slugs| == |d.headings|
  {
    MapSlugsMeaning(config, d.headings);
  }
}
