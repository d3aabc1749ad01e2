/**
 * The immutable slug configuration. Its components are the constructor's
 * arguments, read back unchanged by the datatype's field selectors (the
 * getters); nothing validates them, in particular nothing checks the
 * stripping pattern until a slug is computed with stripping switched on.
 */
module SlugifyConfiguration {
  import opened JavaString

  /** One `lo-hi` item of a bracket character class (a single character has lo == hi). */
  datatype CharRange = CharRange(lo: char, hi: char)

  /**
   * The `allowedCharactersRegex` pattern: a bracket character class `[...]`,
   * or `[^...]` when `negated`, or a pattern that does not compile.
   */
  datatype AllowedPattern =
    | CharClass(negated: bool, ranges: seq<CharRange>)
    | Invalid

  predicate InRanges(c: char, ranges: seq<CharRange>)
  {
    ranges != [] && ((ranges[0].lo <= c <= ranges[0].hi) || InRanges(c, ranges[1..]))
  }

  /** `c` is a character that `replaceAll(pattern, "")` deletes. */
  predicate Strips(pattern: AllowedPattern, c: char)
  {
    pattern.CharClass? && InRanges(c, pattern.ranges) != pattern.negated
  }

  /**
   * The `whitespaceReplacement`: a single character, and neither '$' nor '\'
   * (which a regex replacement string would interpret) nor a line terminator.
   */
  type Separator = c: char | c != '$' && c != '\\' && !IsLineTerminator(c) witness '-'

  datatype SlugifyConfig = SlugifyConfig(
    replacements: seq<(string, string)>,
    toLowerCase: bool,
    stripNonAlphanumeric: bool,
    whitespaceReplacement: Separator,
    trimEdges: bool,
    removeAccents: bool,
    collapseDashes: bool,
    allowedCharactersRegex: AllowedPattern)
}
