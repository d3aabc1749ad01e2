# markdown-slugger, modelled in Dafny

markdown-slugger turns a Markdown document into:

- a list of its ATX headings (`#` to `######`) and their levels;
- a URL-safe slug for every heading;
- an indented table of contents that links to those slugs;
- a copy of the document in which every heading line carries an anchor `{#slug}`.

It does this with a pipeline of processing steps. Each step reads and enriches one mutable `MarkdownContext`. The default pipeline runs four steps in this order:

1. the heading extractor;
2. the slug mapper, which calls the default slug strategy;
3. the table-of-contents generator;
4. the anchor injector.

This project models that core and proves properties of the model.

## Structure

The model follows the Java classes one module per file.

- `JavaString.dfy` (`JavaString`): the `java.lang.String` and `java.util.regex` behaviour the core relies on.
  - `trim` removes every character up to U+0020.
  - `split("\n")` drops trailing empty strings, and an input without `'\n'` comes back whole.
  - `replace`, `indexOf` and `repeat`.
  - The regex classes `\s` and `.`, and the line terminators that `.` rejects and before which `$` can match.
  - The three runtime exceptions the steps can raise.
- `SlugifyConfig.dfy` (`SlugifyConfiguration`): the immutable configuration record.
  - It is a datatype. The Java getters are its field selectors, so each returns the constructor argument unchanged.
  - As a value, it cannot be changed by any `toSlug` call.
  - `allowedCharactersRegex` is either a bracket character class or a pattern that does not compile. The constructor checks nothing.
- `DefaultSlugStrategy.dfy`: each of the seven slug stages as a pure function, and its properties.
  - `Slugify` composes the stages.
  - `ToSlug` runs them the way `toSlug` does: a loop over the replacements, then the optional stages, each reassigning the local slug.
- `MarkdownContext.dfy` (`Context`): the class `MarkdownContext` with its five public fields.
  - `Doc` is a value snapshot of those fields.
  - `Run` pairs a snapshot with how a step ended: normally or with an exception.
- `HeadingExtractor.dfy`, `SlugMapper.dfy`, `TocGenerator.dfy`, `AnchorIdInjector.dfy`: one step each.
  - Each step is a method `Process` that changes the context in place, with the source's loops.
  - Each method is proved against a pure step function on `Doc` (`Extraction`, `SlugMapping`, `TocGeneration`, `AnchorIdInjection`).
  - The properties the source promises are lemmas about those step functions.
- `MarkdownProcessor.dfy` (`Pipeline`): the processor class and the default pipeline.
  - The processor holds its step list; `AddStep` appends and `Process` loops over the steps.
  - `RunSteps` is the pure reference for a run of steps.
  - The module holds the end-to-end lemmas about the default pipeline.
- `Scenarios.dfy`: the three end-to-end examples of the processor's test class.
  - Each example is proved about the model of the default pipeline: its content, its configuration, and the lists, contents and anchored lines that result.

Exceptions are values. The steps return an `Outcome`: `Completed`, or `Threw(e)`. `RunSteps` stops at the first `Threw`, as an exception propagating out of `process` does. The model keeps the changes a step made before it threw, as the Java code does.

Behaviour of the code a reader may not expect:

- A pattern that does not compile is not rejected when the configuration is built. It fails with `PatternSyntax` only when `toSlug` runs with stripping on, and only once there is a heading to slugify (`Slugify`, `MapSlugsMeaning`, `DefaultPipelineThrows`).
- The injector's `hashPrefix` is the trimmed text before the first occurrence of the heading text in the line, not the line's `#` run. A heading text that itself starts with `#` can therefore cut the prefix short (`ShortenedHashPrefix`).
- The injector ends every line with `'\n'`, the last one included. It does not join lines with separators (`InjectedOutput`).
- The steps do not validate list lengths or the presence of the heading text. A short list or a missing text raises `IndexOutOfBounds` or `StringIndexOutOfBounds`; these are modelled as outcomes, not as preconditions.

## Model

Source paths are relative to the repository root.

| member | source | states |
|---|---|---|
| Context.Fresh | src/main/java/io/github/astrapisixtynine/markdownslugger/core/MarkdownContext.java:42-62 | a new context holds the caller's content, empty `headings`, `headingLevels` and `slugs`, and an empty `toc` |
| Context.MarkdownContext.constructor | src/main/java/io/github/astrapisixtynine/markdownslugger/core/MarkdownContext.java:42-62 | the new object's fields are those of `Fresh(content)` |
| DefaultSlugStrategy.ToSlug | src/main/java/io/github/astrapisixtynine/markdownslugger/slug/DefaultSlugStrategy.java:64-112 | the stage-by-stage method with its replacement loop returns exactly the composed slug `Slugify`; it changes no state, so equal heading and configuration give an equal slug |
| DefaultSlugStrategy.Slugify | src/main/java/io/github/astrapisixtynine/markdownslugger/slug/DefaultSlugStrategy.java:88-92 | `toSlug` throws if and only if stripping is on and the pattern does not compile, and then with `PatternSyntax`; in every other case it returns a slug |
| DefaultSlugStrategy.ApplyReplacementsInOrder | src/main/java/io/github/astrapisixtynine/markdownslugger/slug/DefaultSlugStrategy.java:69-72 | the replacements apply pair by pair in order: one more pair rewrites the result of all the earlier ones |
| JavaString.ReplaceOneChar | src/main/java/io/github/astrapisixtynine/markdownslugger/slug/DefaultSlugStrategy.java:71 | `replace` with a one-character target rewrites each occurrence of that character and nothing else |
| JavaString.ReplaceOneCharRemovesIt | src/main/java/io/github/astrapisixtynine/markdownslugger/slug/DefaultSlugStrategy.java:71 | after replacing a character by text that does not hold it, the character no longer occurs |
| JavaString.ReplaceAbsent | src/main/java/io/github/astrapisixtynine/markdownslugger/slug/DefaultSlugStrategy.java:71 | a target that does not occur leaves the text unchanged |
| DefaultSlugStrategy.StripAccentsLeavesBaseLetters | src/main/java/io/github/astrapisixtynine/markdownslugger/slug/DefaultSlugStrategy.java:75-79 | after accent removal no combining diacritical mark and no precomposed letter of the table is left |
| DefaultSlugStrategy.DecomposeHasNoPrecomposed | src/main/java/io/github/astrapisixtynine/markdownslugger/slug/DefaultSlugStrategy.java:77 | NFD decomposition leaves no precomposed letter of the table |
| DefaultSlugStrategy.RemoveMarksMeaning | src/main/java/io/github/astrapisixtynine/markdownslugger/slug/DefaultSlugStrategy.java:78 | removing `\p{InCombiningDiacriticalMarks}+` deletes exactly the combining marks and keeps every other character |
| DefaultSlugStrategy.StripAccentsKeepsPlainText | src/main/java/io/github/astrapisixtynine/markdownslugger/slug/DefaultSlugStrategy.java:75-79 | text without accented letters or marks (plain ASCII, say) is unchanged |
| DefaultSlugStrategy.StripAccentsConcat | src/main/java/io/github/astrapisixtynine/markdownslugger/slug/DefaultSlugStrategy.java:75-79 | accent removal distributes over concatenation |
| DefaultSlugStrategy.LowerCase | src/main/java/io/github/astrapisixtynine/markdownslugger/slug/DefaultSlugStrategy.java:84 | lower-casing keeps the length |
| DefaultSlugStrategy.LowerCaseMeaning | src/main/java/io/github/astrapisixtynine/markdownslugger/slug/DefaultSlugStrategy.java:82-85 | no upper-case letter is left, each character is lower-cased on its own, and lower-casing twice is lower-casing once |
| DefaultSlugStrategy.StripMeaning | src/main/java/io/github/astrapisixtynine/markdownslugger/slug/DefaultSlugStrategy.java:88-92 | stripping deletes exactly the characters the pattern matches; a character survives if and only if it occurs and is not matched; text with no matched character is unchanged |
| DefaultSlugStrategy.StripConcat | src/main/java/io/github/astrapisixtynine/markdownslugger/slug/DefaultSlugStrategy.java:90 | stripping distributes over concatenation, so it keeps the order of the survivors |
| DefaultSlugStrategy.ReplaceRunsMaximalRun | src/main/java/io/github/astrapisixtynine/markdownslugger/slug/DefaultSlugStrategy.java:95 | a maximal whitespace run becomes exactly one separator, and the text on either side is treated independently |
| DefaultSlugStrategy.ReplaceRunsOfRun | src/main/java/io/github/astrapisixtynine/markdownslugger/slug/DefaultSlugStrategy.java:95 | a non-empty run of class characters becomes exactly one replacement character |
| DefaultSlugStrategy.ReplaceRunsOfPlain | src/main/java/io/github/astrapisixtynine/markdownslugger/slug/DefaultSlugStrategy.java:95 | text without class characters is copied unchanged |
| DefaultSlugStrategy.ReplaceRunsCharacters | src/main/java/io/github/astrapisixtynine/markdownslugger/slug/DefaultSlugStrategy.java:95-101 | run replacement only outputs input characters and the replacement; no class character survives unless the replacement is one |
| DefaultSlugStrategy.ReplaceRunsNoAdjacent | src/main/java/io/github/astrapisixtynine/markdownslugger/slug/DefaultSlugStrategy.java:98-102 | collapsing separator runs leaves no two adjacent separators |
| DefaultSlugStrategy.TrimLeading | src/main/java/io/github/astrapisixtynine/markdownslugger/slug/DefaultSlugStrategy.java:108 | the result is a suffix of the input, everything removed is a separator, and the result does not start with one |
| DefaultSlugStrategy.DropTrailingRun | src/main/java/io/github/astrapisixtynine/markdownslugger/slug/DefaultSlugStrategy.java:108 | the result is a prefix of the input, everything removed is a separator, and the result does not end with one |
| DefaultSlugStrategy.TrimTrailingMeaning | src/main/java/io/github/astrapisixtynine/markdownslugger/slug/DefaultSlugStrategy.java:108 | `sep+$` removal, including the separator run just before a final line terminator, leaves no separator at either end, only deletes, and creates no adjacent separators |
| DefaultSlugStrategy.TrimSeparatorsMeaning | src/main/java/io/github/astrapisixtynine/markdownslugger/slug/DefaultSlugStrategy.java:105-109 | edge trimming leaves no separator at either end, only deletes characters, and creates no adjacent pair of separators |
| DefaultSlugStrategy.TrimSeparatorsKeepsTrimmed | src/main/java/io/github/astrapisixtynine/markdownslugger/slug/DefaultSlugStrategy.java:105-109 | text whose edges are not separators (and that does not end in a line terminator) is unchanged |
| DefaultSlugStrategy.SeparatorStagesAvoid | src/main/java/io/github/astrapisixtynine/markdownslugger/slug/DefaultSlugStrategy.java:94-109 | stages 5 to 7 introduce no character beyond the separator |
| DefaultSlugStrategy.SlugHasNoWhitespace | src/main/java/io/github/astrapisixtynine/markdownslugger/slug/DefaultSlugStrategy.java:95 | with a separator that is not whitespace, the slug holds no whitespace character |
| DefaultSlugStrategy.SlugHasNoStrippedCharacters | src/main/java/io/github/astrapisixtynine/markdownslugger/slug/DefaultSlugStrategy.java:88-95 | with stripping on and a separator the pattern does not match, `toSlug` succeeds and no character of the slug matches the pattern |
| DefaultSlugStrategy.SlugHasNoDoubleSeparator | src/main/java/io/github/astrapisixtynine/markdownslugger/slug/DefaultSlugStrategy.java:98-102 | with `collapseDashes` on, the slug never holds two adjacent separators |
| DefaultSlugStrategy.SlugHasTrimmedEdges | src/main/java/io/github/astrapisixtynine/markdownslugger/slug/DefaultSlugStrategy.java:105-109 | with `trimEdges` on, the slug neither starts nor ends with the separator |
| DefaultSlugStrategy.SlugOfPlainConfig | src/main/java/io/github/astrapisixtynine/markdownslugger/slug/DefaultSlugStrategy.java:66-111 | with no replacements and every toggle off, `toSlug` only turns each maximal whitespace run into one separator, and leaves text without whitespace as it is |
| JavaString.Trim | src/main/java/io/github/astrapisixtynine/markdownslugger/pipeline/HeadingExtractor.java:50 | trimming never lengthens a string |
| JavaString.TrimMeaning | src/main/java/io/github/astrapisixtynine/markdownslugger/pipeline/HeadingExtractor.java:50 | `trim` returns the infix after the leading run of characters up to U+0020; it starts and ends with a character above U+0020, and only such low characters follow it |
| JavaString.TrimIgnoresSurrounding | src/main/java/io/github/astrapisixtynine/markdownslugger/pipeline/HeadingExtractor.java:50 | characters up to U+0020 around a string do not change its trimmed form |
| JavaString.TrimIsMiddle | src/main/java/io/github/astrapisixtynine/markdownslugger/pipeline/HeadingExtractor.java:50 | the trimmed form is the unique infix with only trimmable characters outside it and, unless empty, none at its ends |
| JavaString.Split | src/main/java/io/github/astrapisixtynine/markdownslugger/pipeline/HeadingExtractor.java:47 | no line that `split("\n")` returns holds a `'\n'` |
| JavaString.JoinPieces | src/main/java/io/github/astrapisixtynine/markdownslugger/pipeline/HeadingExtractor.java:47 | cutting at every `'\n'` loses nothing: joining the pieces gives the input back |
| JavaString.PiecesOfJoin | src/main/java/io/github/astrapisixtynine/markdownslugger/pipeline/HeadingExtractor.java:47 | joining newline-free pieces and cutting again gives the pieces back |
| JavaString.SplitUnlines | src/main/java/io/github/astrapisixtynine/markdownslugger/pipeline/AnchorIdInjector.java:22-43 | text built from newline-free lines, each followed by `'\n'`, splits back into those lines when the last one is not empty |
| JavaString.UnlinesSplit | src/main/java/io/github/astrapisixtynine/markdownslugger/pipeline/AnchorIdInjector.java:22-43 | splitting text that does not end in `'\n'` and ending every line with `'\n'` adds exactly one final `'\n'` |
| JavaString.IndexOf | src/main/java/io/github/astrapisixtynine/markdownslugger/pipeline/AnchorIdInjector.java:32 | `indexOf` returns the first offset at which the text occurs, and none (Java's -1) exactly when it occurs nowhere |
| JavaString.RepeatChar | src/main/java/io/github/astrapisixtynine/markdownslugger/pipeline/TocGenerator.java:28 | `n` copies of a character have length `n` and hold only that character |
| HeadingExtractor.Process | src/main/java/io/github/astrapisixtynine/markdownslugger/pipeline/HeadingExtractor.java:45-62 | the line loop, with its `while` loop counting the level, leaves the context equal to `Extraction` of the old one: texts and levels of the matching lines appended after the existing entries, content, slugs and contents unchanged |
| HeadingExtractor.HashRun | src/main/java/io/github/astrapisixtynine/markdownslugger/pipeline/HeadingExtractor.java:53-57 | the counted level never exceeds the line's length |
| HeadingExtractor.HashRunMeaning | src/main/java/io/github/astrapisixtynine/markdownslugger/pipeline/HeadingExtractor.java:53-57 | the counted level is the length of the leading `#` run: all `#`, and not followed by another `#` |
| HeadingExtractor.AtxHeadingIsRegex | src/main/java/io/github/astrapisixtynine/markdownslugger/pipeline/HeadingExtractor.java:51 | the greedy test (the whole `#` run, 1 to 6 long, a space, a non-empty rest without line terminators) holds if and only if some reading of `^#{1,6} .+` matches |
| HeadingExtractor.MatchCount | src/main/java/io/github/astrapisixtynine/markdownslugger/pipeline/HeadingExtractor.java:47-61 | no more lines match than there are lines |
| HeadingExtractor.ExtractedCounts | src/main/java/io/github/astrapisixtynine/markdownslugger/pipeline/HeadingExtractor.java:58-59 | texts and levels grow by the same count, the number of matching lines, so the two lists stay parallel |
| HeadingExtractor.ExtractedStep | src/main/java/io/github/astrapisixtynine/markdownslugger/pipeline/HeadingExtractor.java:48-60 | one more line appends its own entry to both lists if it matches, and nothing otherwise |
| HeadingExtractor.ExtractedConcat | src/main/java/io/github/astrapisixtynine/markdownslugger/pipeline/HeadingExtractor.java:48-60 | entries come in line order: the entries of earlier lines precede those of later ones |
| HeadingExtractor.ExtractedAtLine | src/main/java/io/github/astrapisixtynine/markdownslugger/core/MarkdownContext.java:44-52 | the matching line at position `i` supplies entry `MatchCount(lines[..i])` of both lists, its own text and its own level |
| HeadingExtractor.MatchingLine | src/main/java/io/github/astrapisixtynine/markdownslugger/pipeline/HeadingExtractor.java:51-59 | a matching line has a level from 1 to 6, a non-empty text, and trims to `level` times `#`, a space and the text |
| HeadingExtractor.ExtractedEntries | src/main/java/io/github/astrapisixtynine/markdownslugger/pipeline/HeadingExtractor.java:51-59 | every extracted level is from 1 to 6 and every extracted text is non-empty |
| HeadingExtractor.SurroundingWhitespace | src/main/java/io/github/astrapisixtynine/markdownslugger/pipeline/HeadingExtractor.java:50 | whitespace around a line changes neither whether it matches nor its text or level |
| HeadingExtractor.HeadingLine | src/main/java/io/github/astrapisixtynine/markdownslugger/pipeline/HeadingExtractor.java:50-59 | any indented line made of 1 to 6 `#`, a space and a visible text is a heading of that level and that text |
| HeadingExtractor.NoSpaceIsNoHeading | src/main/java/io/github/astrapisixtynine/markdownslugger/pipeline/HeadingExtractor.java:51 | a marker not followed by a space makes no heading |
| HeadingExtractor.SevenHashesIsNoHeading | src/main/java/io/github/astrapisixtynine/markdownslugger/pipeline/HeadingExtractor.java:51 | seven `#` make no heading |
| HeadingExtractor.NoTextIsNoHeading | src/main/java/io/github/astrapisixtynine/markdownslugger/pipeline/HeadingExtractor.java:51 | a marker and a space with no text after them make no heading |
| HeadingExtractor.SixHashesIsHeading | src/main/java/io/github/astrapisixtynine/markdownslugger/pipeline/HeadingExtractor.java:50-59 | six `#` with surrounding spaces make a level-6 heading whose text is trimmed |
| SlugMapper.Process | src/main/java/io/github/astrapisixtynine/markdownslugger/slug/SlugMapper.java:61-67 | the loop over the headings leaves the context equal to `SlugMapping` of the old one: the new slugs after the existing ones, everything else unchanged, or the first exception |
| SlugMapper.MapSlugsMeaning | src/main/java/io/github/astrapisixtynine/markdownslugger/slug/SlugMapper.java:63-66 | the loop throws if and only if there is a heading and the strategy strips with a pattern that does not compile, and then appends nothing; otherwise it appends one slug per heading, slug `k` being `toSlug(headings[k])` |
| SlugMapper.ThrowEndsMapping | src/main/java/io/github/astrapisixtynine/markdownslugger/slug/SlugMapper.java:63-66 | once `toSlug` has thrown, later headings are never reached |
| SlugMapper.EqualHeadingsEqualSlugs | src/main/java/io/github/astrapisixtynine/markdownslugger/slug/SlugMapper.java:65 | no deduplication: equal headings get equal slugs |
| SlugMapper.SlugMappingCounts | src/test/java/io/github/astrapisixtynine/markdownslugger/core/MarkdownProcessorTest.java:190-191 | starting from no slugs, a completed mapping leaves as many slugs as headings |
| TocGenerator.Process | src/main/java/io/github/astrapisixtynine/markdownslugger/pipeline/TocGenerator.java:20-33 | the indexed loop leaves the context equal to `TocGeneration` of the old one: `IndexOutOfBounds` with nothing changed when slugs or levels are fewer than headings, otherwise `toc` replaced by every entry followed by `'\n'` and nothing else changed |
| TocGenerator.TocLines | src/main/java/io/github/astrapisixtynine/markdownslugger/pipeline/TocGenerator.java:23-31 | there is exactly one entry per heading |
| TocGenerator.TocLineAt | src/main/java/io/github/astrapisixtynine/markdownslugger/pipeline/TocGenerator.java:25-30 | entry `k` is built from heading `k`, slug `k` and level `k` only |
| TocGenerator.IndentIsSpaces | src/main/java/io/github/astrapisixtynine/markdownslugger/pipeline/TocGenerator.java:28 | the indent is `2 * max(0, level - 1)` spaces |
| TocGenerator.NoHeadingsNoToc | src/main/java/io/github/astrapisixtynine/markdownslugger/pipeline/TocGenerator.java:22-32 | with no headings `toc` becomes empty whatever it held: it is overwritten, not appended to |
| TocGenerator.TocSplitsIntoEntries | src/main/java/io/github/astrapisixtynine/markdownslugger/pipeline/TocGenerator.java:22-32 | when no heading or slug holds a line break, the contents read back line by line are exactly the entries |
| AnchorIdInjector.Process | src/main/java/io/github/astrapisixtynine/markdownslugger/pipeline/AnchorIdInjector.java:20-44 | the context becomes `AnchorIdInjection` of the old one: only the content changes, to the rewritten lines, or nothing changes and the first exception is reported |
| AnchorIdInjector.Inject | src/main/java/io/github/astrapisixtynine/markdownslugger/pipeline/AnchorIdInjector.java:22-42 | the line loop with its running heading index and string builder yields exactly `Injection` of the lines |
| AnchorIdInjector.RunningIndexStep | src/main/java/io/github/astrapisixtynine/markdownslugger/pipeline/AnchorIdInjector.java:25-35 | `headingIndex` never passes the number of headings and rises by one exactly on a rewritten line |
| AnchorIdInjector.InjectedLines | src/main/java/io/github/astrapisixtynine/markdownslugger/pipeline/AnchorIdInjector.java:26-42 | a completed pass has one output line per input line, line `i` being what that line becomes with the running index of the lines before it |
| AnchorIdInjector.InjectedSucceeds | src/main/java/io/github/astrapisixtynine/markdownslugger/pipeline/AnchorIdInjector.java:28-32 | the pass completes if and only if every line it rewrites has a slug and contains its heading text |
| AnchorIdInjector.InjectFailurePersists | src/main/java/io/github/astrapisixtynine/markdownslugger/pipeline/AnchorIdInjector.java:26-43 | an exception on a line ends the whole pass with that exception |
| AnchorIdInjector.CopiedLines | src/main/java/io/github/astrapisixtynine/markdownslugger/pipeline/AnchorIdInjector.java:28-40 | lines that do not match, and every line after all headings are used, are copied verbatim |
| AnchorIdInjector.InjectedOutput | src/main/java/io/github/astrapisixtynine/markdownslugger/pipeline/AnchorIdInjector.java:39-43 | the new content ends with `'\n'` and splits back into the output lines |
| AnchorIdInjector.HashPrefixOfHeading | src/main/java/io/github/astrapisixtynine/markdownslugger/pipeline/AnchorIdInjector.java:32-34 | when the heading text starts with a visible character other than `#`, the line becomes its `#` run, a space, the text and `{#slug}`, with the surrounding whitespace gone |
| AnchorIdInjector.ShortenedHashPrefix | src/main/java/io/github/astrapisixtynine/markdownslugger/pipeline/AnchorIdInjector.java:32 | for the heading line `## #`, the text `#` is found inside the marker, so `hashPrefix` comes out empty and the line becomes ` # {#x}` |
| AnchorIdInjector.HeadingTextOccurs | src/main/java/io/github/astrapisixtynine/markdownslugger/pipeline/AnchorIdInjector.java:32 | the text the extractor takes from a matching line occurs in that line, so its rewrite cannot throw |
| AnchorIdInjector.AnchorOfPlainHeading | src/main/java/io/github/astrapisixtynine/markdownslugger/pipeline/AnchorIdInjector.java:32-34 | after extraction, a heading whose text starts with a visible character other than `#` is anchored as marker, space, text, `{#slug}` |
| AnchorIdInjector.AnchoredLines | src/main/java/io/github/astrapisixtynine/markdownslugger/pipeline/AnchorIdInjector.java:26-42 | the reference output has as many lines as the input |
| AnchorIdInjector.AnchoredLinesWithoutHeadings | src/main/java/io/github/astrapisixtynine/markdownslugger/pipeline/AnchorIdInjector.java:37-40 | a document with no matching line is copied line for line |
| AnchorIdInjector.AnchoredConcat | src/main/java/io/github/astrapisixtynine/markdownslugger/pipeline/AnchorIdInjector.java:25-35 | anchoring goes section by section: later lines use the slugs after those the earlier lines used |
| AnchorIdInjector.InjectorFollowsExtractor | src/main/java/io/github/astrapisixtynine/markdownslugger/pipeline/AnchorIdInjector.java:22-32 | with the extractor's own texts and enough slugs, the injector rewrites exactly the extractor's matching lines, in order, each with its own text, and never throws |
| Pipeline.ApplyStep | src/main/java/io/github/astrapisixtynine/markdownslugger/core/MarkdownProcessor.java:75 | calling a step through its interface has exactly that step's effect on the context |
| Pipeline.MarkdownProcessor.constructor | src/main/java/io/github/astrapisixtynine/markdownslugger/core/MarkdownProcessor.java:50 | a new processor has no steps |
| Pipeline.MarkdownProcessor.AddStep | src/main/java/io/github/astrapisixtynine/markdownslugger/core/MarkdownProcessor.java:59-63 | the step is appended at the end and the same processor is returned |
| Pipeline.MarkdownProcessor.Process | src/main/java/io/github/astrapisixtynine/markdownslugger/core/MarkdownProcessor.java:71-77 | every registered step runs once, in registration order, on the same context, until one throws; with no steps the context is unchanged |
| Pipeline.MarkdownProcessor.DefaultPipeline | src/main/java/io/github/astrapisixtynine/markdownslugger/core/MarkdownProcessor.java:87-92 | a new processor holding extractor, mapper, generator and injector, in that order |
| Pipeline.DefaultSteps | src/main/java/io/github/astrapisixtynine/markdownslugger/core/MarkdownProcessor.java:87-92 | the default pipeline has exactly four steps |
| Pipeline.DefaultStepsInOrder | src/main/java/io/github/astrapisixtynine/markdownslugger/core/MarkdownProcessor.java:87-92 | running the default pipeline is extraction, then mapping, then the contents, then injection |
| Pipeline.RunStepsPrefix | src/main/java/io/github/astrapisixtynine/markdownslugger/core/MarkdownProcessor.java:73-76 | step `i` runs on the context left by the steps before it |
| Pipeline.StepsAfterThrow | src/main/java/io/github/astrapisixtynine/markdownslugger/core/MarkdownProcessor.java:73-76 | after a step throws, the steps registered later never run |
| Pipeline.RunStepsConcat | src/main/java/io/github/astrapisixtynine/markdownslugger/core/MarkdownProcessor.java:59-76 | steps added in two batches run as the first batch, then the second on its result |
| Pipeline.RunStepsCompleted | src/main/java/io/github/astrapisixtynine/markdownslugger/core/MarkdownProcessor.java:73-76 | in a completed run, every step completes on the context the previous step left |
| Pipeline.ExtractFresh | src/main/java/io/github/astrapisixtynine/markdownslugger/pipeline/HeadingExtractor.java:45-62 | on a fresh context, extraction fills exactly the two heading lists |
| Pipeline.MapAfterExtraction | src/main/java/io/github/astrapisixtynine/markdownslugger/slug/SlugMapper.java:61-67 | into an empty slug list, a mapping that cannot throw stores one slug per heading, each the heading's `toSlug` |
| Pipeline.MapThrowsAfterExtraction | src/main/java/io/github/astrapisixtynine/markdownslugger/slug/SlugMapper.java:61-67 | with a heading and an uncompilable stripping pattern, the mapper throws and stores nothing |
| Pipeline.TocAfterMapping | src/main/java/io/github/astrapisixtynine/markdownslugger/pipeline/TocGenerator.java:20-33 | with parallel lists, the generator completes and sets `toc` to the entries |
| Pipeline.InjectAfterExtraction | src/main/java/io/github/astrapisixtynine/markdownslugger/pipeline/AnchorIdInjector.java:20-44 | after extraction with enough slugs, the injector completes with the reference output |
| Pipeline.DefaultPipelineThrows | src/main/java/io/github/astrapisixtynine/markdownslugger/core/MarkdownProcessor.java:71-92 | on a fresh context with a heading and an uncompilable stripping pattern, the default pipeline throws in the mapper: the lists are extracted, no slug is stored, and contents and content are untouched |
| Pipeline.DefaultPipelineRun | src/main/java/io/github/astrapisixtynine/markdownslugger/core/MarkdownProcessor.java:71-92 | otherwise the default pipeline completes on a fresh context, with one determined document: extracted lists, their slugs, the contents built from them, and the anchored content, with as many headings as levels and slugs |
| Pipeline.DefaultPipelineCompletes | src/main/java/io/github/astrapisixtynine/markdownslugger/core/MarkdownProcessor.java:71-92 | a completed default run has parallel lists in line order, slug `k` being `toSlug(headings[k])`, contents built from the three lists, and every matching line anchored |
| Pipeline.DefaultPipelineResult | src/main/java/io/github/astrapisixtynine/markdownslugger/core/MarkdownProcessor.java:71-92 | given the slug of every heading, the whole result of the default pipeline is fixed by the content |
| Pipeline.AnchorsMatchToc | src/main/java/io/github/astrapisixtynine/markdownslugger/pipeline/AnchorIdInjector.java:30-34 | cross-references agree: the anchor on the line of heading `k` and the link of contents entry `k` carry the same slug, and that line's own text |
| Pipeline.AnchoredLineAt | src/main/java/io/github/astrapisixtynine/markdownslugger/pipeline/AnchorIdInjector.java:28-40 | output line `i` is the anchored line if line `i` matches, with the slug of its position among matching lines, and the line itself otherwise |
| Scenarios.BasicExample | src/test/java/io/github/astrapisixtynine/markdownslugger/core/MarkdownProcessorTest.java:53-109 | the basic document gives headings `Title One`, `Subtitle Two`, `Final Section`, levels 1, 2, 3, slugs `title-one`, `subtitle-two`, `final-section`, the three indented contents entries, and each heading line rewritten with its anchor while every other line stays |
| Scenarios.ExternalFileExample | src/test/java/io/github/astrapisixtynine/markdownslugger/core/MarkdownProcessorTest.java:116-151 | the file's content gives headings `Heading A/B/C`, slugs `heading-a/b/c`, and each heading line anchored |
| Scenarios.SpecialCharactersExample | src/test/java/io/github/astrapisixtynine/markdownslugger/core/MarkdownProcessorTest.java:205-238 | the special-characters document gives its three headings, levels 1, 2, 3 and slugs `welcome-to-the-jungle`, `whats-new-in-v20`, `uber-cool-stuff-features` |
| Scenarios.ThreeSectionRun | src/main/java/io/github/astrapisixtynine/markdownslugger/core/MarkdownProcessor.java:71-92 | a document of three well-formed sections yields their texts, levels and slugs in order, one contents entry each, and their heading lines anchored |
| Scenarios.JungleSlug | src/test/java/io/github/astrapisixtynine/markdownslugger/core/MarkdownProcessorTest.java:234-236 | `Welcome to the Jungle!` slugifies to `welcome-to-the-jungle` |
| Scenarios.WhatsNewSlug | src/test/java/io/github/astrapisixtynine/markdownslugger/core/MarkdownProcessorTest.java:234-236 | `What's New in v2.0?` slugifies to `whats-new-in-v20` |
| Scenarios.UberCoolSlug | src/test/java/io/github/astrapisixtynine/markdownslugger/core/MarkdownProcessorTest.java:234-236 | `Über-cool Stuff & Features` slugifies to `uber-cool-stuff-features`; the whitespace run left where `&` was stripped still becomes one separator with collapsing off |
| Scenarios.TitleOneSlug | src/test/java/io/github/astrapisixtynine/markdownslugger/core/MarkdownProcessorTest.java:95-97 | `Title One` slugifies to `title-one` under the test configuration |
| Scenarios.HeadingASlug | src/test/java/io/github/astrapisixtynine/markdownslugger/core/MarkdownProcessorTest.java:145 | `Heading A` slugifies to `heading-a` |
| Scenarios.CollidingHeadings | src/main/java/io/github/astrapisixtynine/markdownslugger/slug/SlugMapper.java:63-66 | two headings `Intro` both map to `intro`: the mapper keeps one slug per heading and makes none unique |

## Left out

- Unicode normalisation: `Normalizer.normalize(…, NFD)` is modelled only for the precomposed letters of the Latin-1 Supplement, each a base letter and one combining mark. Other scripts and multi-mark decompositions are not modelled. The `Über` example is proved under that table.
- `String.toLowerCase`: only the upper-case letters of ASCII and Latin-1 are mapped. Locale rules and the rest of Unicode, including changes of length, are not modelled.
- A general regular-expression engine for `allowedCharactersRegex`: the pattern is either a bracket character class (possibly negated) or one that does not compile. Other valid patterns, such as alternations or multi-character matches, are not modelled.
- Separators: `whitespaceReplacement` is one character, and neither `$`, `\` nor a line terminator. Longer or empty separators change what `Pattern.quote(sep) + "{2,}"` matches, and `$` or `\` are special in a replacement string.
- Replacement order: the `Map` of replacements is an ordered sequence of pairs. `HashMap` iteration order is not specified by Java, so the model fixes one order.
- `originalContent` is a string. Java leaves it `null` until the caller sets it, and `split` would then throw a `NullPointerException`; that case is not modelled.
- The interfaces `MarkdownProcessingStep` and `SlugStrategy`: MarkdownProcessingStep.java and SlugStrategy.java are not part of this model. The steps are a closed datatype of the four steps, and the strategy is the default one, given by its configuration. User-defined steps or strategies are not modelled.
- The test class's file I/O and its disabled test on a local file. The external-file example is proved on the file's content.
- The test compares the contents after `trim()`. `Scenarios.BasicExample` states the exact contents, which end in `'\n'`.
- TocGenerator.Indent: levels are unbounded integers (`headingLevels` is a `seq<int>`). The 32-bit wrap of `level - 1` at `Integer.MIN_VALUE`, and the `OutOfMemoryError` that `"  ".repeat` raises when the repeated length passes the `int` range, are not modelled; `TocGeneration` completes there. Only a caller that stores levels outside 1 to 6 in the public field reaches these cases; the extractor never does (`ExtractedEntries`).
- Regex `.` in the heading pattern is modelled as any character except the line terminators `\n`, `\r`, U+0085, U+2028 and U+2029.
