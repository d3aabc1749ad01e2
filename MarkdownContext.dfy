/**
 * The mutable record every processing step reads and enriches, and a value
 * snapshot of it that the step specifications are written against.
 */
module Context {
  import opened JavaString

  /** The five fields of a context, as a value. */
  datatype Doc = Doc(
    originalContent: string,
    headings: seq<string>,
    headingLevels: seq<int>,
    slugs: seq<string>,
    toc: string)

  /** How a step ended: normally, or with an exception that aborts the pipeline. */
  datatype Outcome = Completed | Threw(error: Exception)

  /** The context after a step, and how the step ended. */
  datatype Run = Run(doc: Doc, outcome: Outcome)

  /** A context as created, once the caller has set its content. */
  function Fresh(content: string): (d: Doc)
    ensures d.originalContent == content
    ensures d.headings == [] && d.headingLevels == [] && d.slugs == [] && d.toc == ""
  {
    Doc(content, [], [], [], "")
  }

  /**
   * `MarkdownContext`: public fields, the three lists grown in place by the
   * steps, `originalContent` and `toc` reassigned.
   */
  class MarkdownContext {
    var originalContent: string
    var headings: seq<string>
    var headingLevels: seq<int>
    var slugs: seq<string>
    var toc: string

    /** The field initialisers, followed by the caller's assignment of `originalContent`. */
    constructor(content: string)
      ensures Snapshot() == Fresh(content)
    {
      originalContent := content;
      headings := [];
      headingLevels := [];
      slugs := [];
      toc := "";
    }

    function Snapshot(): Doc
      reads this
    {
      Doc(originalContent, headings, headingLevels, slugs, toc)
    }
  }
}
