/** Fenced code blocks as the note application reads them back for a code-block processor. */
module Markdown {
  import opened Wrappers

  function Opening(lang: string): string { "```" + lang + "\n" }

  const Closing: string := "\n```"

  /** The body of a block fenced for `lang`, or None when the text is not such a block. */
  function ExtractFencedBody(lang: string, block: string): Option<string>
  {
    var open := Opening(lang);
    if |block| >= |open| + |Closing|
      && block[..|open|] == open
      && block[|block| - |Closing|..] == Closing
    then Some(block[|open|..|block| - |Closing|])
    else None
  }
}
