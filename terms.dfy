/**
 * The terms-of-service dialog's line classifier (frontend/components/terms-of-service.tsx): the terms text is
 * split into lines and each line becomes one block element.
 */
module Terms {
  import opened Text

  /** The element produced for one line. */
  datatype Block = H1(text: string) | H2(text: string) | ListItem(text: string) | Break | Paragraph(text: string)

  /** JavaScript `s.replace(pattern, replacement)` with a string pattern: only the first occurrence is replaced. */
  function ReplaceFirst(s: string, pattern: string, replacement: string): string
    requires pattern != []
  {
    if |s| < |pattern| then s
    else if s[..|pattern|] == pattern then replacement + s[|pattern|..]
    else [s[0]] + ReplaceFirst(s[1..], pattern, replacement)
  }

  /** On a line that starts with the pattern, replacing it by nothing drops exactly that prefix. */
  lemma ReplacePrefix(s: string, pattern: string)
    requires pattern != [] && StartsWith(s, pattern)
    ensures ReplaceFirst(s, pattern, "") == s[|pattern|..]
  {
  }

  /** The element for one line, classified in the order the component checks the prefixes. */
  function ClassifyLine(line: string): (b: Block)
    ensures StartsWith(line, "# ") ==> b == H1(line[2..])
    ensures !StartsWith(line, "# ") && StartsWith(line, "## ") ==> b == H2(line[3..])
    ensures !StartsWith(line, "# ") && !StartsWith(line, "## ") && StartsWith(line, "- ") ==> b == ListItem(line[2..])
    ensures !StartsWith(line, "# ") && !StartsWith(line, "## ") && !StartsWith(line, "- ") ==>
      (b == Break <==> JsTrim(line) == []) && (b != Break ==> b == Paragraph(line))
  {
    if StartsWith(line, "# ") then
      ReplacePrefix(line, "# ");
      H1(ReplaceFirst(line, "# ", ""))
    else if StartsWith(line, "## ") then
      ReplacePrefix(line, "## ");
      H2(ReplaceFirst(line, "## ", ""))
    else if StartsWith(line, "- ") then
      ReplacePrefix(line, "- ");
      ListItem(ReplaceFirst(line, "- ", ""))
    else if JsTrim(line) == [] then Break
    else Paragraph(line)
  }

  /** `content.split("\n").map(...)`. */
  function RenderTerms(content: string): (r: seq<Block>)
    ensures |r| == |Split(content, '\n')|
    ensures forall i :: 0 <= i < |r| ==> r[i] == ClassifyLine(Split(content, '\n')[i])
  {
    var lines := Split(content, '\n');
    seq(|lines|, i requires 0 <= i < |lines| => ClassifyLine(lines[i]))
  }

  /** There is one element per line: one more than the number of line breaks. */
  lemma OneBlockPerLine(content: string)
    ensures |RenderTerms(content)| == Count(content, '\n') + 1
  {
    SplitCount(content, '\n');
  }

  /** Headings lose their marker and keep the rest of the line; a paragraph keeps its line verbatim. */
  lemma HeadingText(line: string)
    ensures ClassifyLine("# " + line) == H1(line)
    ensures ClassifyLine("- " + line) == ListItem(line)
  {
    assert ("# " + line)[2..] == line;
    assert ("- " + line)[2..] == line;
  }

  /** A line beginning "## " is a second-level heading: the "# " test does not match it. */
  lemma SubheadingText(line: string)
    ensures ClassifyLine("## " + line) == H2(line)
  {
    assert ("## " + line)[3..] == line;
    assert ("## " + line)[..2][1] == '#';
  }
}
