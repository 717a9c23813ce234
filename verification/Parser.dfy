/**
 * The block extractor (`Parser`): the graph description inside each located
 * block, handed to the renderer.
 */
module Parser {
  import opened Text
  import opened Locator

  /**
   * `_extract_text(line_start, size, _)`: the lines of
   * `file_content[line_start + 1 : line_start + size]`, each left-stripped,
   * joined with no separator.
   */
  function ExtractText(lines: seq<string>, p: Position): (text: string)
  {
    Join(StripAll(PySlice(lines, p.start + 1, p.start + p.size)))
  }

  /** `[line.lstrip() for line in body]`. */
  function StripAll(body: seq<string>): (r: seq<string>)
    ensures |r| == |body| && forall j :: 0 <= j < |body| ==> r[j] == LStrip(body[j])
  {
    seq(|body|, j requires 0 <= j < |body| => LStrip(body[j]))
  }

  /** `extract_graphs(file_content, positions)`: one description per position, in order. */
  function ExtractGraphs(lines: seq<string>, positions: seq<Position>): (r: seq<string>)
    ensures |r| == |positions|
    ensures forall k :: 0 <= k < |positions| ==> r[k] == ExtractText(lines, positions[k])
  {
    seq(|positions|, k requires 0 <= k < |positions| => ExtractText(lines, positions[k]))
  }

  /** Reference definition: lines `lo .. hi-1`, each left-stripped, one after the other. */
  function StrippedText(lines: seq<string>, lo: nat, hi: nat): string
    requires lo <= hi <= |lines|
    decreases hi - lo
  {
    if lo == hi then "" else LStrip(lines[lo]) + StrippedText(lines, lo + 1, hi)
  }

  lemma {:induction false} JoinStripped(lines: seq<string>, lo: nat, hi: nat, body: seq<string>)
    requires lo <= hi <= |lines| && body == lines[lo..hi]
    ensures Join(StripAll(body)) == StrippedText(lines, lo, hi)
    decreases hi - lo
  {
    if lo < hi {
      assert StripAll(body)[1..] == StripAll(body[1..]);
      JoinStripped(lines, lo + 1, hi, body[1..]);
    }
  }

  /**
   * The description of a block is the text of the lines strictly between its
   * opener and its closer; bounds past the end of the document are clamped.
   */
  lemma ExtractTextBody(lines: seq<string>, p: Position)
    ensures var hi := if p.End() < |lines| then p.End() else |lines|;
            var lo := if p.start + 1 < hi then p.start + 1 else hi;
            ExtractText(lines, p) == StrippedText(lines, lo, hi)
  {
    var hi := if p.End() < |lines| then p.End() else |lines|;
    var lo := if p.start + 1 < hi then p.start + 1 else hi;
    var body := PySlice(lines, p.start + 1, p.start + p.size);
    assert ExtractText(lines, p) == Join(StripAll(body)) by {
      ExtractTextUnfold(lines, p);
    }
    PySliceClamped(lines, p.start + 1, p.start + p.size);
    JoinStripped(lines, lo, hi, body);
  }

  lemma ExtractTextUnfold(lines: seq<string>, p: Position)
    ensures ExtractText(lines, p) == Join(StripAll(PySlice(lines, p.start + 1, p.start + p.size)))
  {
  }

  /** A body line made only of whitespace contributes nothing. */
  lemma BlankLineStripsToEmpty(line: string)
    requires forall j :: 0 <= j < |line| ==> IsSpace(line[j])
    ensures LStrip(line) == ""
  {
    LStripSpec(line);
  }

  /** One description per located block, in block order: the stripped text of that block's body lines. */
  lemma ExtractGraphsOfLocated(lines: seq<string>)
    requires Locate(lines).Ok?
    ensures var ps := Locate(lines).value;
            && |ExtractGraphs(lines, ps)| == |ps|
            && forall k :: 0 <= k < |ps| ==>
              && ps[k].start < ps[k].End() < |lines|
              && ExtractGraphs(lines, ps)[k] == StrippedText(lines, ps[k].start + 1, ps[k].End())
  {
    var ps := Locate(lines).value;
    forall k | 0 <= k < |ps|
      ensures ps[k].start < ps[k].End() < |lines|
      ensures ExtractGraphs(lines, ps)[k] == StrippedText(lines, ps[k].start + 1, ps[k].End())
    {
      LocatedBlock(lines, k);
      ExtractTextBody(lines, ps[k]);
    }
  }

  /** Two indented body lines lose their indentation and keep their line ends. */
  lemma ExtractTextExample()
    ensures ExtractText(["```graph\n", "  A;\n", "  B;\n", "```\n"], Position(0, 3, 0)) == "A;\nB;\n"
  {
    var lines := ["```graph\n", "  A;\n", "  B;\n", "```\n"];
    ExtractTextBody(lines, Position(0, 3, 0));
    assert LStrip("  A;\n") == "A;\n";
    assert LStrip("  B;\n") == "B;\n";
  }
}
