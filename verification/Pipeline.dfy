/**
 * The whole conversion (`main` without its I/O): locate the graph blocks,
 * extract their descriptions, name one image per block and rewrite the
 * document with a link in place of each block.
 */
module MdGraphs {
  import opened Wrappers
  import opened Text
  import opened Naming
  import opened Locator
  import opened Parser
  import opened Rewriter

  /** One image handed to the renderer: its file name and the graph description it is drawn from. */
  datatype Image = Image(name: string, description: string)

  /** Everything the conversion produces: the images, in block order, and the new document's lines. */
  datatype Output = Output(images: seq<Image>, document: seq<string>)

  /**
   * `main` once the input has been read: the positions, the descriptions,
   * one image per description named after its index, and the rewritten
   * document; or the error the locator raises, before anything is rendered
   * or written.
   */
  method Run(inputName: string, markdown: seq<string>) returns (r: Result<Output, Error>)
    ensures r.Ok? <==> !HasUnclosedOpener(markdown, |markdown|)
    ensures r.Ok? <==> Locate(markdown).Ok?
    ensures r.Ok? ==>
      var ps := Locate(markdown).value;
      && |r.value.images| == |ps|
      && (forall k :: 0 <= k < |ps| ==>
            r.value.images[k] == Image(NameGraph(k), ExtractText(markdown, ps[k])))
      && r.value.document == Rewrite(markdown, ps)
  {
    LocateFailsIff(markdown);
    var located := MdReader.ExtractGraphsLines(markdown);
    if located.Err? {
      return Err(located.error);
    }
    var positions := located.value;
    var descriptions := ExtractGraphs(markdown, positions);
    var images: seq<Image> := [];
    for index := 0 to |descriptions|
      invariant |images| == index
      invariant forall k :: 0 <= k < index ==> images[k] == Image(NameGraph(k), descriptions[k])
    {
      images := images + [Image(NameGraph(index), descriptions[index])];
    }
    var document := Replacer.Replace(inputName, markdown, positions);
    return Ok(Output(images, document));
  }

  /**
   * The document written for a well-formed input is the input with each
   * located block replaced by the link to its image, and nothing else changed.
   */
  lemma LocatedRewriteIsSplice(lines: seq<string>)
    requires Locate(lines).Ok?
    ensures NonNested(lines, Locate(lines).value)
    ensures Rewrite(lines, Locate(lines).value) == Splice(lines, Locate(lines).value, 0, 0)
  {
    LocateNonNested(lines);
    RewriteIsSplice(lines, Locate(lines).value);
  }

  /** Distinct blocks are rendered to distinct image files. */
  lemma ImageNamesDistinct(k: nat, l: nat)
    requires k != l
    ensures NameGraph(k) != NameGraph(l)
  {
    if NameGraph(k) == NameGraph(l) {
      NameGraphInjective(k, l);
    }
  }

  /** The link that replaces a block is indented as far as the block's opener. */
  lemma LinkKeepsOpenerIndentation(lines: seq<string>, k: nat)
    requires Locate(lines).Ok? && k < |Locate(lines).value|
    ensures var p := Locate(lines).value[k];
            p.start < |lines|
            && MeasureIndentation(CreateLink(k, p.indent)) == MeasureIndentation(lines[p.start])
  {
    LocatedBlock(lines, k);
    LinkIndentation(k, Locate(lines).value[k].indent);
  }

  /** The opening fence of the examples below: an opener, hence also a closer, with no indentation. */
  lemma OpenerLine(line: string)
    requires line == "```graph\n"
    ensures IsOpener(line) && IsCloser(line) && MeasureIndentation(line) == 0
  {
    FenceAtStart(line, GraphOpener);
    OpenerIsCloser(line);
    NoIndentation(line);
  }

  /** The closing fence of the examples below: a closer that is not an opener. */
  lemma CloserLine(line: string)
    requires line == "```\n"
    ensures IsCloser(line) && !IsOpener(line)
  {
    FenceAtStart(line, GraphCloser);
    assert Folded(line) == Lower(line);
  }

  /** The indented body line of the examples below. */
  lemma IndentedBody(line: string)
    requires line == "  A -> B;\n"
    ensures Plain(line)
  {
    NotAFence(line, 2);
  }

  /** A line that is neither an opener nor a closer. */
  predicate Plain(line: string)
  {
    !IsOpener(line) && !IsCloser(line)
  }

  /** An unindented opener. */
  predicate Fence(line: string)
  {
    IsOpener(line) && MeasureIndentation(line) == 0
  }

  /** Any document shaped as an ordinary line, an unindented block of one body line, and an ordinary line. */
  lemma OneBlockShape(lines: seq<string>)
    requires |lines| == 5 && Plain(lines[0]) && Fence(lines[1]) && Plain(lines[2])
    requires IsCloser(lines[3]) && !IsOpener(lines[3]) && Plain(lines[4])
    ensures Locate(lines) == Ok([Position(1, 2, 0)])
  {
    var p := Position(1, 2, 0);
    FirstCloserAt(lines, 2);
    FirstCloserAt(lines, 3);
    PrefixOverLine(lines, 0, []);
    PrefixOverOpener(lines, 1, [], 3);
    assert [] + [p] == [p];
    PrefixOverLine(lines, 2, [p]);
    PrefixOverLine(lines, 3, [p]);
    PrefixOverLine(lines, 4, [p]);
  }

  /**
   * A document with one graph block between two ordinary lines: the block is
   * found, with its closer two lines further and no indentation.
   */
  lemma OneBlockLocated(lines: seq<string>)
    requires lines == ["line0\n", "```graph\n", "  A -> B;\n", "```\n", "line3\n"]
    ensures Locate(lines) == Ok([Position(1, 2, 0)])
  {
    NotAFence(lines[0], 0);
    OpenerLine(lines[1]);
    IndentedBody(lines[2]);
    CloserLine(lines[3]);
    NotAFence(lines[4], 0);
    OneBlockShape(lines);
  }

  /** Its description is the body line without its indentation. */
  lemma OneBlockDescription(lines: seq<string>)
    requires lines == ["line0\n", "```graph\n", "  A -> B;\n", "```\n", "line3\n"]
    ensures ExtractText(lines, Position(1, 2, 0)) == "A -> B;\n"
  {
    ExtractTextBody(lines, Position(1, 2, 0));
    assert LStrip("  A -> B;\n") == "A -> B;\n";
  }

  /**
   * For any document of five lines with one block at line 1 closed at line 3,
   * the rewritten document is line 0, the link to the first image, and line 4.
   */
  lemma OneBlockRewriteShape(lines: seq<string>)
    requires |lines| == 5
    ensures Rewrite(lines, [Position(1, 2, 0)]) == [lines[0], CreateLink(0, 0), lines[4]]
  {
    var ps := [Position(1, 2, 0)];
    assert NonNested(lines, ps);
    RewriteIsSplice(lines, ps);
    SpliceStep(lines, ps, 0, 0);
    assert Gap(lines, 0, 1) == [lines[0]];
    assert Splice(lines, ps, 1, 4) == [lines[4]];
  }

  /** The link written for the first image, at no indentation. */
  lemma FirstLink()
    ensures CreateLink(0, 0) == "![graph_000.svg](graph_000.svg)\n\n"
  {
    NameGraphExamples();
    assert Repeat(' ', 0) == [];
  }

  /** The rewritten document keeps the two ordinary lines and links the first image in between. */
  lemma OneBlockRewritten(lines: seq<string>)
    requires lines == ["line0\n", "```graph\n", "  A -> B;\n", "```\n", "line3\n"]
    ensures Rewrite(lines, [Position(1, 2, 0)])
         == ["line0\n", "![graph_000.svg](graph_000.svg)\n\n", "line3\n"]
  {
    OneBlockRewriteShape(lines);
    FirstLink();
  }

  /** An opener with no closer after it makes the whole conversion fail. */
  lemma MissingCloserExample(lines: seq<string>)
    requires lines == ["text\n", "```graph\n", "A -> B;\n"]
    ensures Locate(lines).Err?
  {
    NotAFence(lines[0], 0);
    OpenerLine(lines[1]);
    NotAFence(lines[2], 0);
    FirstCloserAt(lines, 2);
    PrefixOverLine(lines, 0, []);
    assert LocatePrefix(lines, 2).Err?;
    LocatePrefixErrPersists(lines, 2, 3);
  }

  /**
   * Any document shaped as two unindented blocks of one body line each, where
   * the second opener closes the first block: the two blocks share that line.
   */
  lemma TouchingBlocksShape(lines: seq<string>)
    requires |lines| == 5 && Fence(lines[0]) && Plain(lines[1]) && Fence(lines[2]) && Plain(lines[3])
    requires IsCloser(lines[4]) && !IsOpener(lines[4])
    ensures Locate(lines) == Ok([Position(0, 2, 0), Position(2, 2, 0)])
  {
    var p, q := Position(0, 2, 0), Position(2, 2, 0);
    OpenerIsCloser(lines[2]);
    FirstCloserAt(lines, 1);
    FirstCloserAt(lines, 2);
    FirstCloserAt(lines, 3);
    FirstCloserAt(lines, 4);
    PrefixOverOpener(lines, 0, [], 2);
    assert [] + [p] == [p];
    PrefixOverLine(lines, 1, [p]);
    PrefixOverOpener(lines, 2, [p], 4);
    assert [p] + [q] == [p, q];
    PrefixOverLine(lines, 3, [p, q]);
    PrefixOverLine(lines, 4, [p, q]);
  }

  /** A `graph` fence right after a block's body both closes that block and opens the next one. */
  lemma TouchingBlocksExample(lines: seq<string>)
    requires lines == ["```graph\n", "a\n", "```graph\n", "b\n", "```\n"]
    ensures Locate(lines) == Ok([Position(0, 2, 0), Position(2, 2, 0)])
  {
    OpenerLine(lines[0]);
    NotAFence(lines[1], 0);
    OpenerLine(lines[2]);
    NotAFence(lines[3], 0);
    CloserLine(lines[4]);
    TouchingBlocksShape(lines);
  }
}
