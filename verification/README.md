# md_graphs: a verified model of the graph-block preprocessor

`md_graphs.py` copies a Markdown document. Each fenced block whose opening
line starts with "```graph" is rendered to an SVG image. In the copy, the
block is replaced by a link to that image. This project models the
line-accounting core of that tool and proves its properties in Dafny:

- **Naming** (`Naming.dfy`): the image file name `graph_{index:0>3}.svg`.
- **Locator** (`Locator.dfy`, class `MdReader`) finds each block as
  (start, size, indent):
  - an opener is a line whose left-stripped, lower-cased text starts with
    "```graph";
  - its closer is the first later line whose folded text starts with "```";
  - its indentation is the number of leading spaces.
- **Parser** (`Parser.dfy`): the description of a block. It is the lines
  strictly between opener and closer, each left-stripped and then
  concatenated.
- **Rewriter** (`Rewriter.dfy`, class `Replacer`) goes through the document
  line by line:
  - a line outside every block is copied;
  - a line where a block opens becomes the link to that block's image;
  - every other line of a block is dropped.
- **Pipeline** (`Pipeline.dfy`, module `MdGraphs`): `main` without its I/O.
  It returns the images to render and the rewritten document, or the error.

The document is a sequence of lines, as Python's `readlines()` returns
them: each line keeps its line end. `Text.dfy` models the few `str`
operations the tool relies on:

- `lstrip()` with Python's whitespace set;
- `lstrip(" ")`;
- `lower()`;
- `startswith`;
- `"".join`;
- clamped slicing;
- `" " * n`.

`Wrappers.dfy` holds `Option` and `Result`.

Where a method changes state or loops, it is imperative Dafny, proved
against a functional specification:

| method | specification function |
|---|---|
| `MdReader.SearchGraphs` | `Locate` |
| `MdReader.SearchGraphCloser` | `IsBlockAt` |
| `Replacer.IsAGraphLine` | `Covered` |
| `Replacer.WriteLines` | `Rewrite` |

The specification functions are then related to independent reference
definitions:

- `LocatedUpTo` is the declarative meaning of the locator.
- `StrippedText` is the text of a block.
- `Splice` is the document rebuilt block by block: the lines before each
  block, its link, then the lines after the last block.

### Touching blocks

The scan does not skip past a found closer: every line, including a
closer, is tested as an opener (`md_graphs.py:72-77`). Also, "```" is a
prefix of "```graph", so every opener line is also a closer. As a result,
a "```graph" line directly after a block's body both closes that block and
opens the next one. The two blocks share that line.

The model follows this behaviour:

- `Locator.NonNested` allows `End(k) <= start(k+1)`;
- `MdGraphs.TouchingBlocksExample` shows such a document;
- `Rewriter.RewriteIsSplice` covers that case too. The shared line becomes
  the later block's link, and the earlier block still gets its link at its
  own opener.

An opener inside another block's body can never be recorded as a nested
block. It always ends the outer block first.

## Model

| member | source | states |
|---|---|---|
| Naming.ZeroPad | md_graphs.py:51 | The `0>3` format fills with '0' on the left up to the width and never truncates: the result is max(width, len) long, ends with the digits and is '0' before them |
| Naming.DecimalDigitsValue | md_graphs.py:51 | The decimal digits of an index read back as that index |
| Naming.NameGraphShape | md_graphs.py:47-51 | An image name is "graph_", then at least three decimal digits (the zero-padded index), then ".svg" |
| Naming.NameGraphRoundTrip | md_graphs.py:47-51 | Reading the index back from the name of image `index` gives `index` |
| Naming.NameGraphInjective | md_graphs.py:47-51 | Two blocks with different indexes never get the same image file |
| Naming.NameGraphExamples | md_graphs.py:51 | Indexes 0, 10 and 1000 give graph_000.svg, graph_010.svg and graph_1000.svg |
| Text.LStripSpec | md_graphs.py:73 | `lstrip()` removes a run of whitespace from the front, all of it, and nothing else |
| Text.LStripCharsSpec | md_graphs.py:96 | `lstrip(" ")` removes all the leading spaces and nothing else |
| Text.PySliceClamped | md_graphs.py:122 | A slice whose bounds pass the end of the list is the slice between the bounds clamped to the length |
| Locator.FoldedIsLowerOfLStrip | md_graphs.py:73 | The text the markers are compared with is the lower-cased, left-stripped line |
| Locator.OpenerIsCloser | md_graphs.py:60-61 | Every line that passes the opener test also passes the closer test |
| Locator.NotAFence | md_graphs.py:73 | A line whose first non-whitespace character is not a backquote is neither an opener nor a closer |
| Locator.FenceAtStart | md_graphs.py:87 | An unindented line starting with a marker passes that marker's test |
| Locator.MeasureIndentation | md_graphs.py:91-96 | The indentation is the run of leading ' ' characters: all of them are spaces and the next character is not |
| Locator.FirstCloser | md_graphs.py:79-89 | The first closer at or after a line: it is a closer and no line before it is; None exactly when no later line is a closer |
| Locator.MdReader.constructor | md_graphs.py:63-65 | A new reader holds the document and no positions |
| Locator.MdReader.SearchGraphCloser | md_graphs.py:79-89 | Returns the distance to the first later closer, a block of size at least 1, or the error when no later line is a closer |
| Locator.MdReader.SearchGraphs | md_graphs.py:68-77 | Succeeds exactly when `Locate` does and appends its positions; on the error it keeps the positions appended before the failing opener |
| Locator.MdReader.ExtractGraphsLines | md_graphs.py:98-105 | Returns exactly `Locate` of the document: the positions, or the missing-closer error |
| Locator.LocateCorrect | md_graphs.py:68-89 | On success there is one position per opener line and none for any other line, in line order. Each closes at the first closer after its opener and has the opener's indentation |
| Locator.LocatedBlock | md_graphs.py:72-77 | Each located position is an opener whose closer is inside the document, with no closer in its body |
| Locator.LocateFailsIff | md_graphs.py:89 | The locator fails exactly when some opener has no closer anywhere after it |
| Locator.LocatePrefixErrPersists | md_graphs.py:89 | Once the error is raised, the scan never recovers |
| Locator.LocateNonNested | md_graphs.py:68-89 | Located blocks have size at least 1, end inside the document and never nest: each ends at or before the next one's opener |
| Parser.JoinStripped | md_graphs.py:121-122 | Joining the left-stripped lines of a slice gives the lines of that slice, each without its leading whitespace, one after the other with no separator |
| Parser.ExtractTextBody | md_graphs.py:117-122 | A block's description is the stripped text of the lines strictly between its opener and its closer, with bounds clamped to the document |
| Parser.BlankLineStripsToEmpty | md_graphs.py:121 | A whitespace-only body line contributes nothing to the description |
| Parser.ExtractGraphsOfLocated | md_graphs.py:124-135 | For located blocks there is one description per block, in block order. Description k is the stripped text of the lines strictly between block k's opener and its closer |
| Parser.ExtractTextExample | md_graphs.py:117-122 | Two indented body lines lose their indentation and keep their line ends |
| Rewriter.LinkIndentation | md_graphs.py:188-191 | The link line is indented by exactly the given number of spaces |
| Rewriter.LinkRoundTrip | md_graphs.py:188-191 | The image index and the indentation can be read back from every link line |
| Rewriter.LastOpenerAt | md_graphs.py:185-186 | A block found for a line is a real block opening at that line |
| Rewriter.LastOpenerAtSpec | md_graphs.py:185-186 | A line maps to a block exactly when some block opens there, and then to the last such block |
| Rewriter.IndexMapIsLastOpener | md_graphs.py:185-186 | The start-to-index dictionary holds a line exactly when a block opens there, and holds the last such block's index |
| Rewriter.LineAction | md_graphs.py:196-200 | A line is only replaced by the link of a block that opens at that line |
| Rewriter.ReplacedLine | md_graphs.py:195-200 | Line n writes itself when outside every block, the link of the dictionary's block when one opens there, and nothing otherwise |
| Rewriter.Replacer.constructor | md_graphs.py:181-186 | A new replacer holds the document, the positions and the start-to-index dictionary |
| Rewriter.Replacer.LineIsAStartGraph | md_graphs.py:217-221 | True exactly when some block opens at the line |
| Rewriter.Replacer.GetGraphIndexFromLineNr | md_graphs.py:211-215 | Returns a block that opens at the line, and no later block opens there |
| Rewriter.Replacer.WriteGraphLink | md_graphs.py:202-209 | The written line is the link of the last block opening at the line, with that block's indentation |
| Rewriter.Replacer.IsAGraphLine | md_graphs.py:223-231 | True exactly when some block's closed range [start, start + size] holds the line |
| Rewriter.Replacer.WriteLines | md_graphs.py:193-200 | The written lines are the rewritten document |
| Rewriter.Replacer.Replace | md_graphs.py:233-247 | The new file's lines are the rewritten document |
| Rewriter.StartLineLinks | md_graphs.py:199-200 | With non-nested blocks, block k's opener line is replaced by the link to image k |
| Rewriter.RewriteIsSplice | md_graphs.py:193-200 | With non-nested blocks, the rewritten document is: the lines before each block, then that block's link, for every block in order, then the lines after the last block |
| MdGraphs.Run | md_graphs.py:250-263 | Fails exactly when an opener has no closer after it. Otherwise gives one image per located block, named after its index and drawn from that block's description, and the rewritten document |
| MdGraphs.LocatedRewriteIsSplice | md_graphs.py:256-263 | For a well-formed input, the document written is the input with each block replaced by its link and nothing else changed |
| MdGraphs.ImageNamesDistinct | md_graphs.py:258-262 | No two blocks are rendered to the same file |
| MdGraphs.LinkKeepsOpenerIndentation | md_graphs.py:202-209 | The link that replaces a block is indented as far as the block's opener |
| MdGraphs.OneBlockShape | md_graphs.py:68-89 | Any document shaped as a line, a one-line block and a line has its block at line 1, of size 2, unindented |
| MdGraphs.OneBlockLocated | md_graphs.py:68-105 | A concrete document with one block between two ordinary lines is located as that block |
| MdGraphs.OneBlockDescription | md_graphs.py:117-122 | That block's description is its body line without the indentation |
| MdGraphs.OneBlockRewriteShape | md_graphs.py:193-200 | With that one block, the rewrite keeps line 0, writes the first image's link, and keeps line 4 |
| MdGraphs.FirstLink | md_graphs.py:188-191 | The unindented link to the first image is "![graph_000.svg](graph_000.svg)" followed by two line ends |
| MdGraphs.OneBlockRewritten | md_graphs.py:193-200 | The concrete document is rewritten to its two ordinary lines around that link |
| MdGraphs.MissingCloserExample | md_graphs.py:79-89 | An opener with no closer after it makes the locator fail |
| MdGraphs.TouchingBlocksShape | md_graphs.py:68-89 | A "```graph" line after a block's body closes that block and opens the next one |
| MdGraphs.TouchingBlocksExample | md_graphs.py:68-89 | A concrete document with two touching blocks is located as two blocks sharing a line |

## Left out

- Command-line parsing, the default output name and reading the input file
  (`_argument_reader`, `_parse_args`, `DEFAULT_FILE_NAME`, `_read_text`) are
  I/O. The model takes the document's lines, each with its line end, as
  `readlines()` returns them.
- Rendering (`DotObject`, its temporary file and the `dot`/`rm`
  subprocesses) calls out to external programs. `MdGraphs.Run` returns
  the list of images to render, each as its file name and description, in
  block order. The model does not carry rendering's abort: `call` raises
  `FileNotFoundError` when `dot` is missing (`md_graphs.py:159`, called at
  `md_graphs.py:262`), which stops `main` before the document is written
  (`md_graphs.py:263`). Once the blocks are located, `MdGraphs.Run` always
  returns a document.
- Writing the output file is I/O. `Replacer.WriteLines` and
  `Replacer.Replace` return the lines the file receives, and the
  `new_file` argument is left out. `Replacer.filename` is kept, but the
  source never reads it either.
- Python's `lower()` folds every cased Unicode character, but only ASCII
  case folding is modelled. No non-ASCII character lowers to a backquote,
  'g', 'r', 'a', 'p' or 'h', so the marker tests are unaffected.
- Python raises `ValueError` for a missing closer. Here it is the error
  value of a `Result`, and `main` stops on it before rendering or writing
  anything, as the exception does.
- Rewriter.Replacer.GetGraphIndexFromLineNr: does not model the `KeyError`
  on a line where no block opens. The precondition excludes that line,
  because the only caller checks `_line_is_a_start_graph` first.
- Rewriter.Replacer.WriteGraphLink: has the same precondition as
  `GetGraphIndexFromLineNr`, for the same reason.
- Rewriter.RewriteIsSplice: is stated for non-nested positions only, that
  is, the ones the locator produces (`Locator.LocateNonNested`). For
  arbitrary positions, `Rewriter.ReplacedLine` still gives every line's
  output.
