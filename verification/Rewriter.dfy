/**
 * The document rewriter (`Replacer`): copies the lines outside every block,
 * replaces each block's opener by a link to the block's image and drops the
 * rest of the block.
 */
module Rewriter {
  import opened Wrappers
  import opened Text
  import opened Naming
  import opened Locator

  /** `_create_link(index, indent)`: `indent` spaces, then `![name](name)` and two line ends. */
  function CreateLink(index: nat, indent: nat): (link: string)
  {
    var name := NameGraph(index);
    Repeat(' ', indent) + "![" + name + "](" + name + ")\n\n"
  }

  /** The link line is indented by exactly `indent` spaces. */
  lemma LinkIndentation(index: nat, indent: nat)
    ensures MeasureIndentation(CreateLink(index, indent)) == indent
  {
    RepeatSpec(' ', indent);
    assert CreateLink(index, indent)[indent] == '!';
  }

  /** Reads the image index and the indentation back from a link line; the inverse of `CreateLink`. */
  function ParseLink(line: string): Option<(nat, nat)>
  {
    var indent := MeasureIndentation(line);
    var rest := line[indent..];
    if |rest| < 7 || (|rest| - 7) % 2 != 0 then None
    else
      var name := rest[2..2 + (|rest| - 7) / 2];
      if rest != "![" + name + "](" + name + ")\n\n" then None
      else
        match ParseGraphName(name)
        case None => None
        case Some(index) => Some((index, indent))
  }

  /** After its indentation, a link line is `![name](name)` and two line ends. */
  lemma LinkBody(index: nat, indent: nat)
    ensures indent <= |CreateLink(index, indent)|
    ensures CreateLink(index, indent)[indent..] == "![" + NameGraph(index) + "](" + NameGraph(index) + ")\n\n"
  {
    var body := "![" + NameGraph(index) + "](" + NameGraph(index) + ")\n\n";
    assert CreateLink(index, indent) == Repeat(' ', indent) + body;
  }

  /** A line made of `indent` spaces, then `![name](name)` and two line ends, parses as `name` read back. */
  lemma ParseLinkOf(line: string, indent: nat, name: string, index: nat)
    requires MeasureIndentation(line) == indent
    requires line[indent..] == "![" + name + "](" + name + ")\n\n"
    requires ParseGraphName(name) == Some(index)
    ensures ParseLink(line) == Some((index, indent))
  {
    var rest := line[indent..];
    assert |rest| == 2 * |name| + 7;
    assert rest[2..2 + (|rest| - 7) / 2] == name;
  }

  /** `ParseLink` reads back the index and the indentation of every link line. */
  lemma LinkRoundTrip(index: nat, indent: nat)
    ensures ParseLink(CreateLink(index, indent)) == Some((index, indent))
  {
    LinkIndentation(index, indent);
    LinkBody(index, indent);
    NameGraphRoundTrip(index);
    ParseLinkOf(CreateLink(index, indent), indent, NameGraph(index), index);
  }

  /**
   * The replacer's start-to-index map: the start line of block k maps to k,
   * entries added in block order, so a start shared by several blocks keeps
   * the index of the last of them.
   */
  function IndexMap(positions: seq<Position>): (m: map<nat, nat>)
  {
    if positions == [] then map[]
    else IndexMap(positions[..|positions| - 1])[positions[|positions| - 1].start := |positions| - 1]
  }

  /** `_is_a_graph_line` as a value: some block's closed range `[start, start + size]` holds `n`. */
  predicate Covered(positions: seq<Position>, n: nat)
  {
    exists k :: 0 <= k < |positions| && positions[k].start <= n <= positions[k].End()
  }

  /** What the rewriter does with one line. */
  datatype Action = Copy | Link(index: nat) | Drop

  /** The last block that opens at line `n`, if any. */
  function LastOpenerAt(positions: seq<Position>, n: nat): (r: Option<nat>)
    ensures r.Some? ==> r.value < |positions| && positions[r.value].start == n
  {
    if positions == [] then None
    else if positions[|positions| - 1].start == n then Some(|positions| - 1)
    else LastOpenerAt(positions[..|positions| - 1], n)
  }

  /** `LastOpenerAt` finds an opener exactly when there is one, and no later block opens there. */
  lemma {:induction false} LastOpenerAtSpec(positions: seq<Position>, n: nat)
    ensures LastOpenerAt(positions, n).Some? <==> exists k :: 0 <= k < |positions| && positions[k].start == n
    ensures LastOpenerAt(positions, n).Some? ==>
      forall l :: LastOpenerAt(positions, n).value < l < |positions| ==> positions[l].start != n
  {
    if positions != [] {
      var init := positions[..|positions| - 1];
      LastOpenerAtSpec(init, n);
      assert forall k :: 0 <= k < |init| ==> init[k] == positions[k];
      if positions[|positions| - 1].start != n && LastOpenerAt(init, n).None? {
        assert forall k :: 0 <= k < |positions| ==> positions[k].start != n by {
          forall k | 0 <= k < |positions| ensures positions[k].start != n {
            if k < |init| {
              assert init[k] == positions[k];
            }
          }
        }
      }
    }
  }

  /** The start-to-index map and the last opener agree. */
  lemma {:induction false} IndexMapIsLastOpener(positions: seq<Position>, n: nat)
    ensures n in IndexMap(positions) <==> LastOpenerAt(positions, n).Some?
    ensures n in IndexMap(positions) ==> IndexMap(positions)[n] == LastOpenerAt(positions, n).value
  {
    if positions != [] {
      IndexMapIsLastOpener(positions[..|positions| - 1], n);
    }
  }

  function LineAction(positions: seq<Position>, n: nat): (a: Action)
    ensures a.Link? ==> a.index < |positions| && positions[a.index].start == n
  {
    if !Covered(positions, n) then Copy
    else
      match LastOpenerAt(positions, n)
      case Some(k) => Link(k)
      case None => Drop
  }

  /** The lines written for line `n`: the line itself, the link of the block opening there, or nothing. */
  function Emitted(lines: seq<string>, positions: seq<Position>, n: nat): seq<string>
    requires n < |lines|
  {
    match LineAction(positions, n)
    case Copy => [lines[n]]
    case Link(k) => [CreateLink(k, positions[k].indent)]
    case Drop => []
  }

  /** What each line of the document writes, line by line. */
  function Outputs(lines: seq<string>, positions: seq<Position>): (r: seq<seq<string>>)
    ensures |r| == |lines|
  {
    seq(|lines|, n requires 0 <= n < |lines| => Emitted(lines, positions, n))
  }

  /** Entry `n` of `Outputs` is what line `n` writes. */
  lemma OutputsAt(lines: seq<string>, positions: seq<Position>, n: nat)
    requires n < |lines|
    ensures Outputs(lines, positions)[n] == Emitted(lines, positions, n)
  {
  }

  /**
   * What line `n` writes, decided as the replacer decides it: a line outside
   * every block is copied, a line where a block opens becomes the link of
   * the last block opening there, any other line is dropped.
   */
  lemma ReplacedLine(lines: seq<string>, positions: seq<Position>, n: nat)
    requires n < |lines|
    ensures n in IndexMap(positions) ==> IndexMap(positions)[n] < |positions|
    ensures Outputs(lines, positions)[n]
         == if !Covered(positions, n) then [lines[n]]
            else if n in IndexMap(positions) then [CreateLink(IndexMap(positions)[n], positions[IndexMap(positions)[n]].indent)]
            else []
  {
    IndexMapIsLastOpener(positions, n);
    OutputsAt(lines, positions, n);
  }

  /** The rewritten document: what each line writes, in line order. */
  function Rewrite(lines: seq<string>, positions: seq<Position>): (r: seq<string>)
  {
    Join(Outputs(lines, positions))
  }

  /** `Replacer`: the document, its positions and the start-to-index map. */
  class Replacer {
    const filename: string
    const fileContent: seq<string>
    const positions: seq<Position>
    const graphsIndexes: map<nat, nat>

    ghost predicate Valid()
    {
      graphsIndexes == IndexMap(positions)
    }

    constructor (filename: string, fileContent: seq<string>, positions: seq<Position>)
      ensures this.filename == filename && this.fileContent == fileContent && this.positions == positions
      ensures Valid()
    {
      this.filename := filename;
      this.fileContent := fileContent;
      this.positions := positions;
      graphsIndexes := IndexMap(positions);
    }

    /** `_line_is_a_start_graph(line_number)`: some block opens at this line. */
    function LineIsAStartGraph(lineNumber: nat): (b: bool)
      requires Valid()
      ensures b <==> exists k :: 0 <= k < |positions| && positions[k].start == lineNumber
    {
      IndexMapIsLastOpener(positions, lineNumber);
      LastOpenerAtSpec(positions, lineNumber);
      lineNumber in graphsIndexes
    }

    /** `_get_graph_index_from_line_nr(line_number)`: the last block that opens at this line. */
    function GetGraphIndexFromLineNr(lineNumber: nat): (index: nat)
      requires Valid() && lineNumber in graphsIndexes
      ensures index < |positions| && positions[index].start == lineNumber
      ensures forall k :: index < k < |positions| ==> positions[k].start != lineNumber
    {
      IndexMapIsLastOpener(positions, lineNumber);
      LastOpenerAtSpec(positions, lineNumber);
      graphsIndexes[lineNumber]
    }

    /** `_write_graph_link(line_nr, dest_file)`: the link line written for a block's opener. */
    function WriteGraphLink(lineNumber: nat): (link: string)
      requires Valid() && lineNumber in graphsIndexes
      ensures exists k :: 0 <= k < |positions| && positions[k].start == lineNumber
                && (forall l :: k < l < |positions| ==> positions[l].start != lineNumber)
                && link == CreateLink(k, positions[k].indent)
    {
      var index := GetGraphIndexFromLineNr(lineNumber);
      CreateLink(index, positions[index].indent)
    }

    /** `_is_a_graph_line(line_number)`: some block's closed range holds the line. */
    method IsAGraphLine(lineNumber: nat) returns (b: bool)
      ensures b == Covered(positions, lineNumber)
    {
      for k := 0 to |positions|
        invariant forall l :: 0 <= l < k ==> !(positions[l].start <= lineNumber <= positions[l].End())
      {
        if positions[k].start <= lineNumber <= positions[k].start + positions[k].size {
          return true;
        }
      }
      return false;
    }

    /** `_write_lines(new_file)`: the lines written to the new file, in order. */
    method WriteLines() returns (out: seq<string>)
      requires Valid()
      ensures out == Rewrite(fileContent, positions)
    {
      out := [];
      var n := 0;
      ghost var outs := Outputs(fileContent, positions);
      while n < |fileContent|
        invariant n <= |fileContent|
        invariant out == Join(outs[..n])
      {
        var inGraph := IsAGraphLine(n);
        ReplacedLine(fileContent, positions, n);
        if !inGraph {
          out := out + [fileContent[n]];
        } else if LineIsAStartGraph(n) {
          out := out + [WriteGraphLink(n)];
        }
        JoinStep(outs, n);
        n := n + 1;
      }
      assert outs[..n] == outs;
    }

    /** `Replacer.replace(filename, file_content, positions, new_file)`. */
    static method Replace(filename: string, fileContent: seq<string>, positions: seq<Position>)
      returns (out: seq<string>)
      ensures out == Rewrite(fileContent, positions)
    {
      var replacer := new Replacer(filename, fileContent, positions);
      out := replacer.WriteLines();
    }
  }

  /** With non-nested blocks, the k-th block's opener is replaced by the link to image k. */
  lemma StartLineLinks(lines: seq<string>, positions: seq<Position>, k: nat)
    requires NonNested(lines, positions) && k < |positions|
    ensures LineAction(positions, positions[k].start) == Link(k)
  {
    var s := positions[k].start;
    assert Covered(positions, s);
    LastOpenerAtSpec(positions, s);
    var v := LastOpenerAt(positions, s).value;
    assert k <= v;
  }

  /** A run of lines that each write themselves writes exactly that run. */
  lemma {:induction false} CopyRun(lines: seq<string>, outs: seq<seq<string>>, a: nat, b: nat)
    requires a <= b <= |outs| && b <= |lines|
    requires forall n :: a <= n < b ==> outs[n] == [lines[n]]
    ensures Join(outs[a..b]) == lines[a..b]
    decreases b - a
  {
    if a < b {
      CopyRun(lines, outs, a + 1, b);
      assert outs[a..b][1..] == outs[a + 1..b];
      assert lines[a..b] == [lines[a]] + lines[a + 1..b];
    }
  }

  /** A run of lines that each write nothing writes nothing. */
  lemma {:induction false} DropRun(outs: seq<seq<string>>, a: nat, b: nat)
    requires a <= b <= |outs|
    requires forall n :: a <= n < b ==> outs[n] == []
    ensures Join(outs[a..b]) == []
    decreases b - a
  {
    if a < b {
      DropRun(outs, a + 1, b);
      assert outs[a..b][1..] == outs[a + 1..b];
    }
  }

  /** The lines `i ..` up to `j`, or none when `j` is not after `i`. */
  function Gap(lines: seq<string>, i: nat, j: nat): seq<string>
    requires i <= |lines| && j <= |lines|
  {
    if i < j then lines[i..j] else []
  }

  /**
   * Reference definition of the rewritten document, block by block, from
   * block `k` and line `i` on: the lines before block k, the link to image
   * k, then the same for the blocks after it, then the lines after the last
   * block.
   */
  function Splice(lines: seq<string>, positions: seq<Position>, k: nat, i: nat): (r: seq<string>)
    requires NonNested(lines, positions) && k <= |positions| && i <= |lines|
    decreases |positions| - k
  {
    if k == |positions| then lines[i..]
    else
      Gap(lines, i, positions[k].start) + [CreateLink(k, positions[k].indent)]
      + Splice(lines, positions, k + 1, positions[k].End() + 1)
  }

  lemma SpliceStep(lines: seq<string>, positions: seq<Position>, k: nat, i: nat)
    requires NonNested(lines, positions) && k < |positions| && i <= |lines|
    ensures Splice(lines, positions, k, i)
         == Gap(lines, i, positions[k].start) + ([CreateLink(k, positions[k].indent)]
            + Splice(lines, positions, k + 1, positions[k].End() + 1))
  {
  }

  /** The first line written for blocks `k ..` when the blocks before `k` end before line `i`. */
  function Resume(positions: seq<Position>, k: nat, i: nat): nat
  {
    if k < |positions| && positions[k].start < i then positions[k].start else i
  }

  /** The lines from `i` up to the opener of block `k` are copied as they are. */
  lemma BeforeBlock(lines: seq<string>, positions: seq<Position>, k: nat, i: nat)
    requires NonNested(lines, positions) && k < |positions| && i <= positions[k].start
    requires forall l :: 0 <= l < k ==> positions[l].End() < i
    ensures Join(Outputs(lines, positions)[i..positions[k].start]) == lines[i..positions[k].start]
  {
    var s := positions[k].start;
    var outs := Outputs(lines, positions);
    forall n | i <= n < s ensures outs[n] == [lines[n]] {
      OutputsAt(lines, positions, n);
      forall l | 0 <= l < |positions| ensures !(positions[l].start <= n <= positions[l].End()) {
        if l > k {
          assert positions[k].End() <= positions[l].start;
        }
      }
      assert !Covered(positions, n);
    }
    CopyRun(lines, outs, i, s);
  }

  /** Block `k` writes its link and nothing else up to where block `k + 1` is rewritten. */
  lemma ThroughBlock(lines: seq<string>, positions: seq<Position>, k: nat)
    requires NonNested(lines, positions) && k < |positions|
    ensures positions[k].start < Resume(positions, k + 1, positions[k].End() + 1) <= |lines|
    ensures Join(Outputs(lines, positions)[positions[k].start..Resume(positions, k + 1, positions[k].End() + 1)])
         == [CreateLink(k, positions[k].indent)]
  {
    var s := positions[k].start;
    var next := Resume(positions, k + 1, positions[k].End() + 1);
    var outs := Outputs(lines, positions);
    StartLineLinks(lines, positions, k);
    OutputsAt(lines, positions, s);
    assert outs[s] == [CreateLink(k, positions[k].indent)];
    forall n | s + 1 <= n < next ensures outs[n] == [] {
      OutputsAt(lines, positions, n);
      assert positions[k].start <= n <= positions[k].End();
      forall l | 0 <= l < |positions| ensures positions[l].start != n {
        if l < k {
          assert positions[l].End() <= s;
        } else if l > k + 1 {
          assert positions[k + 1].End() <= positions[l].start;
        }
      }
      LastOpenerAtSpec(positions, n);
      assert LineAction(positions, n) == Drop;
    }
    DropRun(outs, s + 1, next);
    assert outs[s..next][1..] == outs[s + 1..next];
  }

  /** The lines after the last block are copied as they are. */
  lemma AfterBlocks(lines: seq<string>, positions: seq<Position>, i: nat)
    requires i <= |lines|
    requires forall l :: 0 <= l < |positions| ==> positions[l].End() < i
    ensures Join(Outputs(lines, positions)[i..]) == lines[i..]
  {
    var outs := Outputs(lines, positions);
    forall n | i <= n < |lines| ensures outs[n] == [lines[n]] {
      OutputsAt(lines, positions, n);
      assert !Covered(positions, n);
    }
    CopyRun(lines, outs, i, |lines|);
    assert outs[i..] == outs[i..|lines|];
  }

  /** Joining from `r` on is joining up to `s`, up to `next`, and the rest. */
  lemma JoinThree(parts: seq<seq<string>>, r: nat, s: nat, next: nat)
    requires r <= s <= next <= |parts|
    ensures Join(parts[r..]) == Join(parts[r..s]) + (Join(parts[s..next]) + Join(parts[next..]))
  {
    JoinSlices(parts, r, s, |parts|);
    JoinSlices(parts, s, next, |parts|);
    assert parts[r..] == parts[r..|parts|];
    assert parts[s..] == parts[s..|parts|];
    assert parts[next..] == parts[next..|parts|];
  }

  /** Block `k` writes the lines before its opener, then its link, then what follows it writes. */
  lemma SpliceBlock(lines: seq<string>, positions: seq<Position>, k: nat, i: nat)
    requires NonNested(lines, positions) && k < |positions| && i <= positions[k].start + 1
    requires forall l :: 0 <= l < k ==> positions[l].End() < i
    ensures Resume(positions, k, i) <= positions[k].start < Resume(positions, k + 1, positions[k].End() + 1) <= |lines|
    ensures Join(Outputs(lines, positions)[Resume(positions, k, i)..])
         == Gap(lines, i, positions[k].start) + ([CreateLink(k, positions[k].indent)]
            + Join(Outputs(lines, positions)[Resume(positions, k + 1, positions[k].End() + 1)..]))
  {
    var outs := Outputs(lines, positions);
    var s := positions[k].start;
    var r := Resume(positions, k, i);
    var next := Resume(positions, k + 1, positions[k].End() + 1);
    assert Join(outs[r..s]) == Gap(lines, i, s) by {
      if i <= s {
        BeforeBlock(lines, positions, k, i);
      }
    }
    assert s < next <= |outs| && Join(outs[s..next]) == [CreateLink(k, positions[k].indent)] by {
      ThroughBlock(lines, positions, k);
    }
    JoinThree(outs, r, s, next);
  }

  /** With non-nested blocks, every block before `k` ends before block `k - 1` ends. */
  lemma EarlierBlocksEnd(lines: seq<string>, positions: seq<Position>, k: nat)
    requires NonNested(lines, positions) && 0 < k <= |positions|
    ensures forall l :: 0 <= l < k ==> positions[l].End() <= positions[k - 1].End()
  {
    forall l | 0 <= l < k ensures positions[l].End() <= positions[k - 1].End() {
      if l < k - 1 {
        assert positions[l].End() <= positions[k - 1].start;
      }
    }
  }

  /** Block `k` and the splice of the blocks after it make the splice from block `k`. */
  lemma SpliceJoin(lines: seq<string>, positions: seq<Position>, k: nat, i: nat)
    requires NonNested(lines, positions) && k < |positions| && i <= |lines|
    requires k == 0 ==> i == 0
    requires k > 0 ==> i == positions[k - 1].End() + 1
    requires Resume(positions, k + 1, positions[k].End() + 1) <= |lines|
    requires Join(Outputs(lines, positions)[Resume(positions, k + 1, positions[k].End() + 1)..])
          == Splice(lines, positions, k + 1, positions[k].End() + 1)
    ensures Resume(positions, k, i) <= |lines|
    ensures Join(Outputs(lines, positions)[Resume(positions, k, i)..]) == Splice(lines, positions, k, i)
  {
    if k > 0 {
      EarlierBlocksEnd(lines, positions, k);
      assert positions[k - 1].End() <= positions[k].start;
    }
    SpliceBlock(lines, positions, k, i);
    SpliceStep(lines, positions, k, i);
  }

  /** From block `k` on, the line-by-line rewriting and the block-by-block splice agree. */
  lemma {:induction false} SpliceFrom(lines: seq<string>, positions: seq<Position>, k: nat, i: nat)
    requires NonNested(lines, positions) && k <= |positions| && i <= |lines|
    requires k == 0 ==> i == 0
    requires k > 0 ==> i == positions[k - 1].End() + 1
    ensures Resume(positions, k, i) <= |lines|
    ensures Join(Outputs(lines, positions)[Resume(positions, k, i)..]) == Splice(lines, positions, k, i)
    decreases |positions| - k
  {
    if k == |positions| {
      if k > 0 {
        EarlierBlocksEnd(lines, positions, k);
      }
      AfterBlocks(lines, positions, i);
    } else {
      SpliceFrom(lines, positions, k + 1, positions[k].End() + 1);
      SpliceJoin(lines, positions, k, i);
    }
  }

  /**
   * The rewritten document is the original with each block's lines replaced
   * by its link, the k-th block by the link to image k: nothing else is
   * dropped, duplicated or reordered.
   */
  lemma RewriteIsSplice(lines: seq<string>, positions: seq<Position>)
    requires NonNested(lines, positions)
    ensures Rewrite(lines, positions) == Splice(lines, positions, 0, 0)
  {
    SpliceFrom(lines, positions, 0, 0);
    assert Outputs(lines, positions)[0..] == Outputs(lines, positions);
  }
}
