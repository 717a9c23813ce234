/**
 * The block locator (`MdReader`): finds every "```graph" fence and the first
 * fence line after it, recording (start, size, indent) per block.
 */
module Locator {
  import opened Wrappers
  import opened Text

  const GraphOpener: string := "```graph"
  const GraphCloser: string := "```"

  /** One located block: the opener is at `start`, its closer at `start + size`. */
  datatype Position = Position(start: nat, size: nat, indent: nat)
  {
    function End(): nat { start + size }
  }

  /** The `ValueError` raised when an opener has no closer after it. */
  datatype Error = ClosingBlockNotFound

  /** The text the markers are compared with: `line.lstrip().lower()`. */
  function Folded(line: string): string
  {
    if line != [] && IsSpace(line[0]) then Folded(line[1..]) else Lower(line)
  }

  lemma {:induction false} FoldedIsLowerOfLStrip(line: string)
    ensures Folded(line) == Lower(LStrip(line))
  {
    if line != [] && IsSpace(line[0]) {
      FoldedIsLowerOfLStrip(line[1..]);
    }
  }

  /** `line.lstrip().lower().startswith(GRAPH_OPENER)`. */
  predicate IsOpener(line: string)
  {
    StartsWith(Folded(line), GraphOpener)
  }

  /** `line.lstrip().lower().startswith(GRAPH_CLOSER)`. */
  predicate IsCloser(line: string)
  {
    StartsWith(Folded(line), GraphCloser)
  }

  /** The closer marker is a prefix of the opener marker. */
  lemma OpenerIsCloser(line: string)
    requires IsOpener(line)
    ensures IsCloser(line)
  {
    var t := Folded(line);
    assert t[..3] == t[..8][..3];
    assert GraphOpener[..3] == GraphCloser;
  }

  /** Leading whitespace does not change the folded text. */
  lemma {:induction false} FoldedSkipsSpaces(line: string, k: nat)
    requires k <= |line| && forall j :: 0 <= j < k ==> IsSpace(line[j])
    ensures Folded(line) == Folded(line[k..])
  {
    if k > 0 {
      assert line[1..][k - 1..] == line[k..];
      FoldedSkipsSpaces(line[1..], k - 1);
    }
  }

  /**
   * A line whose first non-whitespace character is not a backquote is
   * neither an opener nor a closer.
   */
  lemma NotAFence(line: string, k: nat)
    requires k < |line| && forall j :: 0 <= j < k ==> IsSpace(line[j])
    requires !IsSpace(line[k]) && line[k] != '`'
    ensures !IsOpener(line) && !IsCloser(line)
  {
    FoldedSkipsSpaces(line, k);
    assert Folded(line[k..]) == Lower(line[k..]);
    assert Lower(line[k..])[0] == LowerChar(line[k]);
  }

  /** Lowering ASCII lower-case text and punctuation leaves it unchanged. */
  lemma {:induction false} LowerOfUnchanged(s: string)
    requires forall j :: 0 <= j < |s| ==> !('A' <= s[j] <= 'Z')
    ensures Lower(s) == s
  {
    if s != [] {
      LowerOfUnchanged(s[1..]);
    }
  }

  /** Lowering commutes with taking a prefix. */
  lemma {:induction false} LowerPrefix(s: string, n: nat)
    requires n <= |s|
    ensures Lower(s)[..n] == Lower(s[..n])
  {
    if n > 0 {
      LowerPrefix(s[1..], n - 1);
      assert s[..n][1..] == s[1..][..n - 1];
    }
  }

  /** A line that starts with a marker, with no indentation, passes that marker's test. */
  lemma FenceAtStart(line: string, marker: string)
    requires marker == GraphOpener || marker == GraphCloser
    requires StartsWith(line, marker)
    ensures StartsWith(Folded(line), marker)
  {
    assert Folded(line) == Lower(line);
    LowerPrefix(line, |marker|);
    LowerOfUnchanged(marker);
  }

  /**
   * `_mesure_line_indentation`: `len(line) - len(line.lstrip(" "))`, the
   * number of leading ' ' characters; a tab or any other character ends the run.
   */
  function MeasureIndentation(line: string): (r: nat)
    ensures r <= |line|
    ensures forall j :: 0 <= j < r ==> line[j] == ' '
    ensures r < |line| ==> line[r] != ' '
  {
    LStripCharsSpec(line, {' '});
    |line| - |LStripChars(line, {' '})|
  }

  /** A line that does not start with a space is not indented. */
  lemma NoIndentation(line: string)
    requires line != [] && line[0] != ' '
    ensures MeasureIndentation(line) == 0
  {
  }

  /** The first closer at or after line `from`, if any. */
  function FirstCloser(lines: seq<string>, from: nat): (r: Option<nat>)
    decreases |lines| - from
    ensures r.Some? ==> from <= r.value < |lines| && IsCloser(lines[r.value])
    ensures r.Some? ==> forall j :: from <= j < r.value ==> !IsCloser(lines[j])
    ensures r.None? ==> forall j :: from <= j < |lines| ==> !IsCloser(lines[j])
  {
    if from >= |lines| then None
    else if IsCloser(lines[from]) then Some(from)
    else FirstCloser(lines, from + 1)
  }

  /** `p` is the block opened at `p.start`: its closer is the first closer after it. */
  ghost predicate IsBlockAt(lines: seq<string>, p: Position)
  {
    && 1 <= p.size
    && p.End() < |lines|
    && IsCloser(lines[p.End()])
    && forall j :: p.start < j < p.End() ==> !IsCloser(lines[j])
  }

  /**
   * What `_search_graphs` has appended once it has looked at lines `0 .. n-1`,
   * or the error it has raised by then.
   */
  function LocatePrefix(lines: seq<string>, n: nat): (r: Result<seq<Position>, Error>)
    requires n <= |lines|
  {
    if n == 0 then Ok([])
    else
      match LocatePrefix(lines, n - 1)
      case Err(e) => Err(e)
      case Ok(ps) =>
        var i := n - 1;
        if !IsOpener(lines[i]) then Ok(ps)
        else
          match FirstCloser(lines, i + 1)
          case None => Err(ClosingBlockNotFound)
          case Some(c) => Ok(ps + [Position(i, c - i, MeasureIndentation(lines[i]))])
  }

  /** `extract_graphs_lines(file_content)` as a value. */
  function Locate(lines: seq<string>): (r: Result<seq<Position>, Error>)
  {
    LocatePrefix(lines, |lines|)
  }

  /**
   * `ps` records exactly the openers among lines `0 .. n-1`, once each and in
   * line order, each with its closer and the opener's indentation.
   */
  ghost predicate LocatedUpTo(lines: seq<string>, n: nat, ps: seq<Position>)
    requires n <= |lines|
  {
    && (forall k :: 0 <= k < |ps| ==>
          && ps[k].start < n
          && IsOpener(lines[ps[k].start])
          && IsBlockAt(lines, ps[k])
          && ps[k].indent == MeasureIndentation(lines[ps[k].start]))
    && (forall i :: 0 <= i < n && IsOpener(lines[i]) ==>
          exists k :: 0 <= k < |ps| && ps[k].start == i)
    && (forall k, l :: 0 <= k < l < |ps| ==> ps[k].start < ps[l].start)
  }

  /** Some opener among lines `0 .. n-1` has no closer after it. */
  ghost predicate HasUnclosedOpener(lines: seq<string>, n: nat)
    requires n <= |lines|
  {
    exists i :: 0 <= i < n && IsOpener(lines[i]) && forall j :: i < j < |lines| ==> !IsCloser(lines[j])
  }

  lemma {:induction false} LocatePrefixCorrect(lines: seq<string>, n: nat)
    requires n <= |lines|
    ensures LocatePrefix(lines, n).Ok? ==> LocatedUpTo(lines, n, LocatePrefix(lines, n).value)
    ensures LocatePrefix(lines, n).Err? <==> HasUnclosedOpener(lines, n)
  {
    if n > 0 {
      var i := n - 1;
      LocatePrefixCorrect(lines, i);
      if LocatePrefix(lines, i).Err? {
        StepAfterError(lines, i);
      } else if !IsOpener(lines[i]) {
        StepOverLine(lines, i);
      } else if FirstCloser(lines, i + 1).None? {
        StepUnclosed(lines, i);
      } else {
        StepOverBlock(lines, i);
      }
    }
  }

  /** Once an error is raised, it stays. */
  lemma StepAfterError(lines: seq<string>, i: nat)
    requires i < |lines| && LocatePrefix(lines, i).Err? && HasUnclosedOpener(lines, i)
    ensures LocatePrefix(lines, i + 1).Err? && HasUnclosedOpener(lines, i + 1)
  {
    assert LocatePrefix(lines, i + 1) == LocatePrefix(lines, i);
    UnclosedOpenerPersists(lines, i);
  }

  /** A line that opens no block adds nothing. */
  lemma StepOverLine(lines: seq<string>, i: nat)
    requires i < |lines| && !IsOpener(lines[i])
    requires LocatePrefix(lines, i).Ok? && LocatedUpTo(lines, i, LocatePrefix(lines, i).value)
    requires !HasUnclosedOpener(lines, i)
    ensures LocatePrefix(lines, i + 1) == LocatePrefix(lines, i)
    ensures LocatedUpTo(lines, i + 1, LocatePrefix(lines, i + 1).value)
    ensures !HasUnclosedOpener(lines, i + 1)
  {
    assert LocatePrefix(lines, i + 1) == LocatePrefix(lines, i);
    UnclosedOpenerStep(lines, i);
    LocatedOverLine(lines, i, LocatePrefix(lines, i).value);
  }

  lemma LocatedOverLine(lines: seq<string>, i: nat, ps: seq<Position>)
    requires i < |lines| && !IsOpener(lines[i]) && LocatedUpTo(lines, i, ps)
    ensures LocatedUpTo(lines, i + 1, ps)
  {
  }

  /** An opener with no closer after it raises the error. */
  lemma StepUnclosed(lines: seq<string>, i: nat)
    requires i < |lines| && IsOpener(lines[i]) && FirstCloser(lines, i + 1).None?
    requires LocatePrefix(lines, i).Ok?
    ensures LocatePrefix(lines, i + 1).Err? && HasUnclosedOpener(lines, i + 1)
  {
    assert LocatePrefix(lines, i + 1).Err?;
    UnclosedOpenerFound(lines, i);
  }

  /** An opener with a closer after it appends its block. */
  lemma StepOverBlock(lines: seq<string>, i: nat)
    requires i < |lines| && IsOpener(lines[i]) && FirstCloser(lines, i + 1).Some?
    requires LocatePrefix(lines, i).Ok? && LocatedUpTo(lines, i, LocatePrefix(lines, i).value)
    requires !HasUnclosedOpener(lines, i)
    ensures LocatePrefix(lines, i + 1).Ok?
    ensures LocatedUpTo(lines, i + 1, LocatePrefix(lines, i + 1).value)
    ensures !HasUnclosedOpener(lines, i + 1)
  {
    var ps := LocatePrefix(lines, i).value;
    var c := FirstCloser(lines, i + 1).value;
    assert LocatePrefix(lines, i + 1) == Ok(ps + [Position(i, c - i, MeasureIndentation(lines[i]))]);
    UnclosedOpenerStep(lines, i);
    LocatedStep(lines, i, ps, c);
  }

  lemma UnclosedOpenerPersists(lines: seq<string>, i: nat)
    requires i < |lines| && HasUnclosedOpener(lines, i)
    ensures HasUnclosedOpener(lines, i + 1)
  {
    var w :| 0 <= w < i && IsOpener(lines[w]) && forall j :: w < j < |lines| ==> !IsCloser(lines[j]);
    assert 0 <= w < i + 1;
  }

  lemma UnclosedOpenerFound(lines: seq<string>, i: nat)
    requires i < |lines| && IsOpener(lines[i]) && FirstCloser(lines, i + 1).None?
    ensures HasUnclosedOpener(lines, i + 1)
  {
    assert 0 <= i < i + 1;
  }

  /** Line `i` adds no unclosed opener when it is not an opener, or has a closer after it. */
  lemma UnclosedOpenerStep(lines: seq<string>, i: nat)
    requires i < |lines| && !HasUnclosedOpener(lines, i)
    requires IsOpener(lines[i]) ==> FirstCloser(lines, i + 1).Some?
    ensures !HasUnclosedOpener(lines, i + 1)
  {
    forall w | 0 <= w < i + 1 && IsOpener(lines[w])
      ensures exists j :: w < j < |lines| && IsCloser(lines[j])
    {
      if w == i {
        var c := FirstCloser(lines, i + 1).value;
        assert IsCloser(lines[c]);
      } else {
        assert !(forall j :: w < j < |lines| ==> !IsCloser(lines[j]));
      }
    }
  }

  /** Appending the block opened at line `i`, closed at line `c`, extends the invariant by one line. */
  lemma LocatedStep(lines: seq<string>, i: nat, ps: seq<Position>, c: nat)
    requires i < |lines| && IsOpener(lines[i]) && LocatedUpTo(lines, i, ps)
    requires FirstCloser(lines, i + 1) == Some(c)
    ensures LocatedUpTo(lines, i + 1, ps + [Position(i, c - i, MeasureIndentation(lines[i]))])
  {
    var p := Position(i, c - i, MeasureIndentation(lines[i]));
    assert IsBlockAt(lines, p);
    OpenersRecorded(lines, i, ps, p);
  }

  /** Every opener up to line `i` is recorded once the block at line `i` is appended. */
  lemma OpenersRecorded(lines: seq<string>, i: nat, ps: seq<Position>, p: Position)
    requires i < |lines| && p.start == i
    requires forall m :: 0 <= m < i && IsOpener(lines[m]) ==> exists k :: 0 <= k < |ps| && ps[k].start == m
    ensures forall m :: 0 <= m < i + 1 && IsOpener(lines[m]) ==>
              exists k :: 0 <= k < |ps + [p]| && (ps + [p])[k].start == m
  {
    var ps' := ps + [p];
    forall m | 0 <= m < i + 1 && IsOpener(lines[m])
      ensures exists k :: 0 <= k < |ps'| && ps'[k].start == m
    {
      if m == i {
        assert ps'[|ps|].start == m;
      } else {
        var k :| 0 <= k < |ps| && ps[k].start == m;
        assert ps'[k].start == m;
      }
    }
  }

  /**
   * The locator's result: one position per opener line and none for any other
   * line, in increasing line order, each closed by the first closer after it.
   */
  lemma LocateCorrect(lines: seq<string>)
    requires Locate(lines).Ok?
    ensures LocatedUpTo(lines, |lines|, Locate(lines).value)
  {
    LocatePrefixCorrect(lines, |lines|);
  }

  /** The k-th located block: an opener, closed by the first closer after it, with the opener's indentation. */
  lemma LocatedBlock(lines: seq<string>, k: nat)
    requires Locate(lines).Ok? && k < |Locate(lines).value|
    ensures var p := Locate(lines).value[k];
            && IsBlockAt(lines, p)
            && IsOpener(lines[p.start])
            && p.indent == MeasureIndentation(lines[p.start])
  {
    LocateCorrect(lines);
  }

  /** The locator fails exactly when some opener has no closer after it. */
  lemma LocateFailsIff(lines: seq<string>)
    ensures Locate(lines).Err? <==> HasUnclosedOpener(lines, |lines|)
  {
    LocatePrefixCorrect(lines, |lines|);
  }

  /**
   * Blocks never nest: each closer lies at or before the next opener. They may
   * touch, when a closer line is itself an opener.
   */
  ghost predicate NonNested(lines: seq<string>, ps: seq<Position>)
  {
    && (forall k :: 0 <= k < |ps| ==> 1 <= ps[k].size && ps[k].End() < |lines|)
    && (forall k, l :: 0 <= k < l < |ps| ==> ps[k].End() <= ps[l].start)
  }

  lemma LocateNonNested(lines: seq<string>)
    requires Locate(lines).Ok?
    ensures NonNested(lines, Locate(lines).value)
  {
    var ps := Locate(lines).value;
    LocateCorrect(lines);
    forall k, l | 0 <= k < l < |ps| ensures ps[k].End() <= ps[l].start {
      var s := ps[l].start;
      assert ps[k].start < s && IsOpener(lines[s]);
      OpenerIsCloser(lines[s]);
    }
  }

  lemma {:induction false} LocatePrefixErrPersists(lines: seq<string>, n: nat, m: nat)
    requires n <= m <= |lines|
    requires LocatePrefix(lines, n).Err?
    ensures LocatePrefix(lines, m).Err?
    decreases m - n
  {
    if n < m {
      LocatePrefixErrPersists(lines, n + 1, m);
    }
  }

  /** The block found at line `i` ends at the first closer after line `i`. */
  lemma CloserAfter(lines: seq<string>, i: nat, size: nat)
    requires IsBlockAt(lines, Position(i, size, 0))
    ensures FirstCloser(lines, i + 1) == Some(i + size)
  {
  }

  /** With no closer after line `i`, there is no first one. */
  lemma NoCloserAfter(lines: seq<string>, i: nat)
    requires forall j :: i < j < |lines| ==> !IsCloser(lines[j])
    ensures FirstCloser(lines, i + 1).None?
  {
  }

  /** A line that is not an opener leaves the positions found so far as they are. */
  lemma PrefixOverLine(lines: seq<string>, i: nat, ps: seq<Position>)
    requires i < |lines| && LocatePrefix(lines, i) == Ok(ps) && !IsOpener(lines[i])
    ensures LocatePrefix(lines, i + 1) == Ok(ps)
  {
  }

  /** An opener closed at line `c` appends its block to the positions found so far. */
  lemma PrefixOverOpener(lines: seq<string>, i: nat, ps: seq<Position>, c: nat)
    requires i < |lines| && LocatePrefix(lines, i) == Ok(ps) && IsOpener(lines[i])
    requires FirstCloser(lines, i + 1) == Some(c)
    ensures LocatePrefix(lines, i + 1) == Ok(ps + [Position(i, c - i, MeasureIndentation(lines[i]))])
  {
  }

  /** A closer at line `i` is the first one from line `i`, and one after a non-closer is the first from the line before. */
  lemma FirstCloserAt(lines: seq<string>, i: nat)
    requires i < |lines|
    ensures IsCloser(lines[i]) ==> FirstCloser(lines, i) == Some(i)
    ensures !IsCloser(lines[i]) ==> FirstCloser(lines, i) == FirstCloser(lines, i + 1)
  {
  }

  /** `MdReader`: the document and the positions found so far. */
  class MdReader {
    const fileContent: seq<string>
    var graphsLines: seq<Position>

    constructor (fileContent: seq<string>)
      ensures this.fileContent == fileContent && graphsLines == []
    {
      this.fileContent := fileContent;
      graphsLines := [];
    }

    /**
     * `_search_graph_closer(line_start)`: the distance from `lineStart` to the
     * first later line that passes the closer test, or the error.
     */
    method SearchGraphCloser(lineStart: nat) returns (r: Result<nat, Error>)
      ensures r.Ok? ==> IsBlockAt(fileContent, Position(lineStart, r.value, 0))
      ensures r.Err? ==> forall j :: lineStart < j < |fileContent| ==> !IsCloser(fileContent[j])
    {
      var size := 0;
      var j := lineStart + 1;
      while j < |fileContent|
        invariant size == j - lineStart - 1
        invariant forall m :: lineStart < m < j && m < |fileContent| ==> !IsCloser(fileContent[m])
      {
        size := size + 1;
        if IsCloser(fileContent[j]) {
          return Ok(size);
        }
        j := j + 1;
      }
      return Err(ClosingBlockNotFound);
    }

    /**
     * `_search_graphs`: appends one position per opener, in line order; stops
     * at the first opener without a closer, keeping what it appended before.
     */
    method SearchGraphs() returns (r: Outcome<Error>)
      modifies this
      ensures r.Pass? <==> Locate(fileContent).Ok?
      ensures r.Pass? ==> graphsLines == old(graphsLines) + Locate(fileContent).value
      ensures r.Fail? ==>
        exists n :: 0 <= n < |fileContent|
          && LocatePrefix(fileContent, n).Ok? && LocatePrefix(fileContent, n + 1).Err?
          && graphsLines == old(graphsLines) + LocatePrefix(fileContent, n).value
    {
      var i := 0;
      while i < |fileContent|
        invariant i <= |fileContent|
        invariant LocatePrefix(fileContent, i).Ok?
        invariant graphsLines == old(graphsLines) + LocatePrefix(fileContent, i).value
      {
        var line := fileContent[i];
        if IsOpener(line) {
          var size := SearchGraphCloser(i);
          if size.Err? {
            NoCloserAfter(fileContent, i);
            LocatePrefixErrPersists(fileContent, i + 1, |fileContent|);
            return Fail(size.error);
          }
          CloserAfter(fileContent, i, size.value);
          var indent := MeasureIndentation(line);
          graphsLines := graphsLines + [Position(i, size.value, indent)];
        }
        i := i + 1;
      }
      return Pass;
    }

    /** `extract_graphs_lines(file_content)`: the positions, or the error. */
    static method ExtractGraphsLines(fileContent: seq<string>) returns (r: Result<seq<Position>, Error>)
      ensures r == Locate(fileContent)
    {
      var reader := new MdReader(fileContent);
      var outcome := reader.SearchGraphs();
      assert reader.fileContent == fileContent;
      if outcome.Fail? {
        assert Locate(fileContent).Err? && Locate(fileContent).error == ClosingBlockNotFound;
        return Err(ClosingBlockNotFound);
      }
      assert [] + Locate(fileContent).value == Locate(fileContent).value;
      return Ok(reader.graphsLines);
    }
  }
}
