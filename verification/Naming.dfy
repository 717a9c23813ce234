/**
 * File names of the rendered images: `_name_graph_from_index`, which formats
 * the block index as `f"graph_{index:0>3}.svg"`.
 */
module Naming {
  import opened Wrappers
  import opened Text

  const NamePrefix: string := "graph_"
  const NameSuffix: string := ".svg"
  /** The width of the `0>3` format specification. */
  const IndexWidth: nat := 3

  predicate IsDigit(c: char)
  {
    '0' <= c <= '9'
  }

  predicate AllDigits(s: string)
  {
    forall j :: 0 <= j < |s| ==> IsDigit(s[j])
  }

  function DigitChar(d: nat): (c: char)
    requires d < 10
    ensures IsDigit(c) && c as int - '0' as int == d
  {
    ('0' as int + d) as char
  }

  /** `str(n)`: the decimal digits of `n`, most significant first, no leading zero. */
  function DecimalDigits(n: nat): (s: string)
    ensures 1 <= |s| && AllDigits(s)
    ensures s[0] == '0' ==> n == 0
  {
    if n < 10 then [DigitChar(n)] else DecimalDigits(n / 10) + [DigitChar(n % 10)]
  }

  /** The number a string of decimal digits denotes; the inverse of `DecimalDigits`. */
  function DigitsValue(s: string): (v: nat)
    requires AllDigits(s)
  {
    if s == [] then 0
    else DigitsValue(s[..|s| - 1]) * 10 + (s[|s| - 1] as int - '0' as int)
  }

  lemma {:induction false} DecimalDigitsValue(n: nat)
    ensures DigitsValue(DecimalDigits(n)) == n
  {
    var s := DecimalDigits(n);
    if n >= 10 {
      assert s[..|s| - 1] == DecimalDigits(n / 10);
      DecimalDigitsValue(n / 10);
    }
  }

  /** One leading zero does not change the value of a digit string. */
  lemma {:induction false} LeadingZeroValue(s: string)
    requires AllDigits(s)
    ensures AllDigits(['0'] + s) && DigitsValue(['0'] + s) == DigitsValue(s)
  {
    var z := ['0'] + s;
    if s != [] {
      assert z[..|z| - 1] == ['0'] + s[..|s| - 1];
      LeadingZeroValue(s[..|s| - 1]);
    } else {
      assert z[..|z| - 1] == [];
    }
  }

  /** Leading zeros do not change the value of a digit string. */
  lemma {:induction false} LeadingZerosValue(k: nat, s: string)
    requires AllDigits(s)
    ensures AllDigits(Repeat('0', k) + s)
    ensures DigitsValue(Repeat('0', k) + s) == DigitsValue(s)
  {
    if k > 0 {
      LeadingZeroValue(s);
      LeadingZerosValue(k - 1, ['0'] + s);
      assert Repeat('0', k) + s == Repeat('0', k - 1) + (['0'] + s);
    } else {
      assert Repeat('0', k) + s == s;
    }
  }

  /** The `0>w` format specification: fill with '0' on the left up to width `w`, never truncate. */
  function ZeroPad(s: string, width: nat): (r: string)
    ensures |r| == if |s| < width then width else |s|
    ensures r[|r| - |s|..] == s
    ensures forall j :: 0 <= j < |r| - |s| ==> r[j] == '0'
  {
    if |s| < width then
      RepeatSpec('0', width - |s|);
      Repeat('0', width - |s|) + s
    else s
  }

  /** `_name_graph_from_index(index)`. */
  function NameGraph(index: nat): (name: string)
  {
    NamePrefix + ZeroPad(DecimalDigits(index), IndexWidth) + NameSuffix
  }

  /**
   * An image name is the prefix, at least three digits that read back as the
   * index, and the suffix.
   */
  lemma NameGraphShape(index: nat)
    ensures var name := NameGraph(index);
      && 6 + IndexWidth + 4 <= |name|
      && name[..6] == NamePrefix && name[|name| - 4..] == NameSuffix
      && name[6..|name| - 4] == ZeroPad(DecimalDigits(index), IndexWidth)
      && AllDigits(name[6..|name| - 4])
  {
    var name := NameGraph(index);
    assert name[6..|name| - 4] == ZeroPad(DecimalDigits(index), IndexWidth);
  }

  /** Reads the index back from an image file name; the left inverse of `NameGraph`. */
  function ParseGraphName(name: string): (r: Option<nat>)
  {
    if |name| < 6 + IndexWidth + 4 then None
    else if name[..6] != NamePrefix || name[|name| - 4..] != NameSuffix then None
    else if !AllDigits(name[6..|name| - 4]) then None
    else Some(DigitsValue(name[6..|name| - 4]))
  }

  lemma NameGraphRoundTrip(index: nat)
    ensures ParseGraphName(NameGraph(index)) == Some(index)
  {
    var digits := DecimalDigits(index);
    var name := NameGraph(index);
    NameGraphShape(index);
    if |digits| < IndexWidth {
      LeadingZerosValue(IndexWidth - |digits|, digits);
    }
    DecimalDigitsValue(index);
  }

  /** Distinct blocks get distinct image files. */
  lemma NameGraphInjective(i: nat, j: nat)
    requires NameGraph(i) == NameGraph(j)
    ensures i == j
  {
    NameGraphRoundTrip(i);
    NameGraphRoundTrip(j);
  }

  /** The first, the eleventh and the thousand-and-first block's names. */
  lemma NameGraphExamples()
    ensures NameGraph(0) == "graph_000.svg"
    ensures NameGraph(10) == "graph_010.svg"
    ensures NameGraph(1000) == "graph_1000.svg"
  {
    assert DecimalDigits(0) == "0";
    assert DecimalDigits(1) == "1";
    assert DecimalDigits(10) == "10";
    assert DecimalDigits(100) == "100";
    assert DecimalDigits(1000) == "1000";
  }
}
