/**
 * The few operations of Python's `str` and `list` that the preprocessor uses,
 * on `string` (a sequence of code points) and on sequences.
 */
module Text {

  /**
   * The characters for which Python's `str.isspace()` holds; `str.lstrip()`
   * without an argument removes exactly these.
   */
  predicate IsSpace(c: char)
  {
    || '\t' <= c <= '\r'
    || '\U{1C}' <= c <= ' '
    || c == '\U{85}' || c == '\U{A0}' || c == '\U{1680}'
    || '\U{2000}' <= c <= '\U{200A}'
    || c == '\U{2028}' || c == '\U{2029}' || c == '\U{202F}' || c == '\U{205F}' || c == '\U{3000}'
  }

  /** `s.lstrip()`: `s` without its leading whitespace. */
  function LStrip(s: string): (r: string)
    ensures |r| <= |s|
  {
    if s != [] && IsSpace(s[0]) then LStrip(s[1..]) else s
  }

  /** What `LStrip` removes is a run of whitespace, and all of that run. */
  lemma {:induction false} LStripSpec(s: string)
    ensures LStrip(s) == s[|s| - |LStrip(s)|..]
    ensures forall j :: 0 <= j < |s| - |LStrip(s)| ==> IsSpace(s[j])
    ensures LStrip(s) == [] || !IsSpace(LStrip(s)[0])
  {
    if s != [] && IsSpace(s[0]) {
      LStripSpec(s[1..]);
    }
  }

  /** `s.lstrip(chars)`: `s` without its longest prefix of characters in `chars`. */
  function LStripChars(s: string, chars: set<char>): (r: string)
    ensures |r| <= |s|
  {
    if s != [] && s[0] in chars then LStripChars(s[1..], chars) else s
  }

  /** What `LStripChars` removes is a run of characters of `chars`, and all of that run. */
  lemma {:induction false} LStripCharsSpec(s: string, chars: set<char>)
    ensures LStripChars(s, chars) == s[|s| - |LStripChars(s, chars)|..]
    ensures forall j :: 0 <= j < |s| - |LStripChars(s, chars)| ==> s[j] in chars
    ensures LStripChars(s, chars) == [] || LStripChars(s, chars)[0] !in chars
  {
    if s != [] && s[0] in chars {
      LStripCharsSpec(s[1..], chars);
    }
  }

  /**
   * `str.lower()` restricted to ASCII letters. Python lowers every cased
   * Unicode character; only ASCII case folding is modelled here.
   */
  function LowerChar(c: char): char
  {
    if 'A' <= c <= 'Z' then (c as int + 32) as char else c
  }

  function Lower(s: string): (r: string)
    ensures |r| == |s|
  {
    if s == [] then [] else [LowerChar(s[0])] + Lower(s[1..])
  }

  /** `s.startswith(prefix)`. */
  predicate StartsWith(s: string, prefix: string)
  {
    |prefix| <= |s| && s[..|prefix|] == prefix
  }

  /** `"".join(parts)`: the parts one after the other, with no separator. */
  function Join<T>(parts: seq<seq<T>>): seq<T>
  {
    if parts == [] then [] else parts[0] + Join(parts[1..])
  }

  lemma {:induction false} JoinAppend<T>(a: seq<seq<T>>, b: seq<seq<T>>)
    ensures Join(a + b) == Join(a) + Join(b)
  {
    if a == [] {
      assert a + b == b;
    } else {
      assert (a + b)[1..] == a[1..] + b;
      JoinAppend(a[1..], b);
    }
  }

  /** Joining one more part appends that part. */
  lemma JoinStep<T>(parts: seq<seq<T>>, n: nat)
    requires n < |parts|
    ensures Join(parts[..n + 1]) == Join(parts[..n]) + parts[n]
  {
    assert parts[..n + 1] == parts[..n] + [parts[n]];
    JoinAppend(parts[..n], [parts[n]]);
    assert Join([parts[n]]) == parts[n] + Join<T>([]);
  }

  /** Joining a slice is joining its two halves. */
  lemma JoinSlices<T>(parts: seq<seq<T>>, a: nat, m: nat, b: nat)
    requires a <= m <= b <= |parts|
    ensures Join(parts[a..b]) == Join(parts[a..m]) + Join(parts[m..b])
  {
    assert parts[a..b] == parts[a..m] + parts[m..b];
    JoinAppend(parts[a..m], parts[m..b]);
  }

  /** `s[lo:hi]` for non-negative bounds: Python clamps both bounds to `len(s)`. */
  function PySlice<T>(s: seq<T>, lo: nat, hi: nat): (r: seq<T>)
    ensures |r| == if lo < hi && lo < |s| then (if hi < |s| then hi else |s|) - lo else 0
    ensures forall j :: 0 <= j < |r| ==> r[j] == s[lo + j]
  {
    if lo < hi && lo < |s| then s[lo..if hi < |s| then hi else |s|] else []
  }

  /** A clamped slice is the ordinary slice between the clamped bounds. */
  lemma PySliceClamped<T>(s: seq<T>, lo: nat, hi: nat)
    ensures var h := if hi < |s| then hi else |s|;
            var l := if lo < h then lo else h;
            PySlice(s, lo, hi) == s[l..h]
  {
  }

  /** `c * n` for a one-character string `c`. */
  function Repeat(c: char, n: nat): (r: string)
    ensures |r| == n
  {
    if n == 0 then [] else Repeat(c, n - 1) + [c]
  }

  /** Every character of `c * n` is `c`. */
  lemma {:induction false} RepeatSpec(c: char, n: nat)
    ensures forall j :: 0 <= j < n ==> Repeat(c, n)[j] == c
  {
    if n > 0 {
      RepeatSpec(c, n - 1);
      assert Repeat(c, n) == Repeat(c, n - 1) + [c];
    }
  }
}
