/** The Python string operations the analysis core relies on: `str.lower`,
    `str.strip`, `str.splitlines` and `re.findall` with the pattern
    `[A-Za-z']+`.  Case folding is ASCII only and whitespace / line breaks
    are a fixed set of characters (see README "Left out"). */
module PyText {

  /** A character of the regular-expression class `[A-Za-z']`. */
  predicate IsWordChar(c: char) {
    ('A' <= c <= 'Z') || ('a' <= c <= 'z') || c == '\''
  }

  /** The characters `str.strip` removes (those `str.isspace` accepts): tab,
      line feed, vertical tab, form feed, carriage return, U+001C..U+001F,
      space, NEL U+0085, NO-BREAK SPACE U+00A0, OGHAM SPACE MARK U+1680, the
      spaces U+2000..U+200A, the line and paragraph separators U+2028 and
      U+2029, U+202F, U+205F and IDEOGRAPHIC SPACE U+3000. */
  predicate IsSpace(c: char) {
    ('\t' <= c <= '\r') || ('\U{1C}' <= c <= ' ')
    || c == '\U{85}' || c == '\U{A0}' || c == '\U{1680}'
    || ('\U{2000}' <= c <= '\U{200A}') || c == '\U{2028}' || c == '\U{2029}'
    || c == '\U{202F}' || c == '\U{205F}' || c == '\U{3000}'
  }

  /** The line boundaries `str.splitlines` splits on: line feed, vertical tab,
      form feed, carriage return, U+001C..U+001E, NEL U+0085 and the line and
      paragraph separators U+2028, U+2029. */
  predicate IsLineBreak(c: char) {
    ('\n' <= c <= '\r') || ('\U{1C}' <= c <= '\U{1E}')
    || c == '\U{85}' || c == '\U{2028}' || c == '\U{2029}'
  }

  /** Every line boundary is whitespace, so a line break never survives a strip. */
  lemma LineBreakIsSpace(c: char)
    requires IsLineBreak(c)
    ensures IsSpace(c)
  {
  }

  // ---------------------------------------------------------------- lower

  /** ASCII `str.lower` on one character. */
  function LowerChar(c: char): (r: char)
    ensures 'A' <= c <= 'Z' ==> 'a' <= r <= 'z' && r as int == c as int + 32
    ensures !('A' <= c <= 'Z') ==> r == c
  {
    if 'A' <= c <= 'Z' then (c as int + 32) as char else c
  }

  function Lower(s: string): (r: string)
    ensures |r| == |s|
    ensures forall k :: 0 <= k < |s| ==> r[k] == LowerChar(s[k])
  {
    seq(|s|, k requires 0 <= k < |s| => LowerChar(s[k]))
  }

  /** Lower-casing twice is lower-casing once. */
  lemma LowerIdempotent(s: string)
    ensures Lower(Lower(s)) == Lower(s)
  {
  }

  /** Lower-casing keeps a word character a word character, and removes every
      upper-case letter. */
  lemma LowerWordChars(s: string)
    requires forall k :: 0 <= k < |s| ==> IsWordChar(s[k])
    ensures forall k :: 0 <= k < |s| ==> IsWordChar(Lower(s)[k]) && !('A' <= Lower(s)[k] <= 'Z')
  {
  }

  // ---------------------------------------------------------------- strip

  /** Every character of `s` is whitespace. */
  predicate AllSpace(s: string) {
    forall k :: 0 <= k < |s| ==> IsSpace(s[k])
  }

  /** `str.lstrip()`: drops the leading whitespace. */
  function TrimLeft(s: string): (r: string)
    ensures |r| <= |s|
    decreases |s|
  {
    if s != [] && IsSpace(s[0]) then TrimLeft(s[1..]) else s
  }

  /** What `lstrip` leaves is a suffix, not starting with whitespace, after
      only whitespace. */
  lemma {:induction false} TrimLeftSpec(s: string)
    ensures var r := TrimLeft(s);
      r == s[|s| - |r|..] && AllSpace(s[..|s| - |r|]) && (r != [] ==> !IsSpace(r[0]))
    decreases |s|
  {
    if s != [] && IsSpace(s[0]) {
      TrimLeftSpec(s[1..]);
      var r := TrimLeft(s[1..]);
      assert s[..|s| - |r|] == [s[0]] + s[1..][..|s| - 1 - |r|];
    }
  }

  /** `str.rstrip()`: drops the trailing whitespace. */
  function TrimRight(s: string): (r: string)
    ensures |r| <= |s|
    decreases |s|
  {
    if s != [] && IsSpace(s[|s| - 1]) then TrimRight(s[..|s| - 1]) else s
  }

  /** What `rstrip` leaves is a prefix, not ending in whitespace, before only
      whitespace. */
  lemma {:induction false} TrimRightSpec(s: string)
    ensures var r := TrimRight(s);
      r == s[..|r|] && AllSpace(s[|r|..]) && (r != [] ==> !IsSpace(r[|r| - 1]))
    decreases |s|
  {
    if s != [] && IsSpace(s[|s| - 1]) {
      TrimRightSpec(s[..|s| - 1]);
      var r := TrimRight(s[..|s| - 1]);
      assert s[|r|..] == s[..|s| - 1][|r|..] + [s[|s| - 1]];
    }
  }

  /** `str.strip()`: removes whitespace on both sides; the result is empty
      exactly when `s` is all whitespace (StripSlice says which slice it is). */
  function Strip(s: string): (r: string)
    ensures r != [] ==> !IsSpace(r[0]) && !IsSpace(r[|r| - 1])
    ensures r == [] <==> AllSpace(s)
  {
    StripEmpty(s);
    TrimRight(TrimLeft(s))
  }

  /** The strip of `s` is a slice `s[i..j]` with only whitespace outside it. */
  lemma StripSlice(s: string)
    ensures var r := Strip(s);
      exists i, j :: 0 <= i <= j <= |s| && r == s[i..j] && AllSpace(s[..i]) && AllSpace(s[j..])
  {
    var left := TrimLeft(s);
    var r := TrimRight(left);
    TrimLeftSpec(s);
    TrimRightSpec(left);
    var i := |s| - |left|;
    var j := i + |r|;
    SliceOfSuffix(s, left, r, i);
    assert s[j..] == left[|r|..];
  }

  lemma StripEmpty(s: string)
    ensures var r := TrimRight(TrimLeft(s));
      (r != [] ==> !IsSpace(r[0]) && !IsSpace(r[|r| - 1])) && (r == [] <==> AllSpace(s))
  {
    var left := TrimLeft(s);
    var r := TrimRight(left);
    TrimLeftSpec(s);
    TrimRightSpec(left);
    var i := |s| - |left|;
    if r != [] {
      assert s[i] == r[0];
    } else {
      assert s == s[..i] + left;
    }
  }

  /** A prefix of the suffix `s[i..]` is a slice of `s`. */
  lemma SliceOfSuffix(s: string, suffix: string, r: string, i: nat)
    requires i <= |s| && suffix == s[i..] && |r| <= |suffix| && r == suffix[..|r|]
    ensures r == s[i..i + |r|]
  {
  }

  /** A string with no whitespace at either end is its own strip. */
  lemma StripNoEdgeSpace(s: string)
    requires s != [] ==> !IsSpace(s[0]) && !IsSpace(s[|s| - 1])
    ensures Strip(s) == s
  {
    assert TrimLeft(s) == s;
    assert TrimRight(s) == s;
  }

  /** Stripping twice is stripping once. */
  lemma StripIdempotent(s: string)
    ensures Strip(Strip(s)) == Strip(s)
  {
    StripNoEdgeSpace(Strip(s));
  }

  // ----------------------------------------------------------- splitlines

  /** Length of the first line of `s`: the index of its first line break, or
      `|s|` when there is none. */
  function LineLength(s: string): (n: nat)
    ensures n <= |s|
    ensures forall k :: 0 <= k < n ==> !IsLineBreak(s[k])
    ensures n < |s| ==> IsLineBreak(s[n])
    decreases |s|
  {
    if s == [] || IsLineBreak(s[0]) then 0 else 1 + LineLength(s[1..])
  }

  /** Width of the line break at index `n`: "\r\n" counts as one break. */
  function BreakWidth(s: string, n: nat): (w: nat)
    requires n < |s|
    ensures 1 <= w && n + w <= |s|
  {
    if s[n] == '\r' && n + 1 < |s| && s[n + 1] == '\n' then 2 else 1
  }

  /** `s` holds no line break. */
  predicate BreakFree(s: string) {
    forall k :: 0 <= k < |s| ==> !IsLineBreak(s[k])
  }

  /** `str.splitlines()`: the lines of `s` without their terminators; a final
      terminator does not start another line, and "" has no lines. */
  function SplitLines(s: string): (r: seq<string>)
    ensures forall i :: 0 <= i < |r| ==> BreakFree(r[i])
    ensures s != [] <==> r != []
    decreases |s|
  {
    if s == [] then []
    else
      var n := LineLength(s);
      if n == |s| then [s]
      else
        var rest := s[n + BreakWidth(s, n)..];
        [s[..n]] + SplitLines(rest)
  }

  /** Every character of `line` occurs in `s`. */
  predicate CharsFrom(line: string, s: string) {
    forall k :: 0 <= k < |line| ==> line[k] in s
  }

  /** `splitlines` invents no characters: every line is made of characters of
      the text. */
  lemma {:induction false} SplitLinesChars(s: string)
    ensures forall i :: 0 <= i < |SplitLines(s)| ==> CharsFrom(SplitLines(s)[i], s)
    decreases |s|
  {
    var r := SplitLines(s);
    if s != [] {
      var n := LineLength(s);
      if n == |s| {
        CharsFromSlice(s, 0, |s|);
        assert s[0..|s|] == s;
      } else {
        var m := n + BreakWidth(s, n);
        var rest := s[m..];
        assert r == [s[..n]] + SplitLines(rest);
        SplitLinesChars(rest);
        forall i | 0 <= i < |r| ensures CharsFrom(r[i], s) {
          if i == 0 {
            CharsFromSlice(s, 0, n);
            assert s[0..n] == s[..n];
          } else {
            assert r[i] == SplitLines(rest)[i - 1];
            CharsFromSuffix(r[i], s, m);
          }
        }
      }
    }
  }

  lemma CharsFromSlice(s: string, a: nat, b: nat)
    requires a <= b <= |s|
    ensures CharsFrom(s[a..b], s)
  {
    forall k | 0 <= k < b - a ensures s[a..b][k] in s {
      assert s[a..b][k] == s[a + k];
    }
  }

  lemma CharsFromSuffix(line: string, s: string, a: nat)
    requires a <= |s| && CharsFrom(line, s[a..])
    ensures CharsFrom(line, s)
  {
    forall k | 0 <= k < |line| ensures line[k] in s {
      var j :| 0 <= j < |s[a..]| && s[a..][j] == line[k];
      assert s[a + j] == line[k];
    }
  }

  /** Joins lines with "\n" between them. */
  function JoinLines(lines: seq<string>): (r: string)
  {
    if lines == [] then ""
    else if |lines| == 1 then lines[0]
    else lines[0] + "\n" + JoinLines(lines[1..])
  }

  /** `splitlines` undoes a "\n"-join of break-free lines whose last line is
      not empty (an empty last line would be taken for a final terminator). */
  lemma {:induction false} SplitJoinRoundTrip(lines: seq<string>)
    requires lines != [] && lines[|lines| - 1] != ""
    requires forall i :: 0 <= i < |lines| ==> BreakFree(lines[i])
    ensures SplitLines(JoinLines(lines)) == lines
    decreases |lines|
  {
    if |lines| == 1 {
      SplitSingleLine(lines[0]);
    } else {
      var tail := JoinLines(lines[1..]);
      assert lines[1..][|lines| - 2] == lines[|lines| - 1];
      SplitLinesCons(lines[0], tail);
      SplitJoinRoundTrip(lines[1..]);
      HeadTail(lines);
    }
  }

  /** A non-empty sequence is its head followed by its tail. */
  lemma HeadTail<T>(xs: seq<T>)
    requires xs != []
    ensures [xs[0]] + xs[1..] == xs
  {
  }

  /** A non-empty break-free string is one line. */
  lemma SplitSingleLine(line: string)
    requires line != [] && BreakFree(line)
    ensures SplitLines(line) == [line]
  {
    LineLengthOfBreakFree(line);
  }

  /** A break-free first line followed by "\n" is split off as one line. */
  lemma SplitLinesCons(first: string, tail: string)
    requires BreakFree(first)
    ensures SplitLines(first + "\n" + tail) == [first] + SplitLines(tail)
  {
    var s := first + "\n" + tail;
    assert s == first + ("\n" + tail);
    LineLengthPrefix(first, "\n" + tail);
    assert s[|first|] == '\n';
    assert s[|first| + 1..] == tail;
    assert s[..|first|] == first;
  }

  lemma {:induction false} LineLengthOfBreakFree(s: string)
    requires BreakFree(s)
    ensures LineLength(s) == |s|
    decreases |s|
  {
    if s != [] { LineLengthOfBreakFree(s[1..]); }
  }

  lemma {:induction false} LineLengthPrefix(a: string, b: string)
    requires BreakFree(a)
    requires b != [] && IsLineBreak(b[0])
    ensures LineLength(a + b) == |a|
    decreases |a|
  {
    if a == [] {
      assert a + b == b;
    } else {
      assert (a + b)[1..] == a[1..] + b;
      LineLengthPrefix(a[1..], b);
    }
  }

  // --------------------------------------------------------- re.findall

  /** Every character of `s` is a word character. */
  predicate AllWord(s: string) {
    forall k :: 0 <= k < |s| ==> IsWordChar(s[k])
  }

  /** No character of `s` is a word character. */
  predicate NoWord(s: string) {
    forall k :: 0 <= k < |s| ==> !IsWordChar(s[k])
  }

  /** Length of the maximal run of word characters at the start of `s`. */
  function RunLength(s: string): (n: nat)
    ensures n <= |s| && AllWord(s[..n])
    ensures n < |s| ==> !IsWordChar(s[n])
    decreases |s|
  {
    if s != [] && IsWordChar(s[0]) then
      var n := RunLength(s[1..]);
      assert s[..1 + n] == [s[0]] + s[1..][..n];
      1 + n
    else 0
  }

  /** `re.findall(r"[A-Za-z']+", s)`: the maximal runs of word characters,
      left to right.  Every match is non-empty and made of word characters. */
  function FindWords(s: string): (r: seq<string>)
    ensures forall i :: 0 <= i < |r| ==> r[i] != [] && AllWord(r[i])
    decreases |s|
  {
    if s == [] then []
    else if !IsWordChar(s[0]) then FindWords(s[1..])
    else
      var n := RunLength(s);
      [s[..n]] + FindWords(s[n..])
  }

  /** `s[i..j]` is the last maximal run of word characters in `s`. */
  predicate IsLastRun(s: string, i: int, j: int) {
    && 0 <= i < j <= |s|
    && AllWord(s[i..j])
    && (i == 0 || !IsWordChar(s[i - 1]))
    && NoWord(s[j..])
  }

  /** The last element of a non-empty sequence. */
  function Last<T>(xs: seq<T>): T
    requires xs != []
  {
    xs[|xs| - 1]
  }

  /** `findall` finds nothing exactly when `s` has no word character, and
      otherwise its last match is the last maximal run of `s`. */
  lemma {:induction false} FindWordsLast(s: string)
    ensures FindWords(s) == [] <==> NoWord(s)
    ensures FindWords(s) != [] ==> exists i, j :: IsLastRun(s, i, j) && Last(FindWords(s)) == s[i..j]
    decreases |s|
  {
    if s == [] {
    } else if !IsWordChar(s[0]) {
      var t := s[1..];
      FindWordsLast(t);
      assert FindWords(s) == FindWords(t);
      if FindWords(t) != [] {
        var i, j :| IsLastRun(t, i, j) && Last(FindWords(t)) == t[i..j];
        LastRunShift(s, 1, i, j);
      } else {
        assert s == [s[0]] + t;
      }
    } else {
      var n := RunLength(s);
      var t := s[n..];
      FindWordsLast(t);
      assert FindWords(s) == [s[..n]] + FindWords(t);
      if FindWords(t) == [] {
        assert s[0..n] == s[..n];
        assert IsLastRun(s, 0, n);
      } else {
        var i, j :| IsLastRun(t, i, j) && Last(FindWords(t)) == t[i..j];
        RunThenLastRun(s, n, i, j);
      }
    }
  }

  /** A last run of the suffix `s[n..]` is one of `s` when it is not
      continued from `s[..n]`. */
  lemma LastRunShift(s: string, n: nat, i: int, j: int)
    requires n <= |s| && IsLastRun(s[n..], i, j)
    requires i == 0 ==> n == 0 || !IsWordChar(s[n - 1])
    ensures IsLastRun(s, n + i, n + j) && s[n..][i..j] == s[n + i..n + j]
  {
    var t := s[n..];
    assert s[n + i..n + j] == t[i..j];
    assert s[n + j..] == t[j..];
    if i > 0 { assert s[n + i - 1] == t[i - 1]; }
  }

  /** After a leading run `s[..n]`, a last run of `s[n..]` is the last run
      of `s`: it cannot start right at `n`, where a non-word character is. */
  lemma RunThenLastRun(s: string, n: nat, i: int, j: int)
    requires 0 < n <= |s| && (n < |s| ==> !IsWordChar(s[n]))
    requires IsLastRun(s[n..], i, j)
    ensures IsLastRun(s, n + i, n + j) && s[n..][i..j] == s[n + i..n + j]
  {
    var t := s[n..];
    assert IsWordChar(t[i..j][0]) && t[i..j][0] == t[i];
    assert t[0] == s[n];
    LastRunShift(s, n, i, j);
  }

  /** A string has at most one last maximal run. */
  lemma LastRunUnique(s: string, i: int, j: int, i': int, j': int)
    requires IsLastRun(s, i, j) && IsLastRun(s, i', j')
    ensures i == i' && j == j'
  {
    RunChars(s, i, j);
    RunChars(s, i', j');
    assert IsWordChar(s[j - 1]) && IsWordChar(s[j' - 1]);
    assert j == j';
    assert i > 0 ==> !IsWordChar(s[i - 1]);
    assert i' > 0 ==> !IsWordChar(s[i' - 1]);
  }

  /** The characters of a last run, stated on `s` itself. */
  lemma RunChars(s: string, i: int, j: int)
    requires IsLastRun(s, i, j)
    ensures forall k :: i <= k < j ==> IsWordChar(s[k])
    ensures forall k :: j <= k < |s| ==> !IsWordChar(s[k])
  {
    assert forall k :: i <= k < j ==> s[k] == s[i..j][k - i];
    assert forall k :: j <= k < |s| ==> s[k] == s[j..][k - j];
  }
}
