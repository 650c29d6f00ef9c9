/**
 * String helpers with Python's meaning: `str.isspace`, `str.strip()`,
 * `str.replace(x, "")` and `"\n".join(lines)`.
 */
module Strings {

  /** Python's `str.isspace` on one character: the code points whose Unicode
      bidirectional type is WS, B or S, or whose category is Zs. */
  predicate IsWhitespace(c: char) {
    || ('\t' <= c <= '\r')
    || ('\U{1C}' <= c <= '\U{1F}')
    || c == ' '
    || c == '\U{85}'
    || c == '\U{A0}'
    || c == '\U{1680}'
    || ('\U{2000}' <= c <= '\U{200A}')
    || c == '\U{2028}'
    || c == '\U{2029}'
    || c == '\U{202F}'
    || c == '\U{205F}'
    || c == '\U{3000}'
  }

  /** `s.rstrip()`: drops the trailing whitespace, and only that. */
  function StripRight(s: string): (r: string)
    ensures |r| <= |s| && r == s[..|r|]
    ensures forall k :: |r| <= k < |s| ==> IsWhitespace(s[k])
    ensures r == [] || !IsWhitespace(r[|r| - 1])
    decreases |s|
  {
    if s != [] && IsWhitespace(s[|s| - 1]) then StripRight(s[..|s| - 1]) else s
  }

  /** `s.strip()`: leading whitespace is dropped one character at a time,
      then `StripRight` drops the trailing whitespace. Neither end of the
      result is whitespace. */
  function Strip(s: string): (r: string)
    ensures |r| <= |s|
    ensures r == [] || (!IsWhitespace(r[0]) && !IsWhitespace(r[|r| - 1]))
    decreases |s|
  {
    if s != [] && IsWhitespace(s[0]) then Strip(s[1..])
    else
      var r := StripRight(s);
      assert r != [] ==> r[0] == s[0];
      r
  }

  /** `Strip(s)` is `s` with a run of whitespace removed at each end:
      `s == s[..i] + Strip(s) + s[j..]` with only whitespace in the two runs. */
  lemma {:induction false} StripIsSlice(s: string) returns (i: nat, j: nat)
    ensures i <= j <= |s| && Strip(s) == s[i..j]
    ensures forall k :: 0 <= k < i ==> IsWhitespace(s[k])
    ensures forall k :: j <= k < |s| ==> IsWhitespace(s[k])
    decreases |s|
  {
    if s != [] && IsWhitespace(s[0]) {
      var i', j' := StripIsSlice(s[1..]);
      i, j := i' + 1, j' + 1;
      assert s[1..][i'..j'] == s[i..j];
      assert forall k :: 1 <= k < i ==> s[k] == s[1..][k - 1];
      assert forall k :: j <= k < |s| ==> s[k] == s[1..][k - 1];
    } else {
      i, j := 0, |StripRight(s)|;
    }
  }

  /** Stripping gives the empty text exactly when the text is all whitespace. */
  lemma {:induction false} StripEmptyIff(s: string)
    ensures Strip(s) == [] <==> forall k :: 0 <= k < |s| ==> IsWhitespace(s[k])
    decreases |s|
  {
    if s != [] && IsWhitespace(s[0]) {
      StripEmptyIff(s[1..]);
      assert forall k :: 1 <= k < |s| ==> s[k] == s[1..][k - 1];
    }
  }

  /** A text with no whitespace at either end is left as it is. */
  lemma StripNoop(s: string)
    requires s == [] || (!IsWhitespace(s[0]) && !IsWhitespace(s[|s| - 1]))
    ensures Strip(s) == s
  {
  }

  /** Leading whitespace is dropped by `Strip`. */
  lemma StripSkipsLeading(c: char, s: string)
    requires IsWhitespace(c)
    ensures Strip([c] + s) == Strip(s)
  {
    assert ([c] + s)[1..] == s;
  }

  /** Trailing whitespace is dropped by `StripRight`. */
  lemma StripRightSkipsTrailing(s: string, c: char)
    requires IsWhitespace(c)
    ensures StripRight(s + [c]) == StripRight(s)
  {
    assert (s + [c])[..|s|] == s;
  }

  /** A text that starts with non-whitespace loses only its trailing run. */
  lemma StripStartsClean(s: string)
    requires s != [] && !IsWhitespace(s[0])
    ensures Strip(s) == StripRight(s)
  {
  }

  /** A text that ends with non-whitespace keeps everything under `StripRight`. */
  lemma StripRightEndsClean(s: string)
    requires s != [] && !IsWhitespace(s[|s| - 1])
    ensures StripRight(s) == s
  {
  }

  /** Stripping `head` and `tail` joined by a newline and framed by one
      newline at each end gives the joined text back when `head` does not start
      and `tail` does not end with whitespace. */
  lemma StripFramed(head: string, tail: string)
    requires head != [] && !IsWhitespace(head[0])
    requires tail != [] && !IsWhitespace(tail[|tail| - 1])
    ensures Strip("\n" + head + "\n" + tail + "\n") == head + "\n" + tail
  {
    var body := head + "\n" + tail;
    var framed := body + "\n";
    assert "\n" + head + "\n" + tail + "\n" == ['\n'] + framed;
    StripSkipsLeading('\n', framed);
    assert framed[0] == head[0];
    StripStartsClean(framed);
    StripRightSkipsTrailing(body, '\n');
    assert body[|body| - 1] == tail[|tail| - 1];
    StripRightEndsClean(body);
  }

  /** `s.replace(x, "")`: every occurrence of `x` deleted, every other
      character kept as often as it occurs. */
  function RemoveChar(s: string, x: char): (r: string)
    ensures x !in r
    ensures |r| <= |s|
    ensures forall c :: c != x ==> multiset(r)[c] == multiset(s)[c]
    decreases |s|
  {
    if s == [] then []
    else
      var init := s[..|s| - 1];
      assert s == init + [s[|s| - 1]];
      RemoveChar(init, x) + (if s[|s| - 1] == x then [] else [s[|s| - 1]])
  }

  /** Deleting a character distributes over concatenation, so the order of the
      characters that remain is the order in `s`. */
  lemma {:induction false} RemoveCharConcat(a: string, b: string, x: char)
    ensures RemoveChar(a + b, x) == RemoveChar(a, x) + RemoveChar(b, x)
    decreases |b|
  {
    if b == [] {
      assert a + b == a;
    } else {
      var b' := b[..|b| - 1];
      assert (a + b)[..|a + b| - 1] == a + b';
      RemoveCharConcat(a, b', x);
    }
  }

  /** Index of the first `c` in `s`, or `|s|` when there is none. */
  function FirstIndexOf(s: string, c: char): (k: nat)
    ensures k <= |s| && c !in s[..k] && (k < |s| ==> s[k] == c)
    decreases |s|
  {
    if s == [] then 0
    else if s[0] == c then 0
    else
      var k := 1 + FirstIndexOf(s[1..], c);
      assert s[..k] == [s[0]] + s[1..][..k - 1];
      k
  }

  /** A text without `c` followed by a `c`: the first `c` is right after it. */
  lemma {:induction false} FirstIndexAfter(a: string, b: string, c: char)
    requires c !in a && b != [] && b[0] == c
    ensures FirstIndexOf(a + b, c) == |a|
    decreases |a|
  {
    if a != [] {
      assert (a + b)[1..] == a[1..] + b;
      FirstIndexAfter(a[1..], b, c);
    } else {
      assert a + b == b;
    }
  }

  /** `"\n".join(lines)`. */
  function JoinLines(lines: seq<string>): (r: string)
    decreases |lines|
  {
    if |lines| == 0 then ""
    else if |lines| == 1 then lines[0]
    else lines[0] + "\n" + JoinLines(lines[1..])
  }

  /** `s.split("\n")`: always at least one piece. */
  function SplitLines(s: string): (pieces: seq<string>)
    ensures pieces != []
    decreases |s|
  {
    var k := FirstIndexOf(s, '\n');
    if k == |s| then [s] else [s[..k]] + SplitLines(s[k + 1..])
  }

  /** Splitting a line without a newline, a newline and the rest: the line,
      then the pieces of the rest. */
  lemma SplitLinesCons(line: string, rest: string)
    requires '\n' !in line
    ensures SplitLines(line + "\n" + rest) == [line] + SplitLines(rest)
  {
    var r := line + "\n" + rest;
    assert r == line + ("\n" + rest);
    FirstIndexAfter(line, "\n" + rest, '\n');
    assert r[..|line|] == line;
    assert r[|line| + 1..] == rest;
  }

  /** Splitting undoes joining when no line holds a newline of its own. */
  lemma {:induction false} SplitJoinRoundTrip(lines: seq<string>)
    requires lines != []
    requires forall k :: 0 <= k < |lines| ==> '\n' !in lines[k]
    ensures SplitLines(JoinLines(lines)) == lines
    decreases |lines|
  {
    if |lines| == 1 {
      assert FirstIndexOf(lines[0], '\n') == |lines[0]|;
    } else {
      SplitLinesCons(lines[0], JoinLines(lines[1..]));
      SplitJoinRoundTrip(lines[1..]);
      assert lines == [lines[0]] + lines[1..];
    }
  }

  /** The joined text starts with the first line, ends with the last line, and
      is as long as all lines together plus one separator between each pair. */
  lemma {:induction false} JoinLinesShape(lines: seq<string>)
    requires lines != []
    ensures var r := JoinLines(lines);
      && |lines[0]| <= |r| && r[..|lines[0]|] == lines[0]
      && |lines[|lines| - 1]| <= |r| && r[|r| - |lines[|lines| - 1]|..] == lines[|lines| - 1]
      && |r| == TotalLength(lines) + |lines| - 1
    decreases |lines|
  {
    if |lines| > 1 {
      var rest := lines[1..];
      JoinLinesShape(rest);
      assert rest[|rest| - 1] == lines[|lines| - 1];
      assert TotalLength(lines) == |lines[0]| + TotalLength(rest);
    }
  }

  /** The total number of characters of the lines. */
  function TotalLength(lines: seq<string>): nat
    decreases |lines|
  {
    if lines == [] then 0 else |lines[0]| + TotalLength(lines[1..])
  }
}
