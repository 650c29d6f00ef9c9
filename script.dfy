/**
 * The two text heuristics of the request pipeline: the script-dominance test
 * `is_strict_mongolian` and the snippet cleaner `extract_mongolian_text`.
 *
 * Python's `str.isalpha` depends on the Unicode letter tables; it is the
 * parameter `isAlpha`, about which nothing is assumed. In particular the
 * Cyrillic block U+0400..U+04FF is not taken to consist of letters (it holds
 * U+0482..U+0489, which are not), so the Cyrillic count may exceed the
 * alphabetic count.
 */
module Script {
  import opened Strings

  /** The Cyrillic block U+0400..U+04FF, the script the filter looks for. */
  predicate IsCyrillic(c: char) {
    '\U{0400}' <= c <= '\U{04FF}'
  }

  /** No character of the Cyrillic block is whitespace. */
  lemma CyrillicIsNotWhitespace(c: char)
    ensures IsCyrillic(c) ==> !IsWhitespace(c)
  {
  }

  /** Number of characters of `s` in the Cyrillic block. */
  function CountCyrillic(s: string): (n: nat)
    ensures n <= |s|
    decreases |s|
  {
    if s == [] then 0
    else CountCyrillic(s[..|s| - 1]) + (if IsCyrillic(s[|s| - 1]) then 1 else 0)
  }

  /** Number of characters of `s` that `isAlpha` calls alphabetic. */
  function CountAlpha(s: string, isAlpha: char -> bool): (n: nat)
    ensures n <= |s|
    decreases |s|
  {
    if s == [] then 0
    else CountAlpha(s[..|s| - 1], isAlpha) + (if isAlpha(s[|s| - 1]) then 1 else 0)
  }

  /** `is_strict_mongolian`: at least 70% of the alphabetic characters are in
      the Cyrillic block, written without division as `10*cyr >= 7*alpha`.
      A text without alphabetic characters never passes, and a passing text
      always holds a Cyrillic character. */
  function IsStrictMongolian(text: string, isAlpha: char -> bool): (r: bool)
    ensures CountAlpha(text, isAlpha) == 0 ==> !r
    ensures r ==> CountCyrillic(text) > 0
  {
    var alpha := CountAlpha(text, isAlpha);
    alpha > 0 && 10 * CountCyrillic(text) >= 7 * alpha
  }

  /** The threshold as a least count: with `a > 0` alphabetic characters the
      text passes exactly when it has at least ceil(0.7 * a) Cyrillic ones. */
  lemma StrictMeansCeilSeventyPercent(text: string, isAlpha: char -> bool)
    requires CountAlpha(text, isAlpha) > 0
    ensures IsStrictMongolian(text, isAlpha)
        <==> CountCyrillic(text) >= (7 * CountAlpha(text, isAlpha) + 9) / 10
  {
    var a, c := CountAlpha(text, isAlpha), CountCyrillic(text);
    var q := (7 * a + 9) / 10;
    assert 10 * q <= 7 * a + 9 < 10 * q + 10;
    if c >= q {
      assert 10 * c >= 10 * q >= 7 * a;
    } else {
      assert 10 * c <= 10 * q - 10 < 7 * a;
    }
  }

  /** A text made only of Cyrillic-block characters has every character counted. */
  lemma {:induction false} AllCyrillicCount(text: string)
    requires forall k :: 0 <= k < |text| ==> IsCyrillic(text[k])
    ensures CountCyrillic(text) == |text|
    decreases |text|
  {
    if text != [] {
      AllCyrillicCount(text[..|text| - 1]);
    }
  }

  /** A text made only of Cyrillic-block characters passes as soon as it has one
      alphabetic character. */
  lemma AllCyrillicPasses(text: string, isAlpha: char -> bool)
    requires forall k :: 0 <= k < |text| ==> IsCyrillic(text[k])
    requires CountAlpha(text, isAlpha) > 0
    ensures IsStrictMongolian(text, isAlpha)
  {
    AllCyrillicCount(text);
  }

  /** Appending a Cyrillic character never makes a passing text fail. */
  lemma AppendCyrillicKeepsPassing(text: string, c: char, isAlpha: char -> bool)
    requires IsStrictMongolian(text, isAlpha) && IsCyrillic(c)
    ensures IsStrictMongolian(text + [c], isAlpha)
  {
    assert (text + [c])[..|text|] == text;
  }

  /** The alphabet of the worked examples below: Latin lower-case letters and
      the Cyrillic block. */
  predicate SampleAlpha(c: char) {
    IsCyrillic(c) || 'a' <= c <= 'z'
  }

  /** The exact 70% boundary passes and anything below it fails: seven Cyrillic
      letters against three Latin letters pass, six against three fail. */
  lemma SeventyPercentBoundary()
    ensures IsStrictMongolian("аааааааbcd", SampleAlpha)
    ensures !IsStrictMongolian("ааааааbcd", SampleAlpha)
  {
    var seven, six, latin := "ааааааа", "аааааа", "bcd";
    AllCyrillicCount(seven);
    AllCyrillicCount(six);
    AllAlphaCount(seven, SampleAlpha);
    AllAlphaCount(six, SampleAlpha);
    assert CountCyrillic(latin) == 0;
    assert CountAlpha(latin, SampleAlpha) == 3;
    CountConcat(seven, latin, SampleAlpha);
    CountConcat(six, latin, SampleAlpha);
    assert seven + latin == "аааааааbcd";
    assert six + latin == "ааааааbcd";
  }

  lemma {:induction false} AllAlphaCount(text: string, isAlpha: char -> bool)
    requires forall k :: 0 <= k < |text| ==> isAlpha(text[k])
    ensures CountAlpha(text, isAlpha) == |text|
    decreases |text|
  {
    if text != [] {
      AllAlphaCount(text[..|text| - 1], isAlpha);
    }
  }

  /** Both counts add up over a concatenation. */
  lemma {:induction false} CountConcat(a: string, b: string, isAlpha: char -> bool)
    ensures CountCyrillic(a + b) == CountCyrillic(a) + CountCyrillic(b)
    ensures CountAlpha(a + b, isAlpha) == CountAlpha(a, isAlpha) + CountAlpha(b, isAlpha)
    decreases |b|
  {
    if b == [] {
      assert a + b == a;
    } else {
      var b' := b[..|b| - 1];
      assert (a + b)[..|a + b| - 1] == a + b';
      CountConcat(a, b', isAlpha);
    }
  }

  /** The character map of the cleaner: Cyrillic characters and spaces are kept,
      every other character becomes a space. */
  function MaskChar(c: char): char {
    if IsCyrillic(c) || c == ' ' then c else ' '
  }

  function Mask(s: string): (r: string)
    ensures |r| == |s| && forall k :: 0 <= k < |s| ==> r[k] == MaskChar(s[k])
  {
    seq(|s|, k requires 0 <= k < |s| => MaskChar(s[k]))
  }

  /** `extract_mongolian_text`: every character outside the Cyrillic block
      other than a space becomes a space, then the ends are stripped. */
  function ExtractMongolianText(text: string): (r: string)
    ensures |r| <= |text|
  {
    Strip(Mask(text))
  }

  /** Only Cyrillic characters and spaces remain, and there is no space at
      either end. */
  lemma CleanedShape(text: string)
    ensures var r := ExtractMongolianText(text);
      && (forall k :: 0 <= k < |r| ==> IsCyrillic(r[k]) || r[k] == ' ')
      && (r == [] || (r[0] != ' ' && r[|r| - 1] != ' '))
  {
    var m := Mask(text);
    var i, j := StripIsSlice(m);
  }

  /** The Cyrillic characters of a text, in order. */
  function CyrillicLetters(s: string): (r: string)
    decreases |s|
  {
    if s == [] then []
    else CyrillicLetters(s[..|s| - 1]) + (if IsCyrillic(s[|s| - 1]) then [s[|s| - 1]] else [])
  }

  lemma {:induction false} CyrillicLettersConcat(a: string, b: string)
    ensures CyrillicLetters(a + b) == CyrillicLetters(a) + CyrillicLetters(b)
    decreases |b|
  {
    if b == [] {
      assert a + b == a;
    } else {
      var b' := b[..|b| - 1];
      assert (a + b)[..|a + b| - 1] == a + b';
      CyrillicLettersConcat(a, b');
    }
  }

  /** A text without Cyrillic characters contributes none. */
  lemma {:induction false} CyrillicLettersOfNone(s: string)
    requires forall k :: 0 <= k < |s| ==> !IsCyrillic(s[k])
    ensures CyrillicLetters(s) == []
    decreases |s|
  {
    if s != [] {
      CyrillicLettersOfNone(s[..|s| - 1]);
    }
  }

  /** Masking changes no Cyrillic character. */
  lemma {:induction false} MaskKeepsCyrillic(s: string)
    ensures CyrillicLetters(Mask(s)) == CyrillicLetters(s)
    decreases |s|
  {
    if s != [] {
      var init := s[..|s| - 1];
      assert Mask(s)[..|s| - 1] == Mask(init);
      MaskKeepsCyrillic(init);
    }
  }

  /** Whitespace holds no Cyrillic character. */
  lemma CyrillicLettersOfWhitespace(s: string)
    requires forall k :: 0 <= k < |s| ==> IsWhitespace(s[k])
    ensures CyrillicLetters(s) == []
  {
    forall k | 0 <= k < |s| ensures !IsCyrillic(s[k]) {
      CyrillicIsNotWhitespace(s[k]);
    }
    CyrillicLettersOfNone(s);
  }

  /** Whitespace around a text adds no Cyrillic character. */
  lemma CyrillicLettersAroundWhitespace(pre: string, mid: string, post: string)
    requires forall k :: 0 <= k < |pre| ==> IsWhitespace(pre[k])
    requires forall k :: 0 <= k < |post| ==> IsWhitespace(post[k])
    ensures CyrillicLetters(pre + mid + post) == CyrillicLetters(mid)
  {
    CyrillicLettersOfWhitespace(pre);
    CyrillicLettersOfWhitespace(post);
    CyrillicLettersConcat(pre + mid, post);
    CyrillicLettersConcat(pre, mid);
  }

  /** Trimming removes whitespace only, so no Cyrillic character. */
  lemma StripKeepsCyrillic(m: string)
    ensures CyrillicLetters(Strip(m)) == CyrillicLetters(m)
  {
    var i, j := StripIsSlice(m);
    assert m == m[..i] + m[i..j] + m[j..];
    CyrillicLettersAroundWhitespace(m[..i], m[i..j], m[j..]);
  }

  /** The cleaner keeps every Cyrillic character of the snippet, in order: it
      only replaces other characters by spaces and trims spaces. */
  lemma CleaningKeepsCyrillic(text: string)
    ensures CyrillicLetters(ExtractMongolianText(text)) == CyrillicLetters(text)
  {
    StripKeepsCyrillic(Mask(text));
    MaskKeepsCyrillic(text);
  }

  /** The shape of a cleaned snippet that had a Cyrillic character: non-empty,
      starting with a Cyrillic character, made of Cyrillic characters and spaces,
      not ending with a space. */
  predicate IsCleanSnippet(s: string) {
    && s != [] && IsCyrillic(s[0]) && s[|s| - 1] != ' '
    && forall k :: 0 <= k < |s| ==> IsCyrillic(s[k]) || s[k] == ' '
  }

  /** A text with a Cyrillic character cleans to a non-empty text that starts
      with a Cyrillic character. */
  lemma {:induction false} CleanedNonEmpty(text: string)
    requires CountCyrillic(text) > 0
    ensures var r := ExtractMongolianText(text); r != [] && IsCyrillic(r[0]) && IsCleanSnippet(r)
    decreases |text|
  {
    var init := text[..|text| - 1];
    if IsCyrillic(text[|text| - 1]) {
      var m := Mask(text);
      CyrillicIsNotWhitespace(m[|text| - 1]);
      assert !IsWhitespace(m[|m| - 1]);
    } else {
      CleanedNonEmpty(init);
      var m, m' := Mask(text), Mask(init);
      assert m' == m[..|init|];
      StripEmptyIff(m');
      assert !(forall k :: 0 <= k < |m'| ==> IsWhitespace(m'[k]));
    }
    var r := ExtractMongolianText(text);
    StripEmptyIff(Mask(text));
    CleanedShape(text);
    assert r[0] != ' ' && !IsWhitespace(r[0]);
  }

  /** The cleaner leaves a text of Cyrillic characters and spaces alone when it
      has no space at either end. */
  lemma CleaningIdentity(text: string)
    requires forall k :: 0 <= k < |text| ==> IsCyrillic(text[k]) || text[k] == ' '
    requires text == [] || (text[0] != ' ' && text[|text| - 1] != ' ')
    ensures ExtractMongolianText(text) == text
  {
    assert Mask(text) == text;
    if text != [] {
      CyrillicIsNotWhitespace(text[0]);
      CyrillicIsNotWhitespace(text[|text| - 1]);
    }
    StripNoop(text);
  }

  /** Cleaning twice is cleaning once. */
  lemma CleaningIdempotent(text: string)
    ensures ExtractMongolianText(ExtractMongolianText(text)) == ExtractMongolianText(text)
  {
    CleanedShape(text);
    CleaningIdentity(ExtractMongolianText(text));
  }
}
