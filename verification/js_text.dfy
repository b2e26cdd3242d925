/**
  The pieces of ECMAScript string handling the example applications use:
  the white space set shared by `String.prototype.trim` and the regular
  expression class `\s`, the word class `\w`, and `trim` itself.
 */
module JsText {
  /**
    WhiteSpace and LineTerminator code points: tab, line feed, vertical
    tab, form feed, carriage return, space, no-break space, the space
    separators (U+1680, U+2000 to U+200A, U+202F, U+205F, U+3000), line and
    paragraph separator, and the byte order mark.
   */
  predicate IsWhiteSpace(c: char)
  {
    var n := c as int;
    || (0x09 <= n <= 0x0D) || n == 0x20 || n == 0xA0 || n == 0x1680
    || (0x2000 <= n <= 0x200A) || n == 0x2028 || n == 0x2029 || n == 0x202F
    || n == 0x205F || n == 0x3000 || n == 0xFEFF
  }

  /** `\w`: ASCII letters, digits and the underscore. */
  predicate IsWordChar(c: char)
  {
    ('a' <= c <= 'z') || ('A' <= c <= 'Z') || ('0' <= c <= '9') || c == '_'
  }

  predicate AllWhiteSpace(s: string)
  {
    forall k :: 0 <= k < |s| ==> IsWhiteSpace(s[k])
  }

  /** Leading white space removed. */
  function TrimStart(s: string): (r: string)
    ensures |r| <= |s| && r == s[|s| - |r|..]
    ensures AllWhiteSpace(s[..|s| - |r|])
    ensures r != [] ==> !IsWhiteSpace(r[0])
  {
    if s != [] && IsWhiteSpace(s[0]) then
      var r := TrimStart(s[1..]);
      assert s[..|s| - |r|] == [s[0]] + s[1..][..|s| - 1 - |r|];
      r
    else s
  }

  /** Trailing white space removed. */
  function TrimEnd(s: string): (r: string)
    ensures |r| <= |s| && r == s[..|r|]
    ensures AllWhiteSpace(s[|r|..])
    ensures r != [] ==> !IsWhiteSpace(r[|r| - 1])
  {
    if s != [] && IsWhiteSpace(s[|s| - 1]) then
      var r := TrimEnd(s[..|s| - 1]);
      assert s[|r|..] == s[..|s| - 1][|r|..] + [s[|s| - 1]];
      r
    else s
  }

  /** `String.prototype.trim` */
  function Trim(s: string): string
  {
    TrimEnd(TrimStart(s))
  }

  /**
    Cutting white space off the front of `s` to get `t`, then off the back
    of `t` to get `r`, leaves a slice of `s` with only white space around it.
   */
  lemma CutBothEnds(s: string, t: string, r: string)
    requires |t| <= |s| && t == s[|s| - |t|..] && AllWhiteSpace(s[..|s| - |t|])
    requires |r| <= |t| && r == t[..|r|] && AllWhiteSpace(t[|r|..])
    ensures exists i, j :: 0 <= i <= j <= |s| && r == s[i..j] && AllWhiteSpace(s[..i]) && AllWhiteSpace(s[j..])
  {
    var i, j := |s| - |t|, |s| - |t| + |r|;
    assert r == s[i..j];
    assert t[|r|..] == s[j..];
  }

  /**
    `trim` returns the middle of its input, cut after the leading white
    space and before the trailing white space: what it removes is all
    white space.
   */
  lemma TrimSpec(s: string)
    ensures exists i, j :: 0 <= i <= j <= |s| && Trim(s) == s[i..j] && AllWhiteSpace(s[..i]) && AllWhiteSpace(s[j..])
  {
    var t := TrimStart(s);
    CutBothEnds(s, t, TrimEnd(t));
  }

  /** What `trim` keeps neither starts nor ends with white space. */
  lemma TrimEnds(s: string)
    ensures Trim(s) != [] ==> !IsWhiteSpace(Trim(s)[0]) && !IsWhiteSpace(Trim(s)[|Trim(s)| - 1])
  {
  }

  /** The trimmed text is empty exactly when the input is all white space. */
  lemma TrimEmpty(s: string)
    ensures Trim(s) == [] <==> AllWhiteSpace(s)
  {
    var t := TrimStart(s);
    if Trim(s) == [] {
      assert t[|Trim(s)|..] == t;
      assert |t| == 0;
      assert s[..|s|] == s;
    }
  }

  /** Trimming twice is trimming once. */
  lemma TrimIdempotent(s: string)
    ensures Trim(Trim(s)) == Trim(s)
  {
    TrimEnds(s);
  }
}
