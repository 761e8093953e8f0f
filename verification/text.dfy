/**
 * The character classes and the string trimming that the storefront's
 * parsers and validators use: `\d` and `\s` of a JavaScript regular
 * expression (no `u` flag) and `String.prototype.trim`.
 */
module Text {

  /** `\d`: an ASCII digit. */
  predicate IsDigit(c: char) { '0' <= c <= '9' }

  /**
   * `\s`, which is also what `trim` removes: the ECMAScript WhiteSpace and
   * LineTerminator code points.
   */
  const SpaceChars: set<char> := {
    '\t', '\n', '\U{000B}', '\U{000C}', '\r', ' ', '\U{00A0}', '\U{1680}',
    '\U{2000}', '\U{2001}', '\U{2002}', '\U{2003}', '\U{2004}', '\U{2005}', '\U{2006}',
    '\U{2007}', '\U{2008}', '\U{2009}', '\U{200A}',
    '\U{2028}', '\U{2029}', '\U{202F}', '\U{205F}', '\U{3000}', '\U{FEFF}'
  }

  predicate IsSpace(c: char) { c in SpaceChars }

  predicate AllSpace(s: string)
  {
    forall k :: 0 <= k < |s| ==> IsSpace(s[k])
  }

  /** `trimStart`: the suffix left once the leading white space is removed. */
  function TrimStart(s: string): (r: string)
    ensures |r| <= |s|
  {
    if s != [] && IsSpace(s[0]) then TrimStart(s[1..]) else s
  }

  /** What trimStart removes is white space, and what it keeps does not start with any. */
  lemma {:induction false} TrimStartFacts(s: string)
    ensures var r := TrimStart(s);
      r == s[|s| - |r|..] && (r == [] || !IsSpace(r[0])) && AllSpace(s[..|s| - |r|])
  {
    if s != [] && IsSpace(s[0]) {
      var r := TrimStart(s[1..]);
      TrimStartFacts(s[1..]);
      var cut := |s| - |r|;
      assert s[1..][|s| - 1 - |r|..] == s[cut..];
      forall k | 0 <= k < cut ensures IsSpace(s[..cut][k]) {
        if k > 0 {
          assert s[..cut][k] == s[1..][..cut - 1][k - 1];
        }
      }
    }
  }

  /** `trimEnd`: the prefix left once the trailing white space is removed. */
  function TrimEnd(s: string): (r: string)
    ensures |r| <= |s|
  {
    if s != [] && IsSpace(s[|s| - 1]) then TrimEnd(s[..|s| - 1]) else s
  }

  /** What trimEnd removes is white space, and what it keeps does not end with any. */
  lemma {:induction false} TrimEndFacts(s: string)
    ensures var r := TrimEnd(s);
      r == s[..|r|] && (r == [] || !IsSpace(r[|r| - 1])) && AllSpace(s[|r|..])
  {
    if s != [] && IsSpace(s[|s| - 1]) {
      var init := s[..|s| - 1];
      var r := TrimEnd(init);
      TrimEndFacts(init);
      assert init[..|r|] == s[..|r|];
      forall k | 0 <= k < |s| - |r| ensures IsSpace(s[|r|..][k]) {
        if k < |s| - 1 - |r| {
          assert s[|r|..][k] == init[|r|..][k];
        }
      }
    }
  }

  /** `s.trim()`. */
  function Trim(s: string): string
  {
    TrimEnd(TrimStart(s))
  }

  /** `!s.trim()`: nothing but white space is left. */
  predicate Blank(s: string)
  {
    Trim(s) == ""
  }

  /** The trimmed string neither starts nor ends with white space. */
  lemma TrimEnds(s: string)
    ensures Trim(s) == [] || (!IsSpace(Trim(s)[0]) && !IsSpace(Trim(s)[|Trim(s)| - 1]))
  {
    var t := TrimStart(s);
    TrimStartFacts(s);
    TrimEndFacts(t);
    var r := Trim(s);
    if r != [] {
      assert r[0] == t[0];
    }
  }

  /** The trimmed string is a slice of the original, and everything cut off is white space. */
  lemma TrimSlice(s: string)
    ensures exists i, j :: 0 <= i <= j <= |s| && Trim(s) == s[i..j] && AllSpace(s[..i]) && AllSpace(s[j..])
  {
    var t := TrimStart(s);
    TrimStartFacts(s);
    TrimEndFacts(t);
    var i := |s| - |t|;
    var r := TrimEnd(t);
    var j := i + |r|;
    assert r == s[i..j];
    assert AllSpace(s[j..]) by {
      forall k | 0 <= k < |s| - j ensures IsSpace(s[j..][k]) {
        assert s[j..][k] == t[|r|..][k];
      }
    }
  }

  /** A string is blank exactly when every character is white space. */
  lemma BlankIffAllSpace(s: string)
    ensures Blank(s) <==> AllSpace(s)
  {
    var t := TrimStart(s);
    TrimStartFacts(s);
    TrimEndFacts(t);
    var cut := |s| - |t|;
    if Blank(s) {
      assert t[|TrimEnd(t)|..] == t;
      assert cut == |s|;
      forall k | 0 <= k < |s| ensures IsSpace(s[k]) {
        assert s[k] == s[..cut][k];
      }
    }
  }

  lemma TrimStartClean(s: string)
    requires s == [] || !IsSpace(s[0])
    ensures TrimStart(s) == s
  {
  }

  lemma TrimEndClean(s: string)
    requires s == [] || !IsSpace(s[|s| - 1])
    ensures TrimEnd(s) == s
  {
  }

  /** Trimming twice trims nothing more. */
  lemma TrimIdempotent(s: string)
    ensures Trim(Trim(s)) == Trim(s)
  {
    var r := Trim(s);
    TrimEnds(s);
    TrimStartClean(r);
    TrimEndClean(r);
  }
}
