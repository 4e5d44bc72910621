/** The JavaScript string operations the core relies on, on Dafny strings (sequences of Unicode
    scalar values): `trim`, ASCII case folding as done by a regular expression with the `i` flag
    and no `u` flag, substring search, `toLowerCase` on ASCII words, and `length`, which counts
    UTF-16 code units. */
module JsText {

  /** WhiteSpace and LineTerminator code points of ECMAScript (what `String.prototype.trim` strips). */
  predicate IsJsWhitespace(c: char) {
    var n := c as int;
    || 0x09 <= n <= 0x0D                // tab, line feed, vertical tab, form feed, carriage return
    || n == 0x20 || n == 0xA0 || n == 0x1680
    || 0x2000 <= n <= 0x200A
    || n == 0x2028 || n == 0x2029       // line and paragraph separators
    || n == 0x202F || n == 0x205F || n == 0x3000
    || n == 0xFEFF                      // byte order mark
  }

  predicate AllWhitespace(s: string) {
    forall i :: 0 <= i < |s| ==> IsJsWhitespace(s[i])
  }

  function TrimStart(s: string): (r: string)
    ensures |r| <= |s| && r == s[|s| - |r|..]
    ensures AllWhitespace(s[..|s| - |r|])
    ensures r != [] ==> !IsJsWhitespace(r[0])
  {
    if s != [] && IsJsWhitespace(s[0]) then
      var r := TrimStart(s[1..]);
      assert s[..|s| - |r|] == [s[0]] + s[1..][..|s| - 1 - |r|];
      r
    else s
  }

  function TrimEnd(s: string): (r: string)
    ensures |r| <= |s| && r == s[..|r|]
    ensures AllWhitespace(s[|r|..])
    ensures r != [] ==> !IsJsWhitespace(r[|r| - 1])
  {
    if s != [] && IsJsWhitespace(s[|s| - 1]) then
      var r := TrimEnd(s[..|s| - 1]);
      assert s[|r|..] == s[..|s| - 1][|r|..] + [s[|s| - 1]];
      r
    else s
  }

  /** `s.trim()`: s with its leading and trailing white space removed. */
  function Trim(s: string): string
  {
    TrimEnd(TrimStart(s))
  }

  /** Leading white space does not change what trimming leaves. */
  lemma {:induction false} TrimSkipsLeadingWhitespace(w: string, s: string)
    requires AllWhitespace(w)
    ensures Trim(w + s) == Trim(s)
    decreases |w|
  {
    if w != [] {
      assert (w + s)[1..] == w[1..] + s;
      TrimSkipsLeadingWhitespace(w[1..], s);
    } else {
      assert w + s == s;
    }
  }

  /** Trimming twice is trimming once. */
  lemma TrimIdempotent(s: string)
    ensures Trim(Trim(s)) == Trim(s)
  {
    TrimKeepsNoEdgeSpace(s);
    var t := Trim(s);
    assert TrimStart(t) == t;
    assert TrimEnd(t) == t;
  }

  /** Trim cuts s into white space, a middle part and white space; the middle part is the result. */
  lemma TrimIsMiddle(s: string)
    ensures exists i, j ::
      0 <= i <= j <= |s| && Trim(s) == s[i..j] && AllWhitespace(s[..i]) && AllWhitespace(s[j..])
  {
    var t := TrimStart(s);
    var i := |s| - |t|;
    var u := TrimEnd(t);
    var j := i + |u|;
    assert s[i..j] == t[..|u|];
    assert s[j..] == t[|u|..];
  }

  /** The trimmed text neither starts nor ends with white space. */
  lemma TrimKeepsNoEdgeSpace(s: string)
    ensures Trim(s) != [] ==> !IsJsWhitespace(Trim(s)[0]) && !IsJsWhitespace(Trim(s)[|Trim(s)| - 1])
  {
    var t := TrimStart(s);
    var r := Trim(s);
    if r != [] {
      assert r[0] == t[0];
    }
  }

  /** Text is empty after trimming exactly when it was white space only. */
  lemma TrimEmptyIffBlank(s: string)
    ensures Trim(s) == [] <==> AllWhitespace(s)
  {
    var t := TrimStart(s);
    if t == [] {
      assert s[..|s| - |t|] == s;
    } else {
      assert !IsJsWhitespace(s[|s| - |t|]);
    }
  }

  function LowerAscii(c: char): char
  {
    if 'A' <= c <= 'Z' then (c as int + 32) as char else c
  }

  function UpperAscii(c: char): char
  {
    if 'a' <= c <= 'z' then (c as int - 32) as char else c
  }

  /** ASCII lower-casing of a whole string, position by position. */
  function LowerAsciiString(s: string): (r: string)
    ensures |r| == |s|
    ensures forall i :: 0 <= i < |s| ==> r[i] == LowerAscii(s[i])
  {
    if s == [] then [] else [LowerAscii(s[0])] + LowerAsciiString(s[1..])
  }

  function UpperAsciiString(s: string): (r: string)
    ensures |r| == |s|
    ensures forall i :: 0 <= i < |s| ==> r[i] == UpperAscii(s[i])
  {
    if s == [] then [] else [UpperAscii(s[0])] + UpperAsciiString(s[1..])
  }

  /** Two strings that differ only in the case of ASCII letters fold to the same string. */
  lemma CaseFoldAgrees(s: string)
    ensures LowerAsciiString(LowerAsciiString(s)) == LowerAsciiString(s)
    ensures LowerAsciiString(UpperAsciiString(s)) == LowerAsciiString(s)
  {
  }

  predicate IsPrefix(p: string, s: string) {
    |p| <= |s| && s[..|p|] == p
  }

  /** p occurs in s starting at position i. */
  predicate OccursAt(s: string, p: string, i: int) {
    0 <= i && i + |p| <= |s| && s[i..i + |p|] == p
  }

  /** `s.includes(p)`, equivalently an unanchored match of a regular expression made of literal
      characters only: p occurs at some position of s. */
  predicate Contains(s: string, p: string)
    decreases |s|
  {
    IsPrefix(p, s) || (s != [] && Contains(s[1..], p))
  }

  /** Contains means: there is a position at which p occurs. */
  lemma {:induction false} ContainsIffOccurs(s: string, p: string)
    ensures Contains(s, p) <==> exists i :: OccursAt(s, p, i)
    decreases |s|
  {
    if s == [] {
      if IsPrefix(p, s) {
        assert OccursAt(s, p, 0);
      }
      if i :| OccursAt(s, p, i) {
        assert IsPrefix(p, s);
      }
    } else {
      ContainsIffOccurs(s[1..], p);
      if Contains(s[1..], p) {
        var i :| OccursAt(s[1..], p, i);
        assert s[i + 1..i + 1 + |p|] == s[1..][i..i + |p|];
        assert OccursAt(s, p, i + 1);
      }
      if IsPrefix(p, s) {
        assert OccursAt(s, p, 0);
      }
      if i :| OccursAt(s, p, i) {
        if i > 0 {
          assert s[1..][i - 1..i - 1 + |p|] == s[i..i + |p|];
          assert OccursAt(s[1..], p, i - 1);
        } else {
          assert IsPrefix(p, s);
        }
      }
    }
  }

  /** An occurrence in s is an occurrence in every string that contains s. */
  lemma ContainsInSuperstring(s: string, p: string, before: string, after: string)
    requires Contains(s, p)
    ensures Contains(before + s + after, p)
  {
    ContainsIffOccurs(s, p);
    var i :| OccursAt(s, p, i);
    var t := before + s + after;
    assert t[|before| + i..|before| + i + |p|] == s[i..i + |p|];
    assert OccursAt(t, p, |before| + i);
    ContainsIffOccurs(t, p);
  }

  /** A regular expression literal with the `i` flag and no `u` flag, built only from ASCII
      characters, matches a character of the subject exactly when the two agree after ASCII
      case folding (the non-Unicode canonicalisation never folds a non-ASCII character onto
      an ASCII one). */
  predicate ContainsIgnoreCase(s: string, p: string) {
    Contains(LowerAsciiString(s), LowerAsciiString(p))
  }

  lemma {:induction false} LowerAsciiConcat(a: string, b: string)
    ensures LowerAsciiString(a + b) == LowerAsciiString(a) + LowerAsciiString(b)
    decreases |a|
  {
    if a == [] {
      assert a + b == b;
    } else {
      assert (a + b)[1..] == a[1..] + b;
      LowerAsciiConcat(a[1..], b);
    }
  }

  /** Every string contains itself. */
  lemma ContainsItself(p: string)
    ensures ContainsIgnoreCase(p, p)
  {
    var lp := LowerAsciiString(p);
    assert lp[..|lp|] == lp;
  }

  /** An unanchored case-insensitive match in s is one in every string that contains s. */
  lemma ContainsIgnoreCaseInSuperstring(s: string, p: string, before: string, after: string)
    requires ContainsIgnoreCase(s, p)
    ensures ContainsIgnoreCase(before + s + after, p)
  {
    LowerAsciiConcat(before, s);
    LowerAsciiConcat(before + s, after);
    ContainsInSuperstring(LowerAsciiString(s), LowerAsciiString(p), LowerAsciiString(before), LowerAsciiString(after));
  }

  /** Changing the case of ASCII letters in the subject never changes a case-insensitive match. */
  lemma ContainsIgnoreCaseFolds(s: string, p: string)
    ensures ContainsIgnoreCase(LowerAsciiString(s), p) == ContainsIgnoreCase(s, p)
    ensures ContainsIgnoreCase(UpperAsciiString(s), p) == ContainsIgnoreCase(s, p)
  {
    CaseFoldAgrees(s);
  }

  /** `length` of a JavaScript string: code points above U+FFFF take two UTF-16 code units. */
  function Utf16Length(s: string): (n: nat)
    ensures |s| <= n <= 2 * |s|
  {
    if s == [] then 0 else (if s[0] as int > 0xFFFF then 2 else 1) + Utf16Length(s[1..])
  }
}
