/**
 * String primitives the form schemas are built on: JavaScript's notion of
 * whitespace and `String.prototype.trim`, the UTF-16 `.length` that zod's
 * `min`/`max` checks compare, and the ASCII character classes of the two
 * regular expressions in the sign-up schema.
 */
module Text {

  /** A character that JavaScript's `trim` removes: WhiteSpace or LineTerminator
      in the sense of the ECMAScript standard (section 12.2 and 12.3 of ECMA-262). */
  predicate IsWhitespace(c: char) {
    var n := c as int;
    n == 0x09 || n == 0x0A || n == 0x0B || n == 0x0C || n == 0x0D || n == 0x20
    || n == 0xA0 || n == 0x1680 || (0x2000 <= n <= 0x200A)
    || n == 0x2028 || n == 0x2029 || n == 0x202F || n == 0x205F
    || n == 0x3000 || n == 0xFEFF
  }

  /** The characters a regular-expression `.` does not match. */
  predicate IsLineTerminator(c: char) {
    c == '\n' || c == '\r' || c as int == 0x2028 || c as int == 0x2029
  }

  predicate IsAsciiLower(c: char) { 'a' <= c <= 'z' }
  predicate IsAsciiUpper(c: char) { 'A' <= c <= 'Z' }
  predicate IsAsciiDigit(c: char) { '0' <= c <= '9' }

  /** The class `[a-zA-Z0-9_]`. */
  predicate IsWordChar(c: char) {
    IsAsciiLower(c) || IsAsciiUpper(c) || IsAsciiDigit(c) || c == '_'
  }

  predicate AllWhitespace(s: string) {
    forall i :: 0 <= i < |s| ==> IsWhitespace(s[i])
  }

  /** The number of UTF-16 code units of `s`, which is what JavaScript's
      `.length` reports: characters outside the Basic Multilingual Plane
      take two. */
  function Utf16Length(s: string): (n: nat)
    ensures |s| <= n <= 2 * |s|
    ensures n == 0 <==> s == []
  {
    if s == [] then 0
    else (if s[0] as int > 0xFFFF then 2 else 1) + Utf16Length(s[1..])
  }

  /** On text made only of Basic Multilingual Plane characters (all of ASCII
      among them) the UTF-16 length is the number of characters. */
  lemma {:induction false} Utf16LengthOfBmp(s: string)
    requires forall i :: 0 <= i < |s| ==> s[i] as int <= 0xFFFF
    ensures Utf16Length(s) == |s|
  {
    if s != [] {
      Utf16LengthOfBmp(s[1..]);
    }
  }

  /** `s` with its leading whitespace removed; what is removed is a prefix made
      only of whitespace and what is left starts with a non-whitespace character. */
  function TrimStart(s: string): (r: string)
    ensures |r| <= |s| && r == s[|s| - |r|..]
    ensures r != [] ==> !IsWhitespace(r[0])
    ensures forall i :: 0 <= i < |s| - |r| ==> IsWhitespace(s[i])
  {
    if s != [] && IsWhitespace(s[0]) then TrimStart(s[1..]) else s
  }

  /** `s` with its trailing whitespace removed. */
  function TrimEnd(s: string): (r: string)
    ensures |r| <= |s| && r == s[..|r|]
    ensures r != [] ==> !IsWhitespace(r[|r| - 1])
    ensures forall i :: |r| <= i < |s| ==> IsWhitespace(s[i])
  {
    if s != [] && IsWhitespace(s[|s| - 1]) then TrimEnd(s[..|s| - 1]) else s
  }

  /** JavaScript's `trim`, which zod's `.trim()` applies before the checks that follow it:
      the longest infix of `s` that neither starts nor ends with whitespace. */
  function Trim(s: string): (r: string)
    ensures |r| <= |s|
    ensures r != [] ==> !IsWhitespace(r[0]) && !IsWhitespace(r[|r| - 1])
    ensures r == [] <==> AllWhitespace(s)
    ensures s != [] && !IsWhitespace(s[0]) && !IsWhitespace(s[|s| - 1]) ==> r == s
  {
    var t := TrimStart(s);
    var r := TrimEnd(t);
    assert r == [] ==> AllWhitespace(s) by {
      if r == [] {
        assert t == [];
      }
    }
    assert r != [] ==> r[0] == t[0];
    r
  }

  /** `s[i..j]` lies between a prefix and a suffix of `s` made only of whitespace. */
  predicate BetweenWhitespace(s: string, i: nat, j: nat) {
    && i <= j <= |s|
    && (forall k :: 0 <= k < i ==> IsWhitespace(s[k]))
    && (forall k :: j <= k < |s| ==> IsWhitespace(s[k]))
  }

  /** What `trim` returns is an infix of `s` after a whitespace prefix and
      before a whitespace suffix. */
  lemma TrimIsInfix(s: string)
    ensures exists i: nat, j: nat :: BetweenWhitespace(s, i, j) && Trim(s) == s[i..j]
  {
    var t := TrimStart(s);
    var i := |s| - |t|;
    var r := TrimEnd(t);
    InfixOfTail(s, t, r);
    InfixWitness(s, r, i, i + |r|);
  }

  /** A concrete infix between whitespace witnesses that one exists. */
  lemma InfixWitness(s: string, r: string, i: nat, j: nat)
    requires BetweenWhitespace(s, i, j) && r == s[i..j]
    ensures exists i': nat, j': nat :: BetweenWhitespace(s, i', j') && r == s[i'..j']
  {
  }

  /** A prefix `r` of a suffix `t` of `s`, where only whitespace precedes `t` in `s`
      and only whitespace follows `r` in `t`, lies between whitespace in `s`. */
  lemma InfixOfTail(s: string, t: string, r: string)
    requires |t| <= |s| && t == s[|s| - |t|..]
    requires forall k :: 0 <= k < |s| - |t| ==> IsWhitespace(s[k])
    requires |r| <= |t| && r == t[..|r|]
    requires forall k :: |r| <= k < |t| ==> IsWhitespace(t[k])
    ensures BetweenWhitespace(s, |s| - |t|, |s| - |t| + |r|)
    ensures r == s[|s| - |t|..|s| - |t| + |r|]
  {
    var i := |s| - |t|;
    forall k | i + |r| <= k < |s|
      ensures IsWhitespace(s[k])
    {
      assert s[k] == t[k - i];
    }
  }

  /** Conversely, cutting a whitespace prefix and a whitespace suffix off `s`
      so that what remains neither starts nor ends with whitespace gives
      exactly what `trim` returns: there is only one such infix. */
  lemma TrimUnique(s: string, i: nat, j: nat)
    requires BetweenWhitespace(s, i, j)
    requires i < j ==> !IsWhitespace(s[i]) && !IsWhitespace(s[j - 1])
    ensures Trim(s) == s[i..j]
  {
    if i < j {
      TrimStartAt(s, i);
      TrimEndOfTail(s, i, j);
    } else {
      AllWhitespaceSplit(s, i);
    }
  }

  /** Trimming the end of `s[i..]` stops at the last non-whitespace character of `s`. */
  lemma TrimEndOfTail(s: string, i: nat, j: nat)
    requires i < j <= |s| && !IsWhitespace(s[j - 1])
    requires forall k :: j <= k < |s| ==> IsWhitespace(s[k])
    ensures TrimEnd(s[i..]) == s[i..j]
  {
    var t := s[i..];
    forall k | j - i <= k < |t|
      ensures IsWhitespace(t[k])
    {
      assert t[k] == s[i + k];
    }
    TrimEndAt(t, j - i);
    assert t[..j - i] == s[i..j];
  }

  /** A string whose every character before and from `i` is whitespace is all whitespace. */
  lemma AllWhitespaceSplit(s: string, i: nat)
    requires i <= |s|
    requires forall k :: 0 <= k < i ==> IsWhitespace(s[k])
    requires forall k :: i <= k < |s| ==> IsWhitespace(s[k])
    ensures Trim(s) == s[i..i]
  {
    assert AllWhitespace(s) by {
      forall k | 0 <= k < |s|
        ensures IsWhitespace(s[k])
      {
        if k < i {
          assert IsWhitespace(s[k]);
        }
      }
    }
  }

  /** Leading whitespace up to the first other character is what `TrimStart` removes. */
  lemma {:induction false} TrimStartAt(s: string, i: nat)
    requires i < |s| && !IsWhitespace(s[i])
    requires forall k :: 0 <= k < i ==> IsWhitespace(s[k])
    ensures TrimStart(s) == s[i..]
  {
    if i > 0 {
      assert IsWhitespace(s[0]);
      TrimStartAt(s[1..], i - 1);
      assert s[1..][i - 1..] == s[i..];
    }
  }

  /** Trailing whitespace back to the last other character is what `TrimEnd` removes. */
  lemma {:induction false} TrimEndAt(t: string, j: nat)
    requires 0 < j <= |t| && !IsWhitespace(t[j - 1])
    requires forall k :: j <= k < |t| ==> IsWhitespace(t[k])
    ensures TrimEnd(t) == t[..j]
    decreases |t| - j
  {
    if j < |t| {
      assert IsWhitespace(t[|t| - 1]);
      var u := t[..|t| - 1];
      TrimEndAt(u, j);
      assert u[..j] == t[..j];
    }
  }

  /** Trimming again changes nothing. */
  lemma TrimIdempotent(s: string)
    ensures Trim(Trim(s)) == Trim(s)
  {
  }

  /** Some character of `s` is in the class `cls`. */
  predicate Contains(s: string, cls: char -> bool) {
    exists i :: 0 <= i < |s| && cls(s[i])
  }

  /** The part of `s` before its first line terminator. */
  function FirstLine(s: string): (r: string)
    ensures |r| <= |s| && r == s[..|r|]
    ensures forall i :: 0 <= i < |r| ==> !IsLineTerminator(s[i])
    ensures |r| < |s| ==> IsLineTerminator(s[|r|])
  {
    if s == [] || IsLineTerminator(s[0]) then [] else [s[0]] + FirstLine(s[1..])
  }

  /** The anchored lookahead `^(?=.*[cls])`: some character of the class is
      reached from the start through characters that `.` matches. */
  predicate LookaheadFinds(s: string, cls: char -> bool) {
    exists i :: 0 <= i < |s| && cls(s[i]) && forall k :: 0 <= k < i ==> !IsLineTerminator(s[k])
  }

  /** The lookahead looks at the first line only, and there it finds any
      character of the class wherever it is. */
  lemma LookaheadFindsInFirstLine(s: string, cls: char -> bool)
    requires forall c :: cls(c) ==> !IsLineTerminator(c)
    ensures LookaheadFinds(s, cls) <==> Contains(FirstLine(s), cls)
  {
    var r := FirstLine(s);
    if LookaheadFinds(s, cls) {
      var i :| 0 <= i < |s| && cls(s[i]) && forall k :: 0 <= k < i ==> !IsLineTerminator(s[k]);
      assert i < |r| by {
        if |r| < |s| {
          assert IsLineTerminator(s[|r|]);
        }
      }
      assert r[i] == s[i];
    }
    if Contains(r, cls) {
      var i :| 0 <= i < |r| && cls(r[i]);
      assert s[i] == r[i];
    }
  }
}
