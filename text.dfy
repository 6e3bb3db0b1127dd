/** String primitives the pages rely on: the ECMAScript whitespace set (shared
    by `String.prototype.trim` and the regular-expression class `\s`), `trim`,
    `toLowerCase` restricted to ASCII, and `includes`. */
module Text {

  /** ECMAScript WhiteSpace and LineTerminator code points: exactly the
      characters `\s` matches and `trim` removes. */
  predicate IsSpace(c: char)
  {
    || c == ' ' || c == '\t' || c == '\n' || c == '\r'
    || c == '\U{B}' || c == '\U{C}'
    || c == '\U{A0}' || c == '\U{1680}'
    || ('\U{2000}' <= c <= '\U{200A}')
    || c == '\U{2028}' || c == '\U{2029}' || c == '\U{202F}'
    || c == '\U{205F}' || c == '\U{3000}' || c == '\U{FEFF}'
  }

  /** `!s.trim()`: every character of s is whitespace (the empty string
      included), which is exactly when `Trim(s)` is empty. */
  predicate IsBlank(s: string)
  {
    forall k | 0 <= k < |s| :: IsSpace(s[k])
  }

  /** The number of whitespace characters at the start of s. */
  function LeadingSpaces(s: string): (n: nat)
    ensures n <= |s|
    ensures forall k :: 0 <= k < n ==> IsSpace(s[k])
    ensures n < |s| ==> !IsSpace(s[n])
  {
    if s != [] && IsSpace(s[0]) then 1 + LeadingSpaces(s[1..]) else 0
  }

  /** The number of whitespace characters at the end of s. */
  function TrailingSpaces(s: string): (n: nat)
    ensures n <= |s|
    ensures forall k :: |s| - n <= k < |s| ==> IsSpace(s[k])
    ensures n < |s| ==> !IsSpace(s[|s| - n - 1])
  {
    if s != [] && IsSpace(s[|s| - 1]) then 1 + TrailingSpaces(s[..|s| - 1]) else 0
  }

  /** Where `s.trim()` ends in s: past the last non-whitespace character, or
      at the end when s is all whitespace. */
  function TrimEndIndex(s: string): (hi: nat)
    ensures LeadingSpaces(s) <= hi <= |s|
    ensures forall k :: hi <= k < |s| ==> IsSpace(s[k])
    ensures LeadingSpaces(s) < hi ==> !IsSpace(s[hi - 1])
  {
    var lo, n := LeadingSpaces(s), TrailingSpaces(s);
    if lo == |s| then |s|
    else
      |s| - n
  }

  /** `s.trim()`: the slice between the leading and the trailing whitespace.
      It is empty exactly when s is all whitespace, and otherwise begins and
      ends with a non-whitespace character. */
  function Trim(s: string): (r: string)
    ensures r == s[LeadingSpaces(s)..TrimEndIndex(s)]
    ensures r == [] <==> IsBlank(s)
    ensures r != [] ==> !IsSpace(r[0]) && !IsSpace(r[|r| - 1])
  {
    var lo, hi := LeadingSpaces(s), TrimEndIndex(s);
    assert lo < |s| ==> !IsSpace(s[lo]);
    s[lo..hi]
  }

  /** `toLowerCase` on one character, for the ASCII letters only. */
  function LowerChar(c: char): char
  {
    if 'A' <= c <= 'Z' then (c as int + 32) as char else c
  }

  /** `s.toLowerCase()` for ASCII text: each upper-case ASCII letter becomes
      its lower-case letter, 32 code points on; other characters are kept. */
  function Lower(s: string): (r: string)
    ensures |r| == |s|
    ensures forall k :: 0 <= k < |r| ==> !('A' <= r[k] <= 'Z')
    ensures forall k :: 0 <= k < |s| && 'A' <= s[k] <= 'Z' ==> r[k] as int == s[k] as int + 32
    ensures forall k :: 0 <= k < |s| && !('A' <= s[k] <= 'Z') ==> r[k] == s[k]
  {
    seq(|s|, k requires 0 <= k < |s| => LowerChar(s[k]))
  }

  /** Lowering twice is lowering once. */
  lemma LowerIdempotent(s: string)
    ensures Lower(Lower(s)) == Lower(s)
  {
  }

  /** `s.length`: the number of UTF-16 code units, two for each character
      outside the Basic Multilingual Plane (a surrogate pair) and one for
      every other character. */
  function Utf16Length(s: string): (n: nat)
    ensures |s| <= n <= 2 * |s|
    ensures n == 0 <==> s == []
  {
    if s == [] then 0 else Utf16Units(s[0]) + Utf16Length(s[1..])
  }

  /** The code units one character takes in UTF-16. */
  function Utf16Units(c: char): nat
  {
    if c as int >= 0x1_0000 then 2 else 1
  }

  /** The length in code units adds up over concatenation. */
  lemma {:induction false} Utf16LengthAppend(s: string, t: string)
    ensures Utf16Length(s + t) == Utf16Length(s) + Utf16Length(t)
  {
    if s != [] {
      assert (s + t)[0] == s[0] && (s + t)[1..] == s[1..] + t;
      Utf16LengthAppend(s[1..], t);
    } else {
      assert s + t == t;
    }
  }

  /** Text inside the Basic Multilingual Plane has one code unit per
      character. */
  lemma {:induction false} Utf16LengthOfBmp(s: string)
    requires forall k :: 0 <= k < |s| ==> s[k] as int < 0x1_0000
    ensures Utf16Length(s) == |s|
  {
    if s != [] {
      Utf16LengthOfBmp(s[1..]);
    }
  }

  /** Text made only of characters outside the Basic Multilingual Plane has
      two code units per character. */
  lemma {:induction false} Utf16LengthOfAstral(s: string)
    requires forall k :: 0 <= k < |s| ==> s[k] as int >= 0x1_0000
    ensures Utf16Length(s) == 2 * |s|
  {
    if s != [] {
      Utf16LengthOfAstral(s[1..]);
    }
  }

  /** `s.includes(sub)`: sub occurs in s at some offset (always true of ""). */
  predicate Contains(s: string, sub: string)
  {
    exists i | 0 <= i <= |s| :: sub <= s[i..]
  }

  /** Lowering distributes over concatenation. */
  lemma LowerAppend(s: string, t: string)
    ensures Lower(s + t) == Lower(s) + Lower(t)
  {
  }

  /** A string containing `sub + more` contains `sub`. */
  lemma ContainsPrefixOfPattern(s: string, sub: string, more: string)
    requires Contains(s, sub + more)
    ensures Contains(s, sub)
  {
    var i :| 0 <= i <= |s| && sub + more <= s[i..];
    assert sub <= s[i..];
  }
}
