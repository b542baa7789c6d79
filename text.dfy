/**
 * The string operations the value objects rely on: `String.prototype.trim`, the ASCII part of
 * `String.prototype.toLowerCase`, and the character classes `\s` and `\d` of the regular
 * expressions in the value objects.
 */
module Text {

  /**
   * ECMAScript WhiteSpace and LineTerminator: the characters `trim` removes and `\s` matches.
   */
  predicate IsWhitespace(c: char) {
    || c == ' ' || c == '\t' || c == '\n' || c == '\r'
    || c == '\U{000B}' || c == '\U{000C}' || c == '\U{00A0}' || c == '\U{1680}'
    || ('\U{2000}' <= c <= '\U{200A}')
    || c == '\U{2028}' || c == '\U{2029}' || c == '\U{202F}' || c == '\U{205F}'
    || c == '\U{3000}' || c == '\U{FEFF}'
  }

  /** `\d` */
  predicate IsDigit(c: char) {
    '0' <= c <= '9'
  }

  /** Neither end of `s` is whitespace. */
  predicate IsTrimmed(s: string) {
    |s| == 0 || (!IsWhitespace(s[0]) && !IsWhitespace(s[|s| - 1]))
  }

  /**
   * `s.trim()`: whitespace is dropped from the front, then from the back, until neither end is
   * whitespace.
   */
  function Trim(s: string): (r: string)
    ensures IsTrimmed(r) && |r| <= |s|
    decreases |s|
  {
    if |s| > 0 && IsWhitespace(s[0]) then Trim(s[1..])
    else if |s| > 0 && IsWhitespace(s[|s| - 1]) then Trim(s[..|s| - 1])
    else s
  }

  /** How many characters `trim` drops from the front of `s`. */
  function TrimOffset(s: string): nat
    decreases |s|
  {
    if |s| > 0 && IsWhitespace(s[0]) then 1 + TrimOffset(s[1..])
    else if |s| > 0 && IsWhitespace(s[|s| - 1]) then TrimOffset(s[..|s| - 1])
    else 0
  }

  /** Everything before and after the trimmed infix at `TrimOffset(s)` is whitespace. */
  predicate TrimmedAt(s: string, r: string, k: int) {
    && 0 <= k <= |s| - |r| && r == s[k..k + |r|]
    && (forall i :: 0 <= i < k ==> IsWhitespace(s[i]))
    && (forall i :: k + |r| <= i < |s| ==> IsWhitespace(s[i]))
  }

  lemma {:induction false} TrimIsTrimmedAt(s: string)
    ensures TrimmedAt(s, Trim(s), TrimOffset(s))
    decreases |s|
  {
    if |s| > 0 && IsWhitespace(s[0]) {
      TrimIsTrimmedAt(s[1..]);
      TrimmedAtFront(s, Trim(s[1..]), TrimOffset(s[1..]));
    } else if |s| > 0 && IsWhitespace(s[|s| - 1]) {
      TrimIsTrimmedAt(s[..|s| - 1]);
      TrimmedAtBack(s, Trim(s[..|s| - 1]), TrimOffset(s[..|s| - 1]));
    } else {
      assert s[0..0 + |s|] == s;
    }
  }

  lemma TrimmedAtFront(s: string, r: string, k: int)
    requires |s| > 0 && IsWhitespace(s[0]) && TrimmedAt(s[1..], r, k)
    ensures TrimmedAt(s, r, k + 1)
  {
    assert r == s[k + 1..k + 1 + |r|];
    assert forall i :: 0 < i < |s| ==> s[i] == s[1..][i - 1];
  }

  lemma TrimmedAtBack(s: string, r: string, k: int)
    requires |s| > 0 && IsWhitespace(s[|s| - 1]) && TrimmedAt(s[..|s| - 1], r, k)
    ensures TrimmedAt(s, r, k)
  {
    assert r == s[k..k + |r|];
    assert forall i :: 0 <= i < |s| - 1 ==> s[i] == s[..|s| - 1][i];
  }

  /**
   * What `trim` removes is whitespace and nothing else: the result is an infix of `s` with only
   * whitespace before and after it.
   */
  lemma TrimRemovesOnlyWhitespace(s: string)
    ensures exists k :: TrimmedAt(s, Trim(s), k)
  {
    TrimIsTrimmedAt(s);
  }

  /** A string with no whitespace at its ends is left alone by `trim`. */
  lemma TrimKeepsTrimmed(s: string)
    requires IsTrimmed(s)
    ensures Trim(s) == s
  {
  }

  /** `trim` is idempotent. */
  lemma TrimIdempotent(s: string)
    ensures Trim(Trim(s)) == Trim(s)
  {
    TrimKeepsTrimmed(Trim(s));
  }

  /** ASCII lower-casing of one character. */
  function LowerChar(c: char): char {
    if 'A' <= c <= 'Z' then (c as int + 32) as char else c
  }

  /** `s.toLowerCase()` on ASCII letters: same length, each character lower-cased. */
  function ToLower(s: string): (r: string)
    ensures |r| == |s|
    ensures forall i :: 0 <= i < |s| ==> r[i] == LowerChar(s[i])
  {
    if s == [] then [] else [LowerChar(s[0])] + ToLower(s[1..])
  }

  /** A string is lower case when lower-casing leaves it unchanged. */
  predicate IsLower(s: string) {
    forall i :: 0 <= i < |s| ==> LowerChar(s[i]) == s[i]
  }

  lemma {:induction false} ToLowerIsLower(s: string)
    ensures IsLower(ToLower(s))
    ensures IsLower(s) ==> ToLower(s) == s
  {
    var r := ToLower(s);
    forall i | 0 <= i < |r|
      ensures LowerChar(r[i]) == r[i]
    {
      assert r[i] == LowerChar(s[i]);
    }
  }

  /** Lower-casing neither creates nor removes whitespace, so it keeps a trimmed string trimmed. */
  lemma ToLowerKeepsTrimmed(s: string)
    requires IsTrimmed(s)
    ensures IsTrimmed(ToLower(s))
  {
  }

  /** The first position of `c` in `s`. */
  function IndexOf(s: string, c: char): (k: nat)
    requires c in s
    ensures k < |s| && s[k] == c && c !in s[..k]
  {
    if s[0] == c then 0 else 1 + IndexOf(s[1..], c)
  }

  /** The first occurrence of `c` is found right after a prefix that does not contain it. */
  lemma {:induction false} IndexOfAfterPrefix(a: string, c: char, b: string)
    requires c !in a
    ensures c in a + [c] + b && IndexOf(a + [c] + b, c) == |a|
  {
    if a != [] {
      assert (a + [c] + b)[1..] == a[1..] + [c] + b;
      IndexOfAfterPrefix(a[1..], c, b);
    }
  }
}
