/** The few pieces of Python string behaviour the digest code relies on. */
module Text {

  function DigitChar(d: nat): char
    requires d < 10
  {
    "0123456789"[d]
  }

  /** `str(n)` for `n >= 0`. */
  function NatToString(n: nat): (s: string)
    ensures |s| > 0
    ensures n < 10 ==> s == [DigitChar(n)]
  {
    if n < 10 then [DigitChar(n)] else NatToString(n / 10) + [DigitChar(n % 10)]
  }

  /** `str(i)`, also for negative `i` (`f"{day}"`). */
  function IntToString(i: int): string {
    if i < 0 then "-" + NatToString(-i) else NatToString(i)
  }

  /** `needle in haystack` for strings: a contiguous occurrence; the empty string occurs everywhere. */
  predicate Contains(haystack: string, needle: string)
    decreases |haystack|
  {
    |needle| <= |haystack| && (haystack[..|needle|] == needle || Contains(haystack[1..], needle))
  }

  predicate OccursAt(haystack: string, needle: string, i: int) {
    0 <= i && i + |needle| <= |haystack| && haystack[i..i + |needle|] == needle
  }

  /** `Contains` holds exactly when the needle occurs at some position. */
  lemma {:induction false} ContainsAt(haystack: string, needle: string)
    ensures Contains(haystack, needle) <==> exists i :: OccursAt(haystack, needle, i)
  {
    if Contains(haystack, needle) {
      ContainsOccurs(haystack, needle);
    }
    if i :| OccursAt(haystack, needle, i) {
      OccursContains(haystack, needle, i);
    }
  }

  lemma {:induction false} ContainsOccurs(haystack: string, needle: string)
    requires Contains(haystack, needle)
    ensures exists i :: OccursAt(haystack, needle, i)
    decreases |haystack|
  {
    if haystack[..|needle|] == needle {
      assert OccursAt(haystack, needle, 0);
    } else {
      var tail := haystack[1..];
      ContainsOccurs(tail, needle);
      var i :| OccursAt(tail, needle, i);
      assert haystack[i + 1..i + 1 + |needle|] == tail[i..i + |needle|];
      assert OccursAt(haystack, needle, i + 1);
    }
  }

  lemma {:induction false} OccursContains(haystack: string, needle: string, i: int)
    requires OccursAt(haystack, needle, i)
    ensures Contains(haystack, needle)
    decreases i
  {
    if i > 0 {
      var tail := haystack[1..];
      var a, b := tail[i - 1..i - 1 + |needle|], haystack[i..i + |needle|];
      assert forall k | 0 <= k < |a| :: a[k] == b[k];
      assert a == b;
      OccursContains(tail, needle, i - 1);
    }
  }

  function LowerChar(c: char): char {
    if 'A' <= c <= 'Z' then (c as int + 32) as char else c
  }

  /** `s.lower()` on ASCII letters. */
  function Lower(s: string): (r: string)
    ensures |r| == |s|
  {
    seq(|s|, i requires 0 <= i < |s| => LowerChar(s[i]))
  }

  function UpperChar(c: char): char {
    if 'a' <= c <= 'z' then (c as int - 32) as char else c
  }

  predicate IsLetter(c: char) {
    'a' <= c <= 'z' || 'A' <= c <= 'Z'
  }

  /** `s.replace(a, b)` for single characters. */
  function ReplaceChar(s: string, a: char, b: char): (r: string)
    ensures |r| == |s|
  {
    seq(|s|, i requires 0 <= i < |s| => if s[i] == a then b else s[i])
  }

  /**
    `s.title()` on ASCII: a letter is upper-cased when the character before it
    is not a letter, and lower-cased otherwise.
   */
  function Title(s: string): (r: string)
    ensures |r| == |s|
  {
    seq(|s|, i requires 0 <= i < |s| =>
      if i > 0 && IsLetter(s[i - 1]) then LowerChar(s[i]) else UpperChar(s[i]))
  }

  /** `sep.join(lines)` */
  function Join(lines: seq<string>, sep: string): string {
    if lines == [] then ""
    else if |lines| == 1 then lines[0]
    else lines[0] + sep + Join(lines[1..], sep)
  }

  lemma JoinStartsWith(lines: seq<string>, sep: string)
    requires lines != []
    ensures lines[0] <= Join(lines, sep)
  {
  }
}
