/**
 * The handful of JavaScript string operations the application relies on:
 * `toLowerCase`, `includes`, `trim`, decimal number formatting and
 * `Array.prototype.join`.
 */
module Strings {

  /** Lowercasing of one character, for the ASCII letters A to Z. */
  function LowerChar(c: char): char
  {
    if 'A' <= c <= 'Z' then (c as int + 32) as char else c
  }

  /** `s.toLowerCase()`, restricted to the ASCII letters. */
  function ToLower(s: string): (r: string)
    ensures |r| == |s|
    ensures forall i :: 0 <= i < |s| ==> r[i] == LowerChar(s[i])
  {
    if |s| == 0 then [] else [LowerChar(s[0])] + ToLower(s[1..])
  }

  /** Lowercasing twice is lowercasing once. */
  lemma ToLowerIdempotent(s: string)
    ensures ToLower(ToLower(s)) == ToLower(s)
  {
  }

  /** `p` is a prefix of `s`. */
  predicate IsPrefix(p: string, s: string)
  {
    |p| <= |s| && s[..|p|] == p
  }

  /** `sub` occurs in `s` starting at position `i`. */
  predicate OccursAt(s: string, sub: string, i: int)
  {
    0 <= i && i + |sub| <= |s| && s[i..i + |sub|] == sub
  }

  /** An occurrence stays an occurrence when something is put in front. */
  lemma OccursAfter(x: string, y: string, sub: string, k: int)
    requires OccursAt(y, sub, k)
    ensures OccursAt(x + y, sub, |x| + k)
  {
    assert (x + y)[|x| + k..|x| + k + |sub|] == y[k..k + |sub|];
  }

  /** `s.includes(sub)`: scans the start positions of `s` from left to right. */
  function Contains(s: string, sub: string): bool
    decreases |s|
  {
    IsPrefix(sub, s) || (|s| > 0 && Contains(s[1..], sub))
  }

  /** The scanning definition of `Contains` agrees with "occurs at some position". */
  lemma {:induction false} ContainsIff(s: string, sub: string)
    ensures Contains(s, sub) <==> exists i :: OccursAt(s, sub, i)
    decreases |s|
  {
    assert OccursAt(s, sub, 0) <==> IsPrefix(sub, s);
    if |s| > 0 {
      ContainsIff(s[1..], sub);
      forall i | OccursAt(s[1..], sub, i)
        ensures OccursAt(s, sub, i + 1)
      {
        assert s[1..][i..i + |sub|] == s[i + 1..i + 1 + |sub|];
      }
      forall i | 1 <= i && OccursAt(s, sub, i)
        ensures OccursAt(s[1..], sub, i - 1)
      {
        assert s[1..][i - 1..i - 1 + |sub|] == s[i..i + |sub|];
      }
    }
  }

  /** The empty string occurs in every string. */
  lemma ContainsEmpty(s: string)
    ensures Contains(s, "")
  {
    assert IsPrefix("", s);
  }

  /**
   * The characters `String.prototype.trim` removes: the ECMAScript WhiteSpace
   * and LineTerminator code points.
   */
  const WhiteSpace: set<char> := {
    '\t', '\n', '\U{000B}', '\U{000C}', '\r', ' ', '\U{00A0}', '\U{1680}',
    '\U{2000}', '\U{2001}', '\U{2002}', '\U{2003}', '\U{2004}', '\U{2005}',
    '\U{2006}', '\U{2007}', '\U{2008}', '\U{2009}', '\U{200A}', '\U{2028}',
    '\U{2029}', '\U{202F}', '\U{205F}', '\U{3000}', '\U{FEFF}'
  }

  predicate IsWhiteSpace(c: char)
  {
    c in WhiteSpace
  }

  predicate AllWhiteSpace(s: string)
  {
    forall i :: 0 <= i < |s| ==> IsWhiteSpace(s[i])
  }

  /** The end of the run of white space that starts at `i`. */
  function SkipForward(s: string, i: nat): (k: nat)
    requires i <= |s|
    ensures i <= k <= |s|
    ensures forall m :: i <= m < k ==> IsWhiteSpace(s[m])
    ensures k < |s| ==> !IsWhiteSpace(s[k])
    decreases |s| - i
  {
    if i < |s| && IsWhiteSpace(s[i]) then SkipForward(s, i + 1) else i
  }

  /** The start of the run of white space that ends at `j`, not going below `lo`. */
  function SkipBackward(s: string, lo: nat, j: nat): (k: nat)
    requires lo <= j <= |s|
    ensures lo <= k <= j
    ensures forall m :: k <= m < j ==> IsWhiteSpace(s[m])
    ensures k > lo ==> !IsWhiteSpace(s[k - 1])
    decreases j
  {
    if j > lo && IsWhiteSpace(s[j - 1]) then SkipBackward(s, lo, j - 1) else j
  }

  /**
   * `s.trim()`: the slice of `s` between its leading and its trailing white
   * space. It neither starts nor ends with white space, everything cut away
   * is white space, and it is empty exactly when `s` is all white space.
   */
  function Trim(s: string): (r: string)
    ensures exists i, j ::
              0 <= i <= j <= |s| && r == s[i..j] && AllWhiteSpace(s[..i]) && AllWhiteSpace(s[j..])
    ensures |r| > 0 ==> !IsWhiteSpace(r[0]) && !IsWhiteSpace(r[|r| - 1])
    ensures r == "" <==> AllWhiteSpace(s)
  {
    var i := SkipForward(s, 0);
    var j := SkipBackward(s, i, |s|);
    assert AllWhiteSpace(s[..i]) && AllWhiteSpace(s[j..]);
    assert i < j ==> !IsWhiteSpace(s[i]);
    s[i..j]
  }

  /** The decimal digit for `d`. */
  function Digit(d: nat): char
    requires d < 10
  {
    "0123456789"[d]
  }

  predicate IsDigit(c: char)
  {
    '0' <= c <= '9'
  }

  /** The value of a decimal digit character. */
  function DigitValue(c: char): nat
    requires IsDigit(c)
  {
    c as int - '0' as int
  }

  /** `n.toString()` for a non-negative integer: its decimal numeral. */
  function NatToString(n: nat): (r: string)
    ensures |r| > 0
    ensures forall i :: 0 <= i < |r| ==> IsDigit(r[i])
  {
    if n < 10 then [Digit(n)] else NatToString(n / 10) + [Digit(n % 10)]
  }

  /** The value of a string of decimal digits. */
  function ParseDecimal(s: string): nat
    requires forall i :: 0 <= i < |s| ==> IsDigit(s[i])
  {
    if |s| == 0 then 0 else 10 * ParseDecimal(s[..|s| - 1]) + DigitValue(s[|s| - 1])
  }

  /** Reading back a formatted number gives the number. */
  lemma {:induction false} ParseNatToString(n: nat)
    ensures ParseDecimal(NatToString(n)) == n
  {
    var s := NatToString(n);
    if n < 10 {
      assert s[..|s| - 1] == [];
    } else {
      ParseNatToString(n / 10);
      assert s[..|s| - 1] == NatToString(n / 10);
    }
  }

  /** The longest prefix of `s` made of decimal digits. */
  function LeadingDigits(s: string): (r: string)
    ensures IsPrefix(r, s)
    ensures forall i :: 0 <= i < |r| ==> IsDigit(r[i])
    ensures |r| < |s| ==> !IsDigit(s[|r|])
  {
    if |s| > 0 && IsDigit(s[0]) then [s[0]] + LeadingDigits(s[1..]) else []
  }

  /** A numeral followed by a non-digit is read off exactly. */
  lemma {:induction false} LeadingDigitsOfNumeral(d: string, rest: string)
    requires forall i :: 0 <= i < |d| ==> IsDigit(d[i])
    requires |rest| > 0 && !IsDigit(rest[0])
    ensures LeadingDigits(d + rest) == d
  {
    if |d| == 0 {
      assert d + rest == rest;
    } else {
      assert (d + rest)[1..] == d[1..] + rest;
      LeadingDigitsOfNumeral(d[1..], rest);
      assert d == [d[0]] + d[1..];
    }
  }

  /** `parts.join(sep)`. */
  function Join(parts: seq<string>, sep: string): string
  {
    if |parts| == 0 then ""
    else if |parts| == 1 then parts[0]
    else parts[0] + sep + Join(parts[1..], sep)
  }

  /** Where part `i` starts in `Join(parts, sep)`: after every earlier part and its separator. */
  function Offset(parts: seq<string>, sep: string, i: nat): nat
    requires i <= |parts|
  {
    if i == 0 then 0 else Offset(parts, sep, i - 1) + |parts[i - 1]| + |sep|
  }

  /** Dropping the first part moves every later offset left by that part and one separator. */
  lemma {:induction false} OffsetTail(parts: seq<string>, sep: string, i: nat)
    requires 1 <= i <= |parts|
    ensures Offset(parts, sep, i) == |parts[0]| + |sep| + Offset(parts[1..], sep, i - 1)
    decreases i
  {
    if i > 1 {
      OffsetTail(parts, sep, i - 1);
      assert parts[1..][i - 2] == parts[i - 1];
    }
  }

  /**
   * `s` is laid out as the parts in order with `sep` between neighbours and
   * nothing else: part `i` at its offset, a separator right after every part
   * but the last, and the string ending where the last part ends.
   */
  predicate IsJoin(s: string, parts: seq<string>, sep: string)
  {
    && (|parts| == 0 ==> s == "")
    && (|parts| > 0 ==> |s| == Offset(parts, sep, |parts| - 1) + |parts[|parts| - 1]|)
    && (forall i :: 0 <= i < |parts| ==> OccursAt(s, parts[i], Offset(parts, sep, i)))
    && (forall i :: 0 <= i < |parts| - 1 ==> OccursAt(s, sep, Offset(parts, sep, i) + |parts[i]|))
  }

  /** The joined string ends where the last part ends. */
  lemma {:induction false} JoinLength(parts: seq<string>, sep: string)
    requires |parts| > 0
    ensures |Join(parts, sep)| == Offset(parts, sep, |parts| - 1) + |parts[|parts| - 1]|
    decreases |parts|
  {
    if |parts| > 1 {
      var tail := parts[1..];
      JoinLength(tail, sep);
      OffsetTail(parts, sep, |parts| - 1);
      assert tail[|tail| - 1] == parts[|parts| - 1];
    }
  }

  /** Part `i` sits at its offset. */
  lemma {:induction false} JoinPartAt(parts: seq<string>, sep: string, i: nat)
    requires i < |parts|
    ensures OccursAt(Join(parts, sep), parts[i], Offset(parts, sep, i))
    decreases |parts|
  {
    var s := Join(parts, sep);
    if i == 0 {
      assert |parts| == 1 || s == parts[0] + (sep + Join(parts[1..], sep));
      assert s[0..|parts[0]|] == parts[0];
    } else {
      var tail := parts[1..];
      JoinPartAt(tail, sep, i - 1);
      OffsetTail(parts, sep, i);
      assert tail[i - 1] == parts[i];
      assert s == (parts[0] + sep) + Join(tail, sep);
      OccursAfter(parts[0] + sep, Join(tail, sep), parts[i], Offset(tail, sep, i - 1));
    }
  }

  /** A separator follows every part but the last. */
  lemma {:induction false} JoinSepAt(parts: seq<string>, sep: string, i: nat)
    requires i + 1 < |parts|
    ensures OccursAt(Join(parts, sep), sep, Offset(parts, sep, i) + |parts[i]|)
    decreases |parts|
  {
    var s := Join(parts, sep);
    var tail := parts[1..];
    assert s == (parts[0] + sep) + Join(tail, sep);
    if i == 0 {
      assert s[|parts[0]|..|parts[0]| + |sep|] == sep;
    } else {
      JoinSepAt(tail, sep, i - 1);
      OffsetTail(parts, sep, i);
      assert tail[i - 1] == parts[i];
      OccursAfter(parts[0] + sep, Join(tail, sep), sep, Offset(tail, sep, i - 1) + |tail[i - 1]|);
    }
  }

  /** `join` lays its parts out as described by `IsJoin`. */
  lemma JoinLayout(parts: seq<string>, sep: string)
    ensures IsJoin(Join(parts, sep), parts, sep)
  {
    if |parts| > 0 {
      JoinLength(parts, sep);
    }
    forall i | 0 <= i < |parts|
      ensures OccursAt(Join(parts, sep), parts[i], Offset(parts, sep, i))
    {
      JoinPartAt(parts, sep, i);
    }
    forall i | 0 <= i < |parts| - 1
      ensures OccursAt(Join(parts, sep), sep, Offset(parts, sep, i) + |parts[i]|)
    {
      JoinSepAt(parts, sep, i);
    }
  }

  /** Every part occurs in the joined string, and joining no parts gives the empty string. */
  lemma JoinContainsAll(parts: seq<string>, sep: string)
    ensures |parts| == 0 ==> Join(parts, sep) == ""
    ensures forall i :: 0 <= i < |parts| ==> Contains(Join(parts, sep), parts[i])
  {
    forall i | 0 <= i < |parts|
      ensures Contains(Join(parts, sep), parts[i])
    {
      JoinContainsParts(parts, sep, i);
      ContainsIff(Join(parts, sep), parts[i]);
    }
  }

  /** Part `i` occurs in the joined string. */
  lemma {:induction false} JoinContainsParts(parts: seq<string>, sep: string, i: nat)
    requires i < |parts|
    ensures exists k :: OccursAt(Join(parts, sep), parts[i], k)
    decreases |parts|
  {
    var j := Join(parts, sep);
    if i == 0 {
      assert j[..|parts[0]|] == parts[0];
      assert OccursAt(j, parts[0], 0);
    } else {
      var tail := Join(parts[1..], sep);
      JoinContainsParts(parts[1..], sep, i - 1);
      var k :| OccursAt(tail, parts[1..][i - 1], k);
      var off := |parts[0]| + |sep|;
      assert j == (parts[0] + sep) + tail;
      assert j[off + k..off + k + |parts[i]|] == tail[k..k + |parts[i]|];
      assert OccursAt(j, parts[i], off + k);
    }
  }
}
