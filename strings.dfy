/**
 * The handful of JavaScript string operations the modelled code relies on:
 * `Array.prototype.join`, `String.prototype.split` with a one-character
 * separator, `slice(0, n)`, `trim`, a global one-character `replace`, and the
 * decimal rendering of a non-negative integer inside a template literal.
 */
module Strings {

  /** `parts.join(sep)`: the parts in order with `sep` between neighbours. */
  function Join(parts: seq<string>, sep: string): (r: string)
    ensures |parts| == 0 ==> r == ""
    ensures |parts| == 1 ==> r == parts[0]
    ensures |parts| > 0 && parts[0] != "" ==> r != ""
    ensures |parts| > 0 ==> |parts[0]| <= |r| && r[..|parts[0]|] == parts[0]
  {
    if |parts| == 0 then ""
    else if |parts| == 1 then parts[0]
    else parts[0] + sep + Join(parts[1..], sep)
  }

  /** `s.split(sep)` for a one-character separator: the maximal runs between separators. */
  function Split(s: string, sep: char): (pieces: seq<string>)
    ensures |pieces| >= 1
    ensures forall k | 0 <= k < |pieces| :: sep !in pieces[k]
    ensures pieces[0] == "" <==> (s == "" || s[0] == sep)
    ensures |pieces[0]| <= |s| && s[..|pieces[0]|] == pieces[0]
    ensures |pieces[0]| == |s| || s[|pieces[0]|] == sep
  {
    if |s| == 0 then [""]
    else
      var rest := Split(s[1..], sep);
      if s[0] == sep then [""] + rest
      else [[s[0]] + rest[0]] + rest[1..]
  }

  /** Joining the pieces of a split with the separator gives back the original string. */
  lemma {:induction false} SplitJoinRoundTrip(s: string, sep: char)
    ensures Join(Split(s, sep), [sep]) == s
  {
    if |s| > 0 {
      SplitJoinRoundTrip(s[1..], sep);
      assert s == [s[0]] + s[1..];
      if s[0] == sep {
        JoinAfterEmpty(Split(s[1..], sep), sep);
      } else {
        JoinExtendFirst(s[0], Split(s[1..], sep), sep);
      }
    }
  }

  /** An empty first piece contributes only its separator. */
  lemma JoinAfterEmpty(rest: seq<string>, sep: char)
    requires |rest| >= 1
    ensures Join([""] + rest, [sep]) == [sep] + Join(rest, [sep])
  {
    assert ([""] + rest)[1..] == rest;
  }

  /** Prefixing a character to the first piece prefixes it to the joined text. */
  lemma JoinExtendFirst(c: char, rest: seq<string>, sep: char)
    requires |rest| >= 1
    ensures Join([[c] + rest[0]] + rest[1..], [sep]) == [c] + Join(rest, [sep])
  {
    var pieces := [[c] + rest[0]] + rest[1..];
    if |rest| == 1 {
      assert pieces == [[c] + rest[0]];
    } else {
      var tail := Join(rest[1..], [sep]);
      assert pieces[0] == [c] + rest[0] && pieces[1..] == rest[1..];
      assert Join(pieces, [sep]) == ([c] + rest[0]) + [sep] + tail;
      ConsRegroup(c, rest[0], [sep], tail);
    }
  }

  /** Moving a leading character out of a three-part concatenation. */
  lemma ConsRegroup(c: char, a: string, b: string, t: string)
    ensures ([c] + a) + b + t == [c] + (a + b + t)
  {
  }

  /** Appending a part appends the separator and that part, unless it is the only one. */
  lemma {:induction false} JoinSnoc(parts: seq<string>, last: string, sep: string)
    ensures Join(parts + [last], sep) == if parts == [] then last else Join(parts, sep) + sep + last
  {
    if |parts| >= 2 {
      assert (parts + [last])[1..] == parts[1..] + [last];
      JoinSnoc(parts[1..], last, sep);
      Regroup3(parts[0], sep, Join(parts[1..], sep), last);
    } else if |parts| == 1 {
      assert (parts + [last])[1..] == [last];
    }
  }

  /** Regrouping a left-nested concatenation with a separator. */
  lemma Regroup3(a: string, sep: string, m: string, z: string)
    ensures a + sep + (m + sep + z) == (a + sep + m) + sep + z
  {
  }

  /** `s.slice(0, n)` for a non-negative `n`: the first `n` characters, or all of `s` when shorter. */
  function Take(s: string, n: nat): (r: string)
    ensures |r| <= n && |r| <= |s|
    ensures |r| == n || r == s
    ensures s[..|r|] == r
  {
    if n < |s| then s[..n] else s
  }

  /** A global `replace` of one character by another (`s.replace(/x/g, y)` for single characters). */
  function ReplaceChar(s: string, from: char, to: char): (r: string)
    ensures |r| == |s|
    ensures forall i | 0 <= i < |s| :: r[i] == (if s[i] == from then to else s[i])
  {
    if |s| == 0 then ""
    else [if s[0] == from then to else s[0]] + ReplaceChar(s[1..], from, to)
  }

  /**
   * The characters `String.prototype.trim` removes: WhiteSpace and
   * LineTerminator of section 12.2 and 12.3 of ECMA-262.
   */
  predicate IsJsWhiteSpace(c: char)
  {
    c == '\t' || c == '\n' || c == '\U{B}' || c == '\U{C}' || c == '\r' || c == ' '
    || c == '\U{A0}' || c == '\U{1680}' || ('\U{2000}' <= c <= '\U{200A}')
    || c == '\U{2028}' || c == '\U{2029}' || c == '\U{202F}' || c == '\U{205F}'
    || c == '\U{3000}' || c == '\U{FEFF}'
  }

  /** Number of leading white-space characters of `s`. */
  function LeadingSpace(s: string): (n: nat)
    ensures n <= |s|
    ensures forall i | 0 <= i < n :: IsJsWhiteSpace(s[i])
    ensures n < |s| ==> !IsJsWhiteSpace(s[n])
  {
    if |s| == 0 || !IsJsWhiteSpace(s[0]) then 0 else 1 + LeadingSpace(s[1..])
  }

  /** Number of trailing white-space characters of `s`. */
  function TrailingSpace(s: string): (n: nat)
    ensures n <= |s|
    ensures forall i | |s| - n <= i < |s| :: IsJsWhiteSpace(s[i])
    ensures n < |s| ==> !IsJsWhiteSpace(s[|s| - 1 - n])
  {
    if |s| == 0 || !IsJsWhiteSpace(s[|s| - 1]) then 0 else 1 + TrailingSpace(s[..|s| - 1])
  }

  /** `s.trim()`: `s` without its leading and trailing white space. */
  function Trim(s: string): (r: string)
    ensures |r| <= |s|
    ensures r == "" <==> forall i | 0 <= i < |s| :: IsJsWhiteSpace(s[i])
    ensures r != "" ==> !IsJsWhiteSpace(r[0]) && !IsJsWhiteSpace(r[|r| - 1])
    ensures exists a, b | 0 <= a <= b <= |s| ::
              r == s[a..b]
              && (forall i | 0 <= i < a :: IsJsWhiteSpace(s[i]))
              && (forall i | b <= i < |s| :: IsJsWhiteSpace(s[i]))
  {
    var a := LeadingSpace(s);
    var t := s[a..];
    var b := a + |t| - TrailingSpace(t);
    var r := t[..|t| - TrailingSpace(t)];
    assert r == s[a..b];
    assert forall i | b <= i < |s| :: s[i] == t[i - a];
    assert r != "" ==> r[0] == s[a];
    r
  }

  /** The character for a decimal digit. */
  function DigitChar(d: nat): (c: char)
    requires d < 10
    ensures '0' <= c <= '9'
    ensures (c as int) - ('0' as int) == d
  {
    (('0' as int) + d) as char
  }

  predicate IsDecimal(s: string)
  {
    |s| > 0 && forall i | 0 <= i < |s| :: '0' <= s[i] <= '9'
  }

  /** The decimal text JavaScript gives a non-negative integer in a template literal. */
  function NatToString(n: nat): (s: string)
    ensures IsDecimal(s)
    ensures s[0] == '0' ==> n == 0
  {
    if n < 10 then [DigitChar(n)] else NatToString(n / 10) + [DigitChar(n % 10)]
  }

  /** The number a string of decimal digits denotes. */
  function DecimalValue(s: string): nat
    requires IsDecimal(s)
  {
    var d := (s[|s| - 1] as int) - ('0' as int);
    if |s| == 1 then d else 10 * DecimalValue(s[..|s| - 1]) + d
  }

  /** Reading back the rendered digits gives the number. */
  lemma {:induction false} DecimalRoundTrip(n: nat)
    ensures DecimalValue(NatToString(n)) == n
  {
    if n >= 10 {
      var s := NatToString(n);
      DecimalRoundTrip(n / 10);
      assert s[..|s| - 1] == NatToString(n / 10);
    }
  }

  /** Different numbers render differently. */
  lemma NatToStringInjective(m: nat, n: nat)
    requires NatToString(m) == NatToString(n)
    ensures m == n
  {
    DecimalRoundTrip(m);
    DecimalRoundTrip(n);
  }

  /** The first part of a concatenation is its prefix. */
  lemma PrefixOfConcat(x: string, y: string)
    ensures (x + y)[..|x|] == x
  {
  }

  /** A prefix of a prefix is a prefix. */
  lemma PrefixChain(p: string, a: string, k: nat)
    requires |a| <= |p| && p[..|a|] == a && k <= |a|
    ensures p[..k] == a[..k]
  {
  }

  /** A prefix of a slice is a slice. */
  lemma SliceOfSlice(p: string, h: nat, c: string, k: nat)
    requires h + |c| <= |p| && p[h..h + |c|] == c && k <= |c|
    ensures p[h..h + k] == c[..k]
  {
    assert p[h..h + k] == p[h..h + |c|][..k];
  }

  /** Where the parts of a three-part concatenation sit. */
  lemma ThreePartPositions(a: string, b: string, c: string)
    ensures var p := a + b + c;
            |p| == |a| + |b| + |c|
            && p[..|a|] == a && p[|a|..|a| + |b|] == b && p[|a| + |b|..] == c
  {
    var p := a + b + c;
    assert p == a + (b + c);
    assert p[|a|..] == b + c;
  }
}
