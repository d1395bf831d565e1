/**
 * The JavaScript string operations the controllers use: trim, ASCII case
 * mapping, startsWith, padStart, split/join on one separator, replace of one
 * character, and the decimal rendering of a natural number.
 */
module JsStrings {

  /** JavaScript WhiteSpace and LineTerminator code points: what `trim` removes and `\s` matches. */
  predicate IsSpace(c: char) {
    c == ' ' || c == '\t' || c == '\n' || c == '\r' || c == '\U{000B}' || c == '\U{000C}'
    || c == '\U{00A0}' || c == '\U{1680}' || ('\U{2000}' <= c <= '\U{200A}')
    || c == '\U{2028}' || c == '\U{2029}' || c == '\U{202F}' || c == '\U{205F}'
    || c == '\U{3000}' || c == '\U{FEFF}'
  }

  predicate IsUpper(c: char) { 'A' <= c <= 'Z' }
  predicate IsLower(c: char) { 'a' <= c <= 'z' }
  predicate IsDigit(c: char) { '0' <= c <= '9' }

  function LowerChar(c: char): (r: char)
    ensures !IsUpper(r)
    ensures !IsUpper(c) ==> r == c
    ensures IsUpper(c) ==> IsLower(r)
  {
    if IsUpper(c) then (c as int + 32) as char else c
  }

  function UpperChar(c: char): (r: char)
    ensures !IsLower(r)
    ensures !IsLower(c) ==> r == c
    ensures IsLower(c) ==> IsUpper(r)
  {
    if IsLower(c) then (c as int - 32) as char else c
  }

  /** `toLowerCase`, on the ASCII letters. */
  function ToLower(s: string): (r: string)
    ensures |r| == |s|
    ensures forall k :: 0 <= k < |s| ==> r[k] == LowerChar(s[k])
  {
    if |s| == 0 then [] else [LowerChar(s[0])] + ToLower(s[1..])
  }

  /** `toUpperCase`, on the ASCII letters. */
  function ToUpper(s: string): (r: string)
    ensures |r| == |s|
    ensures forall k :: 0 <= k < |s| ==> r[k] == UpperChar(s[k])
  {
    if |s| == 0 then [] else [UpperChar(s[0])] + ToUpper(s[1..])
  }

  /** Upper-casing twice is upper-casing once. */
  lemma ToUpperIdempotent(s: string)
    ensures ToUpper(ToUpper(s)) == ToUpper(s)
  {
    assert forall k :: 0 <= k < |s| ==> ToUpper(ToUpper(s))[k] == ToUpper(s)[k];
  }

  /** The number of white-space characters at the start of `s`. */
  function LeadingSpaces(s: string): (n: nat)
    ensures n <= |s|
    ensures forall k :: 0 <= k < n ==> IsSpace(s[k])
    ensures n < |s| ==> !IsSpace(s[n])
  {
    if |s| == 0 || !IsSpace(s[0]) then 0 else 1 + LeadingSpaces(s[1..])
  }

  /** The number of white-space characters at the end of `s`. */
  function TrailingSpaces(s: string): (n: nat)
    ensures n <= |s|
    ensures forall k :: |s| - n <= k < |s| ==> IsSpace(s[k])
    ensures n < |s| ==> !IsSpace(s[|s| - 1 - n])
  {
    if |s| == 0 || !IsSpace(s[|s| - 1]) then 0 else 1 + TrailingSpaces(s[..|s| - 1])
  }

  /** `trimStart`. */
  function TrimStart(s: string): (r: string)
    ensures r == s[LeadingSpaces(s)..]
  {
    s[LeadingSpaces(s)..]
  }

  /** `trim`: `s` without its leading and trailing white space. */
  function Trim(s: string): (r: string)
    ensures |r| <= |s|
    ensures r == [] || (!IsSpace(r[0]) && !IsSpace(r[|r| - 1]))
    ensures forall c :: c in r ==> c in s
    ensures r == [] <==> forall k :: 0 <= k < |s| ==> IsSpace(s[k])
    decreases |s|
  {
    if |s| > 0 && IsSpace(s[0]) then
      assert forall c :: c in s[1..] ==> c in s;
      Trim(s[1..])
    else if |s| > 0 && IsSpace(s[|s| - 1]) then
      assert forall c :: c in s[..|s| - 1] ==> c in s;
      Trim(s[..|s| - 1])
    else s
  }

  predicate AllSpace(s: string) {
    forall k :: 0 <= k < |s| ==> IsSpace(s[k])
  }

  /**
   * `trim` keeps exactly `s[i..j]` when everything before `i` and from `j`
   * on is white space and the part kept neither starts nor ends with any.
   */
  lemma {:induction false} TrimSlice(s: string, i: nat, j: nat)
    requires i <= j <= |s|
    requires forall k :: 0 <= k < i ==> IsSpace(s[k])
    requires forall k :: j <= k < |s| ==> IsSpace(s[k])
    requires i < j ==> !IsSpace(s[i]) && !IsSpace(s[j - 1])
    ensures Trim(s) == s[i..j]
    decreases |s|
  {
    if |s| > 0 && IsSpace(s[0]) {
      var t := s[1..];
      if i > 0 {
        TrimSlice(t, i - 1, j - 1);
        assert t[i - 1..j - 1] == s[i..j];
      } else {
        TrimSlice(t, 0, 0);
      }
    } else if |s| > 0 && IsSpace(s[|s| - 1]) {
      var t := s[..|s| - 1];
      TrimSlice(t, i, j);
      assert t[i..j] == s[i..j];
    } else {
      assert s[0..|s|] == s;
    }
  }

  /** Every string is white space, its trimmed text, and white space, in that order. */
  lemma {:induction false} TrimBounds(s: string) returns (i: nat, j: nat)
    ensures i <= j <= |s| && Trim(s) == s[i..j]
    ensures forall k :: 0 <= k < i ==> IsSpace(s[k])
    ensures forall k :: j <= k < |s| ==> IsSpace(s[k])
    decreases |s|
  {
    if |s| > 0 && IsSpace(s[0]) {
      var i0, j0 := TrimBounds(s[1..]);
      TrimBoundsFront(s, i0, j0);
      i, j := i0 + 1, j0 + 1;
    } else if |s| > 0 && IsSpace(s[|s| - 1]) {
      i, j := TrimBounds(s[..|s| - 1]);
      TrimBoundsBack(s, i, j);
    } else {
      i, j := 0, |s|;
      assert s[0..|s|] == s;
    }
  }

  lemma TrimBoundsFront(s: string, i0: nat, j0: nat)
    requires |s| > 0 && IsSpace(s[0])
    requires var t := s[1..];
      && i0 <= j0 <= |t| && Trim(t) == t[i0..j0]
      && (forall k :: 0 <= k < i0 ==> IsSpace(t[k]))
      && (forall k :: j0 <= k < |t| ==> IsSpace(t[k]))
    ensures Trim(s) == s[i0 + 1..j0 + 1]
    ensures forall k :: 0 <= k < i0 + 1 ==> IsSpace(s[k])
    ensures forall k :: j0 + 1 <= k < |s| ==> IsSpace(s[k])
  {
    var t := s[1..];
    assert Trim(s) == Trim(t);
    assert t[i0..j0] == s[i0 + 1..j0 + 1];
    assert forall k :: 1 <= k < |s| ==> s[k] == t[k - 1];
  }

  lemma TrimBoundsBack(s: string, i: nat, j: nat)
    requires |s| > 0 && !IsSpace(s[0]) && IsSpace(s[|s| - 1])
    requires var t := s[..|s| - 1];
      && i <= j <= |t| && Trim(t) == t[i..j]
      && (forall k :: 0 <= k < i ==> IsSpace(t[k]))
      && (forall k :: j <= k < |t| ==> IsSpace(t[k]))
    ensures i == 0 && Trim(s) == s[i..j]
    ensures forall k :: j <= k < |s| ==> IsSpace(s[k])
  {
    var t := s[..|s| - 1];
    assert |t| > 0 ==> t[0] == s[0];
    assert Trim(s) == Trim(t);
    assert t[i..j] == s[i..j];
    assert forall k :: 0 <= k < |t| ==> s[k] == t[k];
  }

  /** White space added around a string does not change what `trim` gives. */
  lemma TrimIgnoresPadding(w1: string, s: string, w2: string)
    requires AllSpace(w1) && AllSpace(w2)
    ensures Trim(w1 + s + w2) == Trim(s)
  {
    var i, j := TrimBounds(s);
    var p := w1 + s + w2;
    PaddedSlice(w1, s, w2, i, j);
    TrimSlice(p, |w1| + i, |w1| + j);
  }

  /** Around `s[i..j]`, a padded `s` is white space where `s` is and where the padding is. */
  lemma PaddedSlice(w1: string, s: string, w2: string, i: nat, j: nat)
    requires AllSpace(w1) && AllSpace(w2) && i <= j <= |s|
    requires forall k :: 0 <= k < i ==> IsSpace(s[k])
    requires forall k :: j <= k < |s| ==> IsSpace(s[k])
    ensures var p := w1 + s + w2;
      && (forall k :: 0 <= k < |w1| + i ==> IsSpace(p[k]))
      && (forall k :: |w1| + j <= k < |p| ==> IsSpace(p[k]))
      && p[|w1| + i..|w1| + j] == s[i..j]
  {
    var p := w1 + s + w2;
    forall k | 0 <= k < |p|
      ensures p[k] == if k < |w1| then w1[k] else if k < |w1| + |s| then s[k - |w1|] else w2[k - |w1| - |s|]
    {
    }
  }

  /** `s.startsWith(p)`. */
  predicate StartsWith(s: string, p: string) {
    |p| <= |s| && s[..|p|] == p
  }

  /** `c` repeated `n` times. */
  function Repeat(c: char, n: nat): (r: string)
    ensures |r| == n
    ensures forall k :: 0 <= k < n ==> r[k] == c
  {
    if n == 0 then [] else [c] + Repeat(c, n - 1)
  }

  /** `s.padStart(n, c)` with a one-character pad. */
  function PadStart(s: string, n: nat, c: char): (r: string)
    ensures |r| == if |s| >= n then |s| else n
    ensures r[|r| - |s|..] == s
    ensures forall k :: 0 <= k < |r| - |s| ==> r[k] == c
  {
    if |s| >= n then s else Repeat(c, n - |s|) + s
  }

  function DigitChar(d: nat): (c: char)
    requires d < 10
    ensures IsDigit(c)
  {
    ('0' as int + d) as char
  }

  /** `n.toString()` for a natural number: its decimal digits without leading zeros. */
  function NatToString(n: nat): (r: string)
    ensures |r| >= 1
    ensures forall k :: 0 <= k < |r| ==> IsDigit(r[k])
    ensures |r| > 1 ==> r[0] != '0'
    ensures n > 0 ==> r[0] != '0'
  {
    if n < 10 then [DigitChar(n)] else NatToString(n / 10) + [DigitChar(n % 10)]
  }

  /** `s.split(sep)`: the pieces between the separators, at least one. */
  function Split(s: string, sep: char): (r: seq<string>)
    ensures |r| >= 1
    ensures forall k :: 0 <= k < |r| ==> sep !in r[k]
  {
    if |s| == 0 then [""]
    else
      var rest := Split(s[1..], sep);
      if s[0] == sep then [""] + rest else [[s[0]] + rest[0]] + rest[1..]
  }

  /** `parts.join(sep)`. */
  function Join(parts: seq<string>, sep: char): string {
    if |parts| == 0 then ""
    else if |parts| == 1 then parts[0]
    else parts[0] + [sep] + Join(parts[1..], sep)
  }

  /** Joining the pieces of a split gives the string back. */
  lemma {:induction false} JoinSplit(s: string, sep: char)
    ensures Join(Split(s, sep), sep) == s
  {
    if |s| > 0 {
      var rest := Split(s[1..], sep);
      JoinSplit(s[1..], sep);
      if s[0] == sep {
        assert Split(s, sep) == [""] + rest;
        assert ([""] + rest)[1..] == rest;
        assert s == [sep] + s[1..];
      } else {
        var r := [[s[0]] + rest[0]] + rest[1..];
        assert Split(s, sep) == r;
        if |rest| == 1 {
          assert s == [s[0]] + rest[0];
        } else {
          assert r[1..] == rest[1..];
          assert Join(rest, sep) == rest[0] + [sep] + Join(rest[1..], sep);
          assert s == [s[0]] + s[1..];
        }
      }
    }
  }

  /** Splitting a join of separator-free, non-empty-list pieces gives the pieces back. */
  lemma {:induction false} SplitJoin(parts: seq<string>, sep: char)
    requires |parts| >= 1
    requires forall k :: 0 <= k < |parts| ==> sep !in parts[k]
    ensures Split(Join(parts, sep), sep) == parts
  {
    if |parts| == 1 {
      SplitNoSep(parts[0], sep);
    } else {
      SplitJoin(parts[1..], sep);
      SplitPrefix(parts[0], Join(parts[1..], sep), sep);
      assert [parts[0]] + parts[1..] == parts;
    }
  }

  lemma {:induction false} SplitNoSep(s: string, sep: char)
    requires sep !in s
    ensures Split(s, sep) == [s]
  {
    if |s| > 0 {
      SplitNoSep(s[1..], sep);
      assert [s[0]] + s[1..] == s;
    }
  }

  lemma {:induction false} SplitPrefix(a: string, b: string, sep: char)
    requires sep !in a
    ensures Split(a + [sep] + b, sep) == [a] + Split(b, sep)
  {
    if |a| == 0 {
      assert a + [sep] + b == [sep] + b;
      assert ([sep] + b)[1..] == b;
    } else {
      assert (a + [sep] + b)[1..] == a[1..] + [sep] + b;
      SplitPrefix(a[1..], b, sep);
      assert [a[0]] + a[1..] == a;
    }
  }

  /** `s.replace(/x/g, y)` for one character `x`. */
  function ReplaceChar(s: string, x: char, y: char): (r: string)
    ensures |r| == |s|
    ensures forall k :: 0 <= k < |s| ==> r[k] == if s[k] == x then y else s[k]
  {
    if |s| == 0 then [] else [if s[0] == x then y else s[0]] + ReplaceChar(s[1..], x, y)
  }
}
