/**
 * `generateSlug` of controllers/productController.js: lower-case, trim, each
 * white-space run to one '-', drop every character that is neither a word
 * character nor '-', then each run of dashes to one '-'.
 */
module ProductSlug {
  import opened Wrappers
  import opened JsStrings

  /** `\w` or `-`: what `/[^\w\-]+/g` keeps. */
  predicate IsWordOrDash(c: char) {
    'a' <= c <= 'z' || 'A' <= c <= 'Z' || '0' <= c <= '9' || c == '_' || c == '-'
  }

  /** The characters a generated slug is made of: a-z, 0-9, '_' and '-'. */
  predicate SlugChar(c: char) {
    'a' <= c <= 'z' || '0' <= c <= '9' || c == '_' || c == '-'
  }

  predicate NoSpace(s: string) {
    forall k :: 0 <= k < |s| ==> !IsSpace(s[k])
  }

  /** No "--" anywhere. */
  predicate NoDoubleDash(s: string) {
    forall k :: 0 <= k < |s| - 1 ==> !(s[k] == '-' && s[k + 1] == '-')
  }

  predicate IsDash(c: char) { c == '-' }

  /** The characters `p` does not hold for. */
  function Other(p: char -> bool): char -> bool {
    (c: char) => !p(c)
  }

  /**
   * `s` with each character that satisfies `p` dropped when the character
   * before it satisfies `p` too (`follows` says whether the one before `s`
   * did): every run of such characters is shortened to its first one.
   */
  function Squash(s: string, p: char -> bool, follows: bool): string {
    if |s| == 0 then ""
    else if follows && p(s[0]) then Squash(s[1..], p, true)
    else [s[0]] + Squash(s[1..], p, p(s[0]))
  }

  /** White space turned into '-', character by character. */
  function SpaceToDash(c: char): char {
    if IsSpace(c) then '-' else c
  }

  function Dashed(s: string): (r: string)
    ensures |r| == |s|
    ensures forall k :: 0 <= k < |s| ==> r[k] == SpaceToDash(s[k])
  {
    if |s| == 0 then "" else [SpaceToDash(s[0])] + Dashed(s[1..])
  }

  /** Inside a run, the characters of the run are dropped. */
  lemma {:induction false} RunDropped(s: string, p: char -> bool, n: nat)
    requires n <= |s| && forall k :: 0 <= k < n ==> p(s[k])
    ensures Squash(s, p, true) == Squash(s[n..], p, true)
  {
    if n > 0 {
      RunDropped(s[1..], p, n - 1);
      assert s[1..][n - 1..] == s[n..];
    }
  }

  lemma FlagIrrelevant(s: string, p: char -> bool)
    requires |s| == 0 || !p(s[0])
    ensures Squash(s, p, true) == Squash(s, p, false)
  {
  }

  /** Squashing keeps every character outside the runs, in order. */
  lemma {:induction false} SquashKeepsOthers(s: string, p: char -> bool, follows: bool)
    ensures Filter(Squash(s, p, follows), Other(p)) == Filter(s, Other(p))
  {
    if |s| > 0 {
      SquashKeepsOthers(s[1..], p, if follows && p(s[0]) then true else p(s[0]));
      if !(follows && p(s[0])) {
        assert ([s[0]] + Squash(s[1..], p, p(s[0])))[1..] == Squash(s[1..], p, p(s[0]));
      }
    }
  }

  /** After squashing no two characters of a run stand side by side. */
  lemma {:induction false} SquashLeavesNoPair(s: string, p: char -> bool, follows: bool)
    ensures var r := Squash(s, p, follows);
      && (follows && |r| > 0 ==> !p(r[0]))
      && forall k :: 0 <= k < |r| - 1 ==> !(p(r[k]) && p(r[k + 1]))
  {
    if |s| > 0 {
      if follows && p(s[0]) {
        SquashLeavesNoPair(s[1..], p, true);
      } else {
        SquashLeavesNoPair(s[1..], p, p(s[0]));
        var r := Squash(s, p, follows);
        assert r[1..] == Squash(s[1..], p, p(s[0]));
      }
    }
  }

  /** A string with no two run characters side by side is left as it is. */
  lemma {:induction false} SquashIdentity(s: string, p: char -> bool, follows: bool)
    requires follows && |s| > 0 ==> !p(s[0])
    requires forall k :: 0 <= k < |s| - 1 ==> !(p(s[k]) && p(s[k + 1]))
    ensures Squash(s, p, follows) == s
  {
    if |s| > 0 {
      SquashIdentity(s[1..], p, p(s[0]));
    }
  }

  /**
   * `.replace(/\s+/g, '-')`: every white-space run shortened to its first
   * character and that character turned into '-'.
   */
  function DashSpaces(s: string): (r: string)
    ensures NoSpace(r)
    ensures forall k :: 0 <= k < |r| ==> r[k] == '-' || r[k] in s
    ensures NoSpace(s) ==> r == s
  {
    if |s| == 0 then ""
    else if IsSpace(s[0]) then
      var n := LeadingSpaces(s);
      var rest := DashSpaces(s[n..]);
      assert forall c :: c in s[n..] ==> c in s;
      "-" + rest
    else
      var rest := DashSpaces(s[1..]);
      assert forall c :: c in s[1..] ==> c in s;
      [s[0]] + rest
  }

  /** Each white-space run becomes one '-'; every other character is kept, in order. */
  lemma {:induction false} DashSpacesSquashes(s: string)
    ensures DashSpaces(s) == Dashed(Squash(s, IsSpace, false))
  {
    if |s| > 0 {
      if IsSpace(s[0]) {
        var n := LeadingSpaces(s);
        DashSpacesSquashes(s[n..]);
        RunDropped(s[1..], IsSpace, n - 1);
        assert s[1..][n - 1..] == s[n..];
        FlagIrrelevant(s[n..], IsSpace);
        assert Squash(s, IsSpace, false) == [s[0]] + Squash(s[n..], IsSpace, false);
        assert Dashed([s[0]] + Squash(s[n..], IsSpace, false))[1..] == DashSpaces(s[n..]);
      } else {
        DashSpacesSquashes(s[1..]);
        assert Squash(s, IsSpace, false) == [s[0]] + Squash(s[1..], IsSpace, false);
        assert Dashed([s[0]] + Squash(s[1..], IsSpace, false))[1..] == DashSpaces(s[1..]);
      }
    }
  }

  /** `.replace(/[^\w\-]+/g, '')`: exactly the word characters and dashes, in order. */
  function KeepWordChars(s: string): (r: string)
    ensures forall k :: 0 <= k < |r| ==> IsWordOrDash(r[k]) && r[k] in s
    ensures (forall k :: 0 <= k < |s| ==> IsWordOrDash(s[k])) ==> r == s
  {
    if |s| == 0 then ""
    else
      var rest := KeepWordChars(s[1..]);
      assert forall c :: c in s[1..] ==> c in s;
      if IsWordOrDash(s[0]) then [s[0]] + rest else rest
  }

  /** Exactly the word characters and dashes of the input are kept, in order. */
  lemma {:induction false} KeepWordCharsFilters(s: string)
    ensures KeepWordChars(s) == Filter(s, IsWordOrDash)
  {
    if |s| > 0 {
      KeepWordCharsFilters(s[1..]);
    }
  }

  /** The number of dashes `s` starts with. */
  function DashRun(s: string): (n: nat)
    ensures n <= |s|
    ensures forall k :: 0 <= k < n ==> s[k] == '-'
    ensures n < |s| ==> s[n] != '-'
  {
    if |s| == 0 || s[0] != '-' then 0 else 1 + DashRun(s[1..])
  }

  /**
   * `.replace(/\-\-+/g, '-')`: each run of two or more dashes becomes one;
   * a lone dash is already one, so every run of dashes ends up a single dash.
   */
  function CollapseDashes(s: string): (r: string)
    ensures NoDoubleDash(r)
    ensures forall k :: 0 <= k < |r| ==> r[k] in s
    ensures |r| > 0 ==> |s| > 0 && (r[0] == '-' <==> s[0] == '-')
    ensures NoDoubleDash(s) ==> r == s
  {
    if |s| == 0 then ""
    else if s[0] == '-' then
      var n := DashRun(s);
      var rest := CollapseDashes(s[n..]);
      CollapsedRun(s, n, rest);
      "-" + rest
    else
      var rest := CollapseDashes(s[1..]);
      assert forall c :: c in s[1..] ==> c in s;
      [s[0]] + rest
  }

  /** A leading run of dashes becomes one dash before the collapsed rest. */
  lemma CollapsedRun(s: string, n: nat, rest: string)
    requires |s| > 0 && s[0] == '-' && n == DashRun(s)
    requires NoDoubleDash(rest)
    requires forall k :: 0 <= k < |rest| ==> rest[k] in s[n..]
    requires |rest| > 0 ==> |s[n..]| > 0 && (rest[0] == '-' <==> s[n..][0] == '-')
    requires NoDoubleDash(s[n..]) ==> rest == s[n..]
    ensures NoDoubleDash("-" + rest)
    ensures forall k :: 0 <= k < |"-" + rest| ==> ("-" + rest)[k] in s
    ensures NoDoubleDash(s) ==> "-" + rest == s
  {
    assert forall c :: c in s[n..] ==> c in s;
    var r := "-" + rest;
    assert forall k :: 1 <= k < |r| ==> r[k] == rest[k - 1];
    if NoDoubleDash(s) {
      assert |s| == 1 || s[1] != '-';
      assert n == 1;
      assert NoDoubleDash(s[1..]) by {
        assert forall k :: 0 <= k < |s| - 1 ==> s[1..][k] == s[k + 1];
      }
      assert s == "-" + s[1..];
    }
  }

  /** Each run of dashes becomes one dash; every other character is kept, in order. */
  lemma {:induction false} CollapseDashesSquashes(s: string)
    ensures CollapseDashes(s) == Squash(s, IsDash, false)
  {
    if |s| > 0 {
      if s[0] == '-' {
        var n := DashRun(s);
        CollapseDashesSquashes(s[n..]);
        assert Squash(s, IsDash, false) == [s[0]] + Squash(s[1..], IsDash, true);
        RunDropped(s[1..], IsDash, n - 1);
        assert s[1..][n - 1..] == s[n..];
        FlagIrrelevant(s[n..], IsDash);
      } else {
        CollapseDashesSquashes(s[1..]);
        assert Squash(s, IsDash, false) == [s[0]] + Squash(s[1..], IsDash, false);
      }
    }
  }

  /** Collapsing keeps every character other than '-', in order. */
  lemma CollapseKeepsOthers(s: string)
    ensures Filter(CollapseDashes(s), Other(IsDash)) == Filter(s, Other(IsDash))
  {
    CollapseDashesSquashes(s);
    SquashKeepsOthers(s, IsDash, false);
  }

  /** `generateSlug(text)`. */
  function GenerateSlug(text: string): (r: string)
    ensures forall k :: 0 <= k < |r| ==> SlugChar(r[k])
    ensures NoDoubleDash(r)
  {
    var lowered := ToLower(text);
    var trimmed := Trim(lowered);
    var dashed := DashSpaces(trimmed);
    var kept := KeepWordChars(dashed);
    var r := CollapseDashes(kept);
    assert forall c :: c in lowered ==> !IsUpper(c);
    assert forall k :: 0 <= k < |kept| ==> SlugChar(kept[k]);
    r
  }

  lemma NoSpaceTrim(s: string)
    requires NoSpace(s)
    ensures Trim(s) == s
  {
    if |s| > 0 {
      assert !IsSpace(s[0]) && !IsSpace(s[|s| - 1]);
    }
  }

  /** A string of slug characters without "--" is its own slug. */
  lemma SlugFixedPoint(s: string)
    requires forall k :: 0 <= k < |s| ==> SlugChar(s[k])
    requires NoDoubleDash(s)
    ensures GenerateSlug(s) == s
  {
    assert ToLower(s) == s by {
      assert forall k :: 0 <= k < |s| ==> ToLower(s)[k] == s[k];
    }
    assert NoSpace(s);
    NoSpaceTrim(s);
    assert DashSpaces(s) == s;
    assert KeepWordChars(s) == s;
  }

  /** A slug is its own slug: slugs are the fixed points of `generateSlug`. */
  lemma SlugIdempotent(text: string)
    ensures GenerateSlug(GenerateSlug(text)) == GenerateSlug(text)
  {
    SlugFixedPoint(GenerateSlug(text));
  }

  /** The result of DashSpaces on a string that begins with a run of white space. */
  lemma LeadingRun(w: string, b: string)
    requires |w| > 0 && forall k :: 0 <= k < |w| ==> IsSpace(w[k])
    requires |b| == 0 || !IsSpace(b[0])
    ensures DashSpaces(w + b) == "-" + DashSpaces(b)
  {
    var s := w + b;
    assert LeadingSpaces(s) == |w| by {
      LeadingSpacesOfRun(w, b);
    }
    assert s[|w|..] == b;
  }

  lemma {:induction false} LeadingSpacesOfRun(w: string, b: string)
    requires forall k :: 0 <= k < |w| ==> IsSpace(w[k])
    requires |b| == 0 || !IsSpace(b[0])
    ensures LeadingSpaces(w + b) == |w|
  {
    if |w| > 0 {
      assert (w + b)[1..] == w[1..] + b;
      LeadingSpacesOfRun(w[1..], b);
    } else {
      assert w + b == b;
    }
  }

  /**
   * Each white-space run between two words becomes exactly one dash: the
   * part before is copied and the part after is handled in its turn.
   */
  lemma SpaceRunToOneDash(a: string, w: string, b: string)
    requires NoSpace(a)
    requires |w| > 0 && forall k :: 0 <= k < |w| ==> IsSpace(w[k])
    requires |b| == 0 || !IsSpace(b[0])
    ensures DashSpaces(a + w + b) == a + "-" + DashSpaces(b)
  {
    assert a + w + b == a + (w + b);
    CopyNoSpacePrefix(a, w + b);
    LeadingRun(w, b);
  }

  /** A part without white space is copied as it is. */
  lemma CopyNoSpacePrefix(a: string, x: string)
    requires NoSpace(a)
    ensures DashSpaces(a + x) == a + DashSpaces(x)
  {
    DashSpacesSquashes(a + x);
    DashSpacesSquashes(x);
    var y := Squash(x, IsSpace, false);
    SquashCopiesPrefix(a, x, IsSpace);
    assert Dashed(a + y) == a + Dashed(y) by {
      assert forall k :: 0 <= k < |a| ==> (a + y)[k] == a[k];
      assert forall k :: |a| <= k < |a + y| ==> (a + y)[k] == y[k - |a|];
    }
  }

  /** A prefix with no run character is copied by squashing. */
  lemma {:induction false} SquashCopiesPrefix(a: string, x: string, p: char -> bool)
    requires forall k :: 0 <= k < |a| ==> !p(a[k])
    ensures Squash(a + x, p, false) == a + Squash(x, p, false)
  {
    if |a| == 0 {
      assert a + x == x;
    } else {
      assert a + x == [a[0]] + (a[1..] + x);
      SquashCopiesPrefix(a[1..], x, p);
      assert a == [a[0]] + a[1..];
    }
  }

  /** A character other than white space is copied as it is. */
  lemma CopyNonSpace(c: char, x: string)
    requires !IsSpace(c)
    ensures DashSpaces([c] + x) == [c] + DashSpaces(x)
  {
    assert ([c] + x)[1..] == x;
  }

  /** Leading and trailing white space makes no difference to the slug. */
  lemma SlugIgnoresOuterSpace(w1: string, text: string, w2: string)
    requires AllSpace(w1) && AllSpace(w2)
    ensures GenerateSlug(w1 + text + w2) == GenerateSlug(text)
  {
    var padded := w1 + text + w2;
    assert forall k :: 0 <= k < |padded| ==> ToLower(padded)[k] == (w1 + ToLower(text) + w2)[k];
    assert ToLower(padded) == w1 + ToLower(text) + w2;
    TrimIgnoresPadding(w1, ToLower(text), w2);
  }

  /** ASCII letters, digits and '_'. */
  predicate IsWordChar(c: char) {
    'a' <= c <= 'z' || 'A' <= c <= 'Z' || '0' <= c <= '9' || c == '_'
  }

  /** Words of letters, digits and '_' separated by single white-space characters. */
  predicate SpacedWords(s: string) {
    && (forall k :: 0 <= k < |s| ==> IsWordChar(s[k]) || IsSpace(s[k]))
    && (|s| > 0 ==> !IsSpace(s[0]) && !IsSpace(s[|s| - 1]))
    && (forall k :: 0 <= k < |s| - 1 ==> !(IsSpace(s[k]) && IsSpace(s[k + 1])))
  }

  lemma LowerSpacedWords(s: string)
    requires SpacedWords(s)
    ensures SpacedWords(ToLower(s))
  {
    var lowered := ToLower(s);
    forall k | 0 <= k < |s|
      ensures IsWordChar(lowered[k]) || IsSpace(lowered[k])
      ensures IsSpace(lowered[k]) <==> IsSpace(s[k])
    {
      LowerCharClass(s[k]);
    }
  }

  /** Lower-casing keeps white space, and keeps word characters word characters. */
  lemma LowerCharClass(c: char)
    ensures IsSpace(LowerChar(c)) <==> IsSpace(c)
    ensures IsWordChar(c) ==> IsWordChar(LowerChar(c))
  {
    if IsUpper(c) {
      assert IsLower(LowerChar(c));
    }
  }

  /** On spaced words the last three steps only turn the separators into dashes. */
  lemma SpacedWordsSteps(s: string)
    requires SpacedWords(s)
    ensures DashSpaces(s) == Dashed(s)
    ensures KeepWordChars(Dashed(s)) == Dashed(s)
    ensures CollapseDashes(Dashed(s)) == Dashed(s)
  {
    DashSpacesSquashes(s);
    SquashIdentity(s, IsSpace, false);
    var dashed := Dashed(s);
    assert forall k :: 0 <= k < |dashed| ==> IsWordOrDash(dashed[k]);
    forall k | 0 <= k < |dashed|
      ensures dashed[k] == '-' <==> IsSpace(s[k])
    {
      assert dashed[k] == SpaceToDash(s[k]);
    }
    assert NoDoubleDash(dashed);
  }

  /** The slug is its five steps applied in turn. */
  lemma SlugSteps(text: string)
    ensures GenerateSlug(text) == CollapseDashes(KeepWordChars(DashSpaces(Trim(ToLower(text)))))
  {
  }

  /**
   * Spaced words come out lower-cased with each separator turned into '-':
   * no letter, digit or '_' is dropped.
   */
  lemma SlugOfWords(text: string)
    requires SpacedWords(text)
    ensures GenerateSlug(text) == Dashed(ToLower(text))
  {
    var lowered := ToLower(text);
    LowerSpacedWords(text);
    assert Trim(lowered) == lowered by {
      TrimSlice(lowered, 0, |lowered|);
      assert lowered[0..|lowered|] == lowered;
    }
    SpacedWordsSteps(lowered);
    SlugSteps(text);
  }
}
