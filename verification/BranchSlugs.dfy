/**
 * What a slug says about the text it came from: the same word characters in
 * the same order, with one hyphen exactly where others stood between them.
 */
module BranchSlugs {
  import opened BranchTree

  /** The characters a-z and 0-9 of a text, in order. */
  function Words(s: string): (kept: string)
    ensures |kept| <= |s|
  {
    if s == "" then ""
    else if 'a' <= s[0] <= 'z' || '0' <= s[0] <= '9' then [s[0]] + Words(s[1..])
    else Words(s[1..])
  }

  /** Where the `n`-th word character stands. */
  function Place(s: string, n: nat): (i: nat)
    requires n < |Words(s)|
    ensures i < |s| && s[i] == Words(s)[n]
  {
    if 'a' <= s[0] <= 'z' || '0' <= s[0] <= '9' then (if n == 0 then 0 else 1 + Place(s[1..], n - 1))
    else 1 + Place(s[1..], n)
  }

  /** Word character `n + 1` follows its predecessor directly. */
  predicate Adjacent(s: string, n: nat)
    requires n + 1 < |Words(s)|
  {
    Place(s, n + 1) == Place(s, n) + 1
  }

  /** The same word characters, adjacent in one text exactly where they are in the other, else one apart. */
  predicate SameWords(text: string, s: string) {
    Words(s) == Words(text) &&
    forall n: nat :: n + 1 < |Words(s)| ==>
      (Adjacent(s, n) <==> Adjacent(text, n)) && (!Adjacent(s, n) ==> Place(s, n + 1) == Place(s, n) + 2)
  }

  lemma HyphenateHead(text: string)
    ensures (Hyphenate(text) == "") == (text == "")
    ensures text != "" ==> Hyphenate(text)[0] == if WordChar(text[0]) then text[0] else '-'
  {
  }

  lemma FirstPlace(s: string)
    requires Tidy(s) && s != "" && Words(s) != ""
    ensures Place(s, 0) == if WordChar(s[0]) then 0 else 1
  {
    if !WordChar(s[0]) && |s| > 1 { assert s[1] != '-' && SlugChar(s[1]); }
  }

  lemma LooseFirst(s: string)
    requires s != "" && Words(s) != ""
    ensures Place(s, 0) == 0 <==> WordChar(s[0])
  {
  }

  lemma {:induction false} HyphenateKeepsWords(text: string)
    ensures SameWords(text, Hyphenate(text))
    decreases |text|
  {
    if text != "" {
      var c, rest := text[0], text[1..];
      var h, hr := Hyphenate(text), Hyphenate(rest);
      HyphenateKeepsWords(rest);
      HyphenateTidies(rest);
      HyphenateHead(rest);
      if WordChar(c) {
        assert h[1..] == hr && text[1..] == rest;
        if Words(rest) != "" {
          FirstPlace(hr);
          LooseFirst(rest);
        }
        WordFirst(text, h);
      } else {
        if h != hr {
          assert h[1..] == hr;
          OtherFirst(h);
        }
        OtherFirst(text);
        SameShift(text, rest, 1, h, hr, if h == hr then 0 else 1);
      }
    }
  }

  lemma OtherFirst(s: string)
    requires s != "" && !WordChar(s[0])
    ensures Moved(s, s[1..], 1)
  {
  }

  /** `t` has the word characters of `s`, each `off` places earlier. */
  predicate Moved(s: string, t: string, off: int) {
    Words(t) == Words(s) && forall n: nat :: n < |Words(s)| ==> Place(s, n) == off + Place(t, n)
  }

  lemma SameShift(text: string, rest: string, a: int, s: string, t: string, b: int)
    requires Moved(text, rest, a) && Moved(s, t, b) && SameWords(rest, t)
    ensures SameWords(text, s)
  {
    hide Words, Place;
    forall n: nat | n + 1 < |Words(s)|
      ensures (Adjacent(s, n) <==> Adjacent(text, n)) && (!Adjacent(s, n) ==> Place(s, n + 1) == Place(s, n) + 2)
    {
      assert Adjacent(t, n) <==> Adjacent(rest, n);
    }
  }

  /** Putting the same word character in front of both texts. */
  lemma WordFirst(text: string, s: string)
    requires text != "" && s != "" && text[0] == s[0] && WordChar(s[0]) && SameWords(text[1..], s[1..])
    requires Words(s[1..]) != "" ==>
               (Place(s[1..], 0) == 0 <==> Place(text[1..], 0) == 0) && Place(s[1..], 0) <= 1
    ensures SameWords(text, s)
  {
    forall n: nat | n + 1 < |Words(s)|
      ensures (Adjacent(s, n) <==> Adjacent(text, n)) && (!Adjacent(s, n) ==> Place(s, n + 1) == Place(s, n) + 2)
    {
      if n > 0 { assert Adjacent(s, n) <==> Adjacent(s[1..], n - 1); }
    }
  }

  lemma {:induction false} WordsConcat(a: string, b: string)
    ensures Words(a + b) == Words(a) + Words(b)
    decreases |a|
  {
    if a == "" {
      assert a + b == b;
    } else {
      assert (a + b)[1..] == a[1..] + b;
      WordsConcat(a[1..], b);
    }
  }

  lemma {:induction false} PlaceInFirst(a: string, b: string, n: nat)
    requires n < |Words(a)|
    ensures n < |Words(a + b)| && Place(a + b, n) == Place(a, n)
    decreases |a|
  {
    WordsConcat(a, b);
    assert (a + b)[1..] == a[1..] + b;
    if WordChar(a[0]) {
      if n > 0 { PlaceInFirst(a[1..], b, n - 1); }
    } else {
      PlaceInFirst(a[1..], b, n);
    }
  }

  lemma {:induction false} PlaceAfterHyphens(left: string, s: string, n: nat)
    requires (forall i :: 0 <= i < |left| ==> left[i] == '-') && n < |Words(s)|
    ensures n < |Words(left + s)| && Place(left + s, n) == |left| + Place(s, n)
    decreases |left|
  {
    if left == "" {
      assert left + s == s;
    } else {
      assert (left + s)[1..] == left[1..] + s;
      PlaceAfterHyphens(left[1..], s, n);
    }
  }

  lemma HyphensAreNoWords(s: string)
    requires forall i :: 0 <= i < |s| ==> s[i] == '-'
    ensures Words(s) == ""
  {
  }

  /** Cutting hyphens off both ends moves no word character against another. */
  lemma TrimKeepsWords(s: string, left: string, mid: string, right: string)
    requires s == left + mid + right
    requires (forall i :: 0 <= i < |left| ==> left[i] == '-') && forall i :: 0 <= i < |right| ==> right[i] == '-'
    ensures Moved(s, mid, |left|)
  {
    HyphensAreNoWords(left);
    HyphensAreNoWords(right);
    hide Words, Place;
    WordsConcat(left + mid, right);
    WordsConcat(left, mid);
    assert Words(left) + Words(mid) + Words(right) == Words(mid);
    forall n: nat | n < |Words(s)| ensures Place(s, n) == |left| + Place(mid, n) {
      PlaceAfterHyphens(left, mid, n);
      PlaceInFirst(left + mid, right, n);
    }
  }

  lemma StripsHyphens(s: string) returns (left: string, mid: string, right: string)
    ensures s == left + mid + right && mid == StripRight(StripLeft(s))
    ensures (forall i :: 0 <= i < |left| ==> left[i] == '-') && forall i :: 0 <= i < |right| ==> right[i] == '-'
  {
    hide StripLeft, StripRight;
    var l := StripLeft(s);
    LeftIsHyphens(s);
    RightIsHyphens(l);
    mid := StripRight(l);
    left, right := s[..|s| - |l|], l[|mid|..];
    Rejoin(s, |s| - |l|);
    Rejoin(l, |mid|);
    Associate(left, mid, right);
  }

  lemma Rejoin(s: string, n: nat)
    requires n <= |s|
    ensures s[..n] + s[n..] == s
  {
  }

  lemma Associate(a: string, b: string, c: string)
    ensures a + (b + c) == a + b + c
  {
  }

  lemma {:induction false} LeftIsHyphens(s: string)
    ensures forall i :: 0 <= i < |s| - |StripLeft(s)| ==> s[i] == '-'
  {
    if s != "" && s[0] == '-' {
      LeftIsHyphens(s[1..]);
      assert forall i :: 1 <= i < |s| ==> s[i] == s[1..][i - 1];
    }
  }

  lemma {:induction false} RightIsHyphens(s: string)
    ensures forall i :: |StripRight(s)| <= i < |s| ==> s[i] == '-'
  {
    if s != "" && s[|s| - 1] == '-' { RightIsHyphens(s[..|s| - 1]); }
  }

  lemma OnlyHyphensLeft(s: string)
    requires SlugChars(s) && Words(s) == ""
    ensures forall i :: 0 <= i < |s| ==> s[i] == '-'
  {
  }

  lemma TextWithoutWords(s: string)
    requires s == "" || (SlugChars(s) && s[0] != '-')
    ensures Words(s) == "" <==> s == ""
  {
  }

  /**
   * A slug keeps exactly the text's word characters in order, adjacent where
   * they were and otherwise one hyphen apart; without any it is "branch".
   */
  lemma {:induction false} SlugKeepsWords(lowered: string)
    ensures Words(lowered) == "" ==> Slugify(lowered) == "branch"
    ensures Words(lowered) != "" ==> SameWords(lowered, Slugify(lowered))
  {
    var h := Hyphenate(lowered);
    HyphenateKeepsWords(lowered);
    var left, mid, right := StripsHyphens(h);
    TrimKeepsWords(h, left, mid, right);
    assert mid == "" || mid[0] == StripLeft(h)[0];
    TextWithoutWords(mid);
    hide Hyphenate, StripLeft, StripRight, Words, Place, SameWords, Moved;
    assert Words(mid) == Words(lowered) by { SameWordsMeans(lowered, h, mid, |left|); }
    TrimmedSame(lowered, h, mid, |left|);
  }

  lemma SameWordsMeans(text: string, s: string, mid: string, off: int)
    requires SameWords(text, s) && Moved(s, mid, off)
    ensures Words(mid) == Words(text)
  {
  }

  lemma TrimmedSame(text: string, s: string, mid: string, off: int)
    requires SameWords(text, s) && Moved(s, mid, off)
    ensures SameWords(text, mid)
  {
    hide Words, Place;
    forall n: nat | n + 1 < |Words(mid)|
      ensures (Adjacent(mid, n) <==> Adjacent(text, n)) && (!Adjacent(mid, n) ==> Place(mid, n + 1) == Place(mid, n) + 2)
    {
      assert Adjacent(s, n) <==> Adjacent(text, n);
    }
  }

  /** Word runs joined by single hyphens are their own slug. */
  lemma TidyTextIsItsSlug(s: string)
    requires s != "" && SlugChars(s) && s[0] != '-' && s[|s| - 1] != '-'
    requires forall i :: 0 < i < |s| ==> s[i - 1] != '-' || s[i] != '-'
    ensures Slugify(s) == s
  {
    HyphenateTidies(s);
    NothingToStrip(s);
  }
}
