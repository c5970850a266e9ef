/**
 * The contacts tree as it is stored: parent pointers beside materialised paths
 * and depths.  This module says when the two agree, what a create and a move
 * make of a tree, and proves that they keep the agreement.
 */
module BranchTree {
  import opened Prelude

  type Id = string

  datatype Kind = Organization | Department | Folder

  datatype Branch = Branch(
    parent: Option<Id>, parentKind: Option<Kind>, kind: Kind, slug: string, path: string, depth: int)

  type Tree = map<Id, Branch>

  const MAX_DEPTH := 128

  datatype Verdict = Done | NotFound | Cyclic | Misplaced | TooDeep | PathTaken | DuplicateId

  // ----- paths -------------------------------------------------------------

  predicate SlugChar(c: char) { 'a' <= c <= 'z' || '0' <= c <= '9' || c == '-' }

  predicate SlugChars(s: string) { forall i :: 0 <= i < |s| ==> SlugChar(s[i]) }

  predicate IsSlug(s: string) { s != "" && SlugChars(s) }

  /** `candidate.startswith(ancestor + "/")`, which is also SQL `like ancestor/%` on such paths. */
  predicate Within(candidate: string, ancestor: string) { ancestor + "/" <= candidate }

  function WordChar(c: char): bool { 'a' <= c <= 'z' || '0' <= c <= '9' }

  /** Every run of other characters becomes one hyphen. */
  function Hyphenate(text: string): (s: string)
    ensures SlugChars(s)
  {
    if text == "" then ""
    else if WordChar(text[0]) then [text[0]] + Hyphenate(text[1..])
    else
      var rest := Hyphenate(text[1..]);
      if rest != "" && rest[0] == '-' then rest else "-" + rest
  }

  function StripLeft(s: string): (t: string)
    ensures t == "" || t[0] != '-'
    ensures |t| <= |s| && t == s[|s| - |t|..]
    ensures SlugChars(s) ==> SlugChars(t)
  {
    if s != "" && s[0] == '-' then StripLeft(s[1..]) else s
  }

  function StripRight(s: string): (t: string)
    ensures t == "" || t[|t| - 1] != '-'
    ensures t <= s
    ensures SlugChars(s) ==> SlugChars(t)
  {
    if s != "" && s[|s| - 1] == '-' then StripRight(s[..|s| - 1]) else s
  }

  /** `slugify` after stripping and lower-casing, which are left to the caller. */
  function Slugify(lowered: string): (s: string)
    ensures IsSlug(s) && s[0] != '-' && s[|s| - 1] != '-'
  {
    var text := StripRight(StripLeft(Hyphenate(lowered)));
    var left := StripLeft(Hyphenate(lowered));
    assert text != "" ==> text[0] == left[0];
    if text == "" then "branch" else text
  }

  predicate Tidy(s: string) {
    (forall i :: 0 <= i < |s| ==> SlugChar(s[i])) && forall i :: 0 < i < |s| ==> s[i - 1] != '-' || s[i] != '-'
  }

  lemma {:induction false} HyphenateTidies(text: string)
    ensures Tidy(Hyphenate(text))
    ensures Tidy(text) ==> Hyphenate(text) == text
  {
    if text != "" {
      HyphenateTidies(text[1..]);
      var rest := Hyphenate(text[1..]);
      if Tidy(text) {
        assert Tidy(text[1..]) && rest == text[1..];
        assert text == [text[0]] + text[1..];
      }
    }
  }

  lemma SliceIsTidy(s: string, lo: nat, hi: nat)
    requires Tidy(s) && lo <= hi <= |s|
    ensures Tidy(s[lo..hi])
  {
  }

  lemma StripsToSlice(s: string) returns (lo: nat, hi: nat)
    ensures lo <= hi <= |s| && StripRight(StripLeft(s)) == s[lo..hi]
  {
    hide StripLeft, StripRight;
    var l := StripLeft(s);
    var r := StripRight(l);
    lo, hi := |s| - |l|, |s| - |l| + |r|;
    assert r == l[..|r|];
    SliceOfTail(s, lo, |r|);
  }

  lemma SliceOfTail(s: string, lo: nat, n: nat)
    requires lo + n <= |s|
    ensures s[lo..][..n] == s[lo..lo + n]
  {
  }

  lemma SlugIsTidy(lowered: string)
    ensures Tidy(Slugify(lowered))
  {
    hide Hyphenate, StripLeft, StripRight, Tidy;
    HyphenateTidies(lowered);
    var lo, hi := StripsToSlice(Hyphenate(lowered));
    SliceIsTidy(Hyphenate(lowered), lo, hi);
    BranchIsTidy();
  }

  lemma BranchIsTidy()
    ensures Tidy("branch")
  {
  }

  lemma NothingToStrip(s: string)
    requires s != "" && s[0] != '-' && s[|s| - 1] != '-'
    ensures StripRight(StripLeft(s)) == s
  {
  }

  /** Slugs are fixed points: a stored slug survives being slugified again, as path navigation does. */
  lemma SlugifyIsIdempotent(lowered: string)
    ensures Slugify(Slugify(lowered)) == Slugify(lowered)
  {
    SlugIsTidy(lowered);
    var s := Slugify(lowered);
    HyphenateTidies(s);
    NothingToStrip(s);
    hide Hyphenate, StripLeft, StripRight;
    assert Hyphenate(s) == s;
  }

  /** A slug has no slash, so extending a path by one only adds the path itself as a prefix directory. */
  lemma OneStepDown(q: string, p: string, slug: string)
    requires IsSlug(slug)
    ensures Within(p + "/" + slug, q) <==> q == p || Within(p, q)
  {
    var whole := p + "/" + slug;
    assert forall i :: |p| < i < |whole| ==> whole[i] == slug[i - |p| - 1];
    if q + "/" <= whole {
      assert whole[|q|] == '/';
      if |q| == |p| {
        assert q == whole[..|q|] == p;
      } else {
        assert |q| < |p|;
        assert p[..|q| + 1] == whole[..|q| + 1] == q + "/";
      }
    }
    if q == p { assert whole[..|q| + 1] == q + "/"; }
    if q + "/" <= p { assert whole[..|q| + 1] == p[..|q| + 1] == q + "/"; }
  }

  // ----- trees -------------------------------------------------------------

  predicate Placed(kind: Kind, parentKind: Option<Kind>) {
    match kind
    case Organization => parentKind.None?
    case Department => parentKind == Some(Organization)
    case Folder => parentKind.Some?
  }

  function ParentPath(t: Tree, parent: Option<Id>): string
    requires parent.Some? ==> parent.value in t
  {
    if parent.Some? then t[parent.value].path else ""
  }

  function ParentDepth(t: Tree, parent: Option<Id>): int
    requires parent.Some? ==> parent.value in t
  {
    if parent.Some? then t[parent.value].depth else -1
  }

  function ParentKind(t: Tree, parent: Option<Id>): Option<Kind>
    requires parent.Some? ==> parent.value in t
  {
    if parent.Some? then Some(t[parent.value].kind) else None
  }

  /** One row agrees with its parent row. */
  predicate RowOk(t: Tree, id: Id)
    requires id in t
  {
    var b := t[id];
    IsSlug(b.slug) && 0 <= b.depth < MAX_DEPTH &&
    (b.parent.Some? ==> b.parent.value in t) &&
    b.parentKind == ParentKind(t, b.parent) && Placed(b.kind, b.parentKind) &&
    b.depth == ParentDepth(t, b.parent) + 1 &&
    b.path == ParentPath(t, b.parent) + "/" + b.slug
  }

  predicate PathsDistinct(t: Tree) {
    forall x, y :: x in t && y in t && t[x].path == t[y].path ==> x == y
  }

  predicate Valid(t: Tree) {
    PathsDistinct(t) && forall id :: id in t ==> RowOk(t, id)
  }

  /** The branch `n` parent pointers above `c`, read off any tree, sound or not. */
  function Climb(t: Tree, c: Id, n: nat): Option<Id>
    decreases n
  {
    if c !in t then None
    else if n == 0 then Some(c)
    else if t[c].parent.None? then None
    else Climb(t, t[c].parent.value, n - 1)
  }

  ghost predicate HasCycle(t: Tree) {
    exists x, n: nat :: n > 0 && Climb(t, x, n) == Some(x)
  }

  /** `a` is a proper ancestor of `c` along parent pointers. */
  predicate Below(t: Tree, c: Id, a: Id)
    requires Valid(t) && c in t
    decreases t[c].depth
  {
    assert RowOk(t, c);
    var p := t[c].parent;
    p.Some? && (assert RowOk(t, p.value); p.value == a || Below(t, p.value, a))
  }

  /** Prefix scan and parent pointers name the same descendants. */
  lemma {:induction false} PrefixScanIsDescendants(t: Tree, c: Id, a: Id)
    requires Valid(t) && c in t && a in t
    ensures Within(t[c].path, t[a].path) <==> Below(t, c, a)
    decreases t[c].depth
  {
    assert RowOk(t, c) && RowOk(t, a);
    var b := t[c];
    OneStepDown(t[a].path, ParentPath(t, b.parent), b.slug);
    if b.parent.Some? {
      assert RowOk(t, b.parent.value);
      PrefixScanIsDescendants(t, b.parent.value, a);
    }
  }

  lemma {:induction false} BelowClimbs(t: Tree, c: Id, a: Id) returns (n: nat)
    requires Valid(t) && c in t && Below(t, c, a)
    ensures n > 0 && Climb(t, c, n) == Some(a)
    decreases t[c].depth
  {
    assert RowOk(t, c);
    var p := t[c].parent.value;
    assert RowOk(t, p);
    hide Valid, RowOk;
    if p == a {
      n := 1;
      assert Climb(t, a, 0) == Some(a);
    } else {
      var m := BelowClimbs(t, p, a);
      n := m + 1;
    }
  }

  lemma {:induction false} ClimbingIsBelow(t: Tree, c: Id, a: Id, n: nat)
    requires Valid(t) && c in t && n > 0 && Climb(t, c, n) == Some(a)
    ensures Below(t, c, a)
    decreases n
  {
    assert RowOk(t, c);
    var p := t[c].parent.value;
    assert RowOk(t, p);
    hide Valid, RowOk;
    if n > 1 { ClimbingIsBelow(t, p, a, n - 1); }
  }

  /** `Below` is what the stored pointers say: some positive number of steps up reaches `a`. */
  lemma BelowIsClimbing(t: Tree, c: Id, a: Id)
    requires Valid(t) && c in t
    ensures Below(t, c, a) <==> exists n: nat :: n > 0 && Climb(t, c, n) == Some(a)
  {
    if Below(t, c, a) { var n := BelowClimbs(t, c, a); }
    forall n: nat | n > 0 && Climb(t, c, n) == Some(a) ensures Below(t, c, a) {
      ClimbingIsBelow(t, c, a, n);
    }
  }

  /** A number that falls along every parent pointer rules cycles out. */
  lemma {:induction false} ClimbingFalls(t: Tree, level: map<Id, int>, c: Id, n: nat, a: Id)
    requires t.Keys <= level.Keys
    requires forall x :: x in t && t[x].parent.Some? && t[x].parent.value in t ==> level[t[x].parent.value] < level[x]
    requires Climb(t, c, n) == Some(a)
    ensures a in t && c in t && level[a] <= level[c] - n
    decreases n
  {
    if n > 0 {
      ClimbingFalls(t, level, t[c].parent.value, n - 1, a);
    }
  }

  lemma FallingLevelsNoCycle(t: Tree, level: map<Id, int>)
    requires t.Keys <= level.Keys
    requires forall x :: x in t && t[x].parent.Some? && t[x].parent.value in t ==> level[t[x].parent.value] < level[x]
    ensures !HasCycle(t)
  {
    forall x, n: nat | n > 0 && Climb(t, x, n) == Some(x) ensures false {
      ClimbingFalls(t, level, x, n, x);
    }
  }

  lemma ValidIsAcyclic(t: Tree)
    requires Valid(t)
    ensures !HasCycle(t)
  {
    forall x | x in t && t[x].parent.Some? && t[x].parent.value in t ensures t[t[x].parent.value].depth < t[x].depth {
      assert RowOk(t, x);
    }
    FallingLevelsNoCycle(t, map x | x in t :: t[x].depth);
  }

  /** Roots are exactly the organizations. */
  lemma RootsAreOrganizations(t: Tree, id: Id)
    requires Valid(t) && id in t
    ensures t[id].parent.None? <==> t[id].kind.Organization?
    ensures t[id].parent.None? <==> t[id].depth == 0
  {
    assert RowOk(t, id);
    if t[id].parent.Some? { assert RowOk(t, t[id].parent.value); }
  }

  /** Every directory prefix of a stored path is itself a stored path, of an ancestor. */
  lemma {:induction false} PrefixesAreBranches(t: Tree, c: Id, q: string) returns (a: Id)
    requires Valid(t) && c in t && Within(t[c].path, q) && q != ""
    ensures a in t && t[a].path == q && Below(t, c, a)
    decreases t[c].depth
  {
    assert RowOk(t, c);
    var p := t[c].parent;
    OneStepDown(q, ParentPath(t, p), t[c].slug);
    assert p.Some?;
    assert RowOk(t, p.value);
    if q == t[p.value].path { a := p.value; }
    else { a := PrefixesAreBranches(t, p.value, q); }
  }
}
