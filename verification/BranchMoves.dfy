/**
 * Growing and reshaping the tree: what `create_branch` and `move_branch`
 * decide, what they write, and why the row-by-row rewrite of a moved subtree
 * can collide at its first row only.
 */
module BranchMoves {
  import opened Prelude
  import opened BranchTree

  // ----- create ------------------------------------------------------------

  function NewRow(t: Tree, kind: Kind, parent: Option<Id>, slug: string): Branch
    requires parent.Some? ==> parent.value in t
  {
    Branch(parent, ParentKind(t, parent), kind, slug, ParentPath(t, parent) + "/" + slug, ParentDepth(t, parent) + 1)
  }

  predicate PathHeld(t: Tree, path: string, except: Id) {
    exists x :: x in t && x != except && t[x].path == path
  }

  function CreateVerdict(t: Tree, id: Id, kind: Kind, parent: Option<Id>, slug: string): Verdict {
    if parent.Some? && parent.value !in t then NotFound
    else if !Placed(kind, ParentKind(t, parent)) then Misplaced
    else if ParentDepth(t, parent) + 1 >= MAX_DEPTH then TooDeep
    else if id in t then DuplicateId
    else if PathHeld(t, NewRow(t, kind, parent, slug).path, id) then PathTaken
    else Done
  }

  /** The placement rules, kind by kind. */
  predicate MayStand(t: Tree, kind: Kind, parent: Option<Id>)
    requires parent.Some? ==> parent.value in t
  {
    (kind == Organization ==> parent.None?) &&
    (kind == Department ==> parent.Some? && t[parent.value].kind == Organization) &&
    (kind == Folder ==> parent.Some?)
  }

  /** The refusals of a create in order, and the one row an accepted create writes. */
  lemma CreateMeans(t: Tree, id: Id, kind: Kind, parent: Option<Id>, text: string)
    requires Valid(t)
    ensures var v, after := VerdictOf(t, Create(id, kind, parent, text)), Applied(t, Create(id, kind, parent, text));
            if parent.Some? && parent.value !in t then v == NotFound && after == t
            else
              var path := (if parent.Some? then t[parent.value].path else "") + "/" + Slugify(text);
              if !MayStand(t, kind, parent) then v == Misplaced && after == t
              else if parent.Some? && t[parent.value].depth >= 127 then v == TooDeep && after == t
              else if id in t then v == DuplicateId && after == t
              else if exists x :: x in t && t[x].path == path then v == PathTaken && after == t
              else
                v == Done && after == t[id := Branch(
                  parent, if parent.Some? then Some(t[parent.value].kind) else None, kind, Slugify(text), path,
                  if parent.Some? then t[parent.value].depth + 1 else 0)]
  {
    hide Slugify, Valid;
  }

  lemma CreateKeepsValid(t: Tree, id: Id, kind: Kind, parent: Option<Id>, slug: string)
    requires Valid(t) && IsSlug(slug) && CreateVerdict(t, id, kind, parent, slug) == Done
    ensures Valid(t[id := NewRow(t, kind, parent, slug)])
  {
    var t' := t[id := NewRow(t, kind, parent, slug)];
    forall x | x in t' ensures RowOk(t', x) {
      if parent.Some? { assert RowOk(t, parent.value); }
      if x != id { assert RowOk(t, x); }
    }
    assert PathsDistinct(t') by {
      hide RowOk;
      assert forall x :: x in t ==> t[x].path != t'[id].path;
    }
  }

  // ----- move --------------------------------------------------------------

  predicate InSubtree(t: Tree, x: Id, b: Id)
    requires x in t && b in t
  {
    x == b || Within(t[x].path, t[b].path)
  }

  function Subtree(t: Tree, b: Id): set<Id>
    requires b in t
  {
    set x | x in t && InSubtree(t, x, b)
  }

  predicate CanReparent(t: Tree, b: Id, parent: Option<Id>) {
    b in t && (parent.Some? ==> parent.value in t)
  }

  predicate IntoItself(t: Tree, b: Id, parent: Option<Id>)
    requires CanReparent(t, b, parent)
  {
    parent.Some? && InSubtree(t, parent.value, b)
  }

  function NewPath(t: Tree, b: Id, parent: Option<Id>): string
    requires CanReparent(t, b, parent)
  {
    ParentPath(t, parent) + "/" + t[b].slug
  }

  function NewDepth(t: Tree, b: Id, parent: Option<Id>, x: Id): int
    requires CanReparent(t, b, parent) && x in t
  {
    t[x].depth - t[b].depth + ParentDepth(t, parent) + 1
  }

  /** What remains of a subtree path below its root's: empty, or a slash and more. */
  function Suffix(t: Tree, x: Id, b: Id): string
    requires x in t && b in t && InSubtree(t, x, b)
  {
    t[x].path[|t[b].path|..]
  }

  lemma SuffixRestores(t: Tree, x: Id, b: Id)
    requires x in t && b in t && InSubtree(t, x, b)
    ensures t[x].path == t[b].path + Suffix(t, x, b)
    ensures x == b ==> Suffix(t, x, b) == ""
    ensures x != b ==> Suffix(t, x, b) != "" && Suffix(t, x, b)[0] == '/'
  {
    if x != b { assert t[x].path[|t[b].path|] == (t[b].path + "/")[|t[b].path|]; }
  }

  function MovedRow(t: Tree, b: Id, parent: Option<Id>, x: Id): Branch
    requires CanReparent(t, b, parent) && x in t && InSubtree(t, x, b)
  {
    var row := t[x].(path := NewPath(t, b, parent) + Suffix(t, x, b), depth := NewDepth(t, b, parent, x));
    if x == b then row.(parent := parent, parentKind := ParentKind(t, parent)) else row
  }

  /** The tree while the rewrite has reached the rows in `done` and no others. */
  function Partly(t: Tree, b: Id, parent: Option<Id>, done: set<Id>): Tree
    requires CanReparent(t, b, parent) && done <= Subtree(t, b)
  {
    map x | x in t :: if x in done then MovedRow(t, b, parent, x) else t[x]
  }

  function Moved(t: Tree, b: Id, parent: Option<Id>): Tree
    requires CanReparent(t, b, parent)
  {
    Partly(t, b, parent, Subtree(t, b))
  }

  predicate ExceedsDepth(t: Tree, b: Id, parent: Option<Id>)
    requires CanReparent(t, b, parent)
  {
    exists x :: x in Subtree(t, b) && NewDepth(t, b, parent, x) >= MAX_DEPTH
  }

  /** The refusals raised before anything is written. */
  function Precheck(t: Tree, b: Id, parent: Option<Id>): Verdict {
    if !CanReparent(t, b, parent) then NotFound
    else if IntoItself(t, b, parent) then Cyclic
    else if !Placed(t[b].kind, ParentKind(t, parent)) then Misplaced
    else if ExceedsDepth(t, b, parent) then TooDeep
    else Done
  }

  function MoveVerdict(t: Tree, b: Id, parent: Option<Id>): Verdict {
    if Precheck(t, b, parent) != Done then Precheck(t, b, parent)
    else if PathHeld(t, NewPath(t, b, parent), b) then PathTaken
    else Done
  }

  /** `x` is `b` or one of its descendants. */
  predicate AtOrBelow(t: Tree, x: Id, b: Id)
    requires Valid(t) && x in t
  {
    x == b || Below(t, x, b)
  }

  lemma SubtreeIsAtOrBelow(t: Tree, x: Id, b: Id)
    requires Valid(t) && x in t && b in t
    ensures InSubtree(t, x, b) <==> AtOrBelow(t, x, b)
  {
    PrefixScanIsDescendants(t, x, b);
  }

  lemma SubtreeMeans(t: Tree, b: Id)
    requires Valid(t) && b in t
    ensures forall x :: x in Subtree(t, b) <==> x in t && AtOrBelow(t, x, b)
  {
    forall x | x in t ensures x in Subtree(t, b) <==> AtOrBelow(t, x, b) { SubtreeIsAtOrBelow(t, x, b); }
    hide Valid, AtOrBelow, InSubtree;
  }

  /** The refusals of a move in order; what an accepted one writes is `MoveKeepsSubtree`'s and `MoveKeepsValid`'s. */
  lemma MoveMeans(t: Tree, b: Id, parent: Option<Id>)
    requires Valid(t)
    ensures var v := VerdictOf(t, Move(b, parent));
            if b !in t || (parent.Some? && parent.value !in t) then v == NotFound
            else if parent.Some? && AtOrBelow(t, parent.value, b) then v == Cyclic
            else if !MayStand(t, t[b].kind, parent) then v == Misplaced
            else
              var depth := if parent.Some? then t[parent.value].depth + 1 else 0;
              var path := (if parent.Some? then t[parent.value].path else "") + "/" + t[b].slug;
              if exists x :: x in t && AtOrBelow(t, x, b) && depth + t[x].depth - t[b].depth >= 128 then v == TooDeep
              else if exists x :: x in t && x != b && t[x].path == path then v == PathTaken
              else v == Done
    ensures VerdictOf(t, Move(b, parent)) != Done ==> Applied(t, Move(b, parent)) == t
  {
    if CanReparent(t, b, parent) {
      if parent.Some? { SubtreeIsAtOrBelow(t, parent.value, b); }
      DepthsMean(t, b, parent);
      PlacedMeans(t, t[b].kind, parent);
      hide Valid, InSubtree, ExceedsDepth, AtOrBelow, Placed, MayStand, Moved;
    }
  }

  lemma PlacedMeans(t: Tree, kind: Kind, parent: Option<Id>)
    requires parent.Some? ==> parent.value in t
    ensures Placed(kind, ParentKind(t, parent)) <==> MayStand(t, kind, parent)
  {
  }

  lemma DepthsMean(t: Tree, b: Id, parent: Option<Id>)
    requires Valid(t) && CanReparent(t, b, parent)
    ensures ExceedsDepth(t, b, parent) <==>
              exists x :: x in t && AtOrBelow(t, x, b) &&
                (if parent.Some? then t[parent.value].depth + 1 else 0) + t[x].depth - t[b].depth >= 128
  {
    forall x | x in t ensures x in Subtree(t, b) <==> AtOrBelow(t, x, b) { SubtreeIsAtOrBelow(t, x, b); }
    hide Valid, InSubtree, AtOrBelow, Subtree;
  }

  // ----- cycles ------------------------------------------------------------

  lemma {:induction false} BelowIsDeeper(t: Tree, c: Id, a: Id)
    requires Valid(t) && c in t && Below(t, c, a)
    ensures a in t && t[a].depth < t[c].depth
    decreases t[c].depth
  {
    assert RowOk(t, c);
    var p := t[c].parent.value;
    assert RowOk(t, p);
    if p != a { BelowIsDeeper(t, p, a); }
  }

  /** The climb from below `b` up to `b` never reads `b`'s own pointer. */
  lemma {:induction false} ClimbUnaffected(t: Tree, t': Tree, c: Id, b: Id) returns (n: nat)
    requires Valid(t) && c in t && b in t && Below(t, c, b)
    requires t'.Keys == t.Keys && forall x :: x in t && x != b ==> t'[x] == t[x]
    ensures n > 0 && Climb(t', c, n) == Some(b)
    decreases t[c].depth
  {
    BelowIsDeeper(t, c, b);
    assert RowOk(t, c);
    var p := t[c].parent.value;
    assert RowOk(t, p);
    hide Valid, RowOk;
    if p == b {
      n := 1;
      assert Climb(t', b, 0) == Some(b);
    } else {
      var m := ClimbUnaffected(t, t', p, b);
      n := m + 1;
    }
  }

  /** Subtrees are closed under parent pointers, except at the root they hang from. */
  lemma SubtreeFollowsParents(t: Tree, b: Id, x: Id)
    requires Valid(t) && b in t && x in t && x != b && t[x].parent.Some?
    ensures t[x].parent.value in t && (InSubtree(t, x, b) <==> InSubtree(t, t[x].parent.value, b))
  {
    assert RowOk(t, x);
    OneStepDown(t[b].path, t[t[x].parent.value].path, t[x].slug);
  }

  /** A root lies in no other branch's subtree. */
  lemma RootsStandApart(t: Tree, b: Id, x: Id)
    requires Valid(t) && b in t && x in t && x != b && t[x].parent.None?
    ensures !InSubtree(t, x, b)
  {
    assert RowOk(t, x) && RowOk(t, b);
    OneStepDown(t[b].path, "", t[x].slug);
  }

  /** CyclicBranchMove is raised for exactly the moves whose new pointer would close a cycle. */
  lemma CyclicExactly(t: Tree, b: Id, p: Id)
    requires Valid(t) && b in t && p in t
    ensures IntoItself(t, b, Some(p)) <==> HasCycle(t[b := t[b].(parent := Some(p))])
  {
    var t' := t[b := t[b].(parent := Some(p))];
    if p == b {
      assert Climb(t', b, 0) == Some(b) && Climb(t', b, 1) == Some(b);
    } else if Within(t[p].path, t[b].path) {
      PrefixScanIsDescendants(t, p, b);
      var n := ClimbUnaffected(t, t', p, b);
      assert Climb(t', b, n + 1) == Some(b);
    } else {
      var level := map x | x in t :: if InSubtree(t, x, b) then NewDepth(t, b, Some(p), x) else t[x].depth;
      forall x | x in t' && t'[x].parent.Some? && t'[x].parent.value in t'
        ensures level[t'[x].parent.value] < level[x]
      {
        assert RowOk(t, x);
        if x != b { SubtreeFollowsParents(t, b, x); }
      }
      FallingLevelsNoCycle(t', level);
    }
  }

  // ----- the rewrite -------------------------------------------------------

  /** A path that is free for the moved branch has nothing under it but that branch's own subtree. */
  lemma UnderFreePath(t: Tree, b: Id, n: string, y: Id)
    requires Valid(t) && b in t && y in t && !PathHeld(t, n, b) && n != "" && Within(t[y].path, n)
    ensures t[b].path == n && InSubtree(t, y, b)
  {
    var a := PrefixesAreBranches(t, y, n);
    hide Valid;
  }

  /** Outside its own subtree, a branch cannot be given a path inside its old one. */
  lemma NewPathNotInsideOld(t: Tree, b: Id, parent: Option<Id>)
    requires Valid(t) && CanReparent(t, b, parent) && !IntoItself(t, b, parent)
    ensures !Within(NewPath(t, b, parent), t[b].path)
  {
    assert RowOk(t, b);
    OneStepDown(t[b].path, ParentPath(t, parent), t[b].slug);
    if parent.Some? { assert t[parent.value].path != t[b].path; }
  }

  /** Once the new path is free and the move not cyclic, old and new path diverge or coincide. */
  lemma PathsDiverge(t: Tree, b: Id, parent: Option<Id>)
    requires Valid(t) && CanReparent(t, b, parent) && !IntoItself(t, b, parent)
    requires !PathHeld(t, NewPath(t, b, parent), b)
    ensures var n, o := NewPath(t, b, parent), t[b].path;
            n == o || (!Within(n, o) && !Within(o, n))
  {
    var n, o := NewPath(t, b, parent), t[b].path;
    NewPathNotInsideOld(t, b, parent);
    assert n != "";
    hide Valid, NewPath, IntoItself;
    if Within(o, n) { UnderFreePath(t, b, n, b); }
  }

  /** Two paths with one common extension by whole segments: one lies in the other, or they are equal. */
  lemma SharedExtension(n: string, o: string, sn: string, so: string)
    requires n + sn == o + so
    requires sn == "" || sn[0] == '/'
    requires so == "" || so[0] == '/'
    ensures n == o || Within(o, n) || Within(n, o)
  {
    if |n| < |o| {
      assert o[..|n| + 1] == (n + sn)[..|n| + 1] == n + "/";
    } else if |o| < |n| {
      assert n[..|o| + 1] == (o + so)[..|o| + 1] == o + "/";
    } else {
      assert n == (n + sn)[..|n|] == (o + so)[..|n|] == o;
    }
  }

  lemma RewrittenMissesInside(t: Tree, b: Id, parent: Option<Id>, x: Id, y: Id)
    requires Valid(t) && MoveVerdict(t, b, parent) == Done
    requires x in Subtree(t, b) && y in Subtree(t, b) && x != y
    requires y != b
    ensures MovedRow(t, b, parent, x).path != t[y].path
  {
    PathsDiverge(t, b, parent);
    SuffixRestores(t, x, b);
    SuffixRestores(t, y, b);
    var n, o, sx, sy := NewPath(t, b, parent), t[b].path, Suffix(t, x, b), Suffix(t, y, b);
    assert t[x].path != t[y].path;
    hide Valid, RowOk, MoveVerdict, NewPath, Suffix, Within;
    if n + sx == o + sy { SharedExtension(n, o, sx, sy); }
  }

  lemma RewrittenMissesOutside(t: Tree, b: Id, parent: Option<Id>, x: Id, y: Id)
    requires Valid(t) && MoveVerdict(t, b, parent) == Done
    requires x in Subtree(t, b) && y in t && y !in Subtree(t, b)
    ensures MovedRow(t, b, parent, x).path != t[y].path
  {
    var n, sx := NewPath(t, b, parent), Suffix(t, x, b);
    SuffixRestores(t, x, b);
    assert !PathHeld(t, n, b) && n != "";
    assert t[y].path != n;
    hide MoveVerdict, NewPath, Suffix;
    if Within(t[y].path, n) { UnderFreePath(t, b, n, y); }
    hide *;
    SegmentExtension(n, sx);
    assert MovedRow(t, b, parent, x).path == n + sx by { MovedPath(t, b, parent, x); }
  }

  lemma MovedPath(t: Tree, b: Id, parent: Option<Id>, x: Id)
    requires CanReparent(t, b, parent) && x in t && InSubtree(t, x, b)
    ensures MovedRow(t, b, parent, x).path == NewPath(t, b, parent) + Suffix(t, x, b)
  {
  }

  lemma SegmentExtension(n: string, sx: string)
    requires sx == "" || sx[0] == '/'
    ensures n + sx == n || Within(n + sx, n)
  {
    if sx != "" { assert (n + sx)[..|n| + 1] == n + "/"; }
    else { assert n + sx == n; }
  }

  /** A rewritten row and a row not yet, or never, rewritten cannot share a path. */
  lemma RewrittenMissesOthers(t: Tree, b: Id, parent: Option<Id>, x: Id, y: Id)
    requires Valid(t) && MoveVerdict(t, b, parent) == Done
    requires x in Subtree(t, b) && y in t && y != b && x != y
    ensures MovedRow(t, b, parent, x).path != t[y].path
  {
    assert b in t;
    hide MoveVerdict, Valid, MovedRow;
    if y in Subtree(t, b) { RewrittenMissesInside(t, b, parent, x, y); }
    else { RewrittenMissesOutside(t, b, parent, x, y); }
  }

  /** At every moment of the rewrite, whatever order it takes, all paths are distinct. */
  lemma NoRewriteStepCollides(t: Tree, b: Id, parent: Option<Id>, done: set<Id>)
    requires Valid(t) && MoveVerdict(t, b, parent) == Done
    requires b in done && done <= Subtree(t, b)
    ensures PathsDistinct(Partly(t, b, parent, done))
  {
    var m := Partly(t, b, parent, done);
    forall x, y | x in m && y in m && x != y ensures m[x].path != m[y].path {
      if x in done && y in done {
        SuffixRestores(t, x, b);
        SuffixRestores(t, y, b);
        var n := NewPath(t, b, parent);
        assert (n + Suffix(t, x, b))[|n|..] == Suffix(t, x, b);
        assert (n + Suffix(t, y, b))[|n|..] == Suffix(t, y, b);
      } else if x in done {
        RewrittenMissesOthers(t, b, parent, x, y);
      } else if y in done {
        RewrittenMissesOthers(t, b, parent, y, x);
      }
    }
  }

  lemma MovedRootOk(t: Tree, b: Id, parent: Option<Id>)
    requires Valid(t) && MoveVerdict(t, b, parent) == Done
    ensures RowOk(Moved(t, b, parent), b)
  {
    assert RowOk(t, b) && b in Subtree(t, b);
    SuffixRestores(t, b, b);
    if parent.Some? { assert RowOk(t, parent.value) && parent.value !in Subtree(t, b); }
    assert NewDepth(t, b, parent, b) < MAX_DEPTH;
    assert NewPath(t, b, parent) + "" == NewPath(t, b, parent);
  }

  lemma MovedDescendantOk(t: Tree, b: Id, parent: Option<Id>, x: Id)
    requires Valid(t) && MoveVerdict(t, b, parent) == Done && x in Subtree(t, b) && x != b
    ensures RowOk(Moved(t, b, parent), x)
  {
    assert RowOk(t, x);
    if t[x].parent.None? { RootsStandApart(t, b, x); }
    SubtreeFollowsParents(t, b, x);
    MovedDepthsInRange(t, b, parent, x);
    var p := t[x].parent.value;
    assert p in Subtree(t, b);
    hide Valid, MoveVerdict, InSubtree, RowOk;
    SuffixGrows(t, b, x);
    MovedChildOk(t, b, parent, p, x);
  }

  lemma SuffixGrows(t: Tree, b: Id, x: Id)
    requires b in t && x in t && RowOk(t, x) && t[x].parent.Some?
    requires InSubtree(t, x, b) && InSubtree(t, t[x].parent.value, b)
    ensures Suffix(t, x, b) == Suffix(t, t[x].parent.value, b) + "/" + t[x].slug
  {
    SuffixRestores(t, x, b);
    SuffixRestores(t, t[x].parent.value, b);
  }

  lemma MovedChildOk(t: Tree, b: Id, parent: Option<Id>, p: Id, x: Id)
    requires CanReparent(t, b, parent) && x in Subtree(t, b) && p in Subtree(t, b) && x != b
    requires RowOk(t, x) && t[x].parent == Some(p)
    requires 0 <= NewDepth(t, b, parent, x) < MAX_DEPTH
    requires Suffix(t, x, b) == Suffix(t, p, b) + "/" + t[x].slug
    ensures RowOk(Moved(t, b, parent), x)
  {
    var n := NewPath(t, b, parent);
    assert n + Suffix(t, x, b) == (n + Suffix(t, p, b)) + "/" + t[x].slug;
    hide InSubtree, Suffix, NewPath, Subtree;
    assert p in Moved(t, b, parent);
  }

  lemma MovedDepthsInRange(t: Tree, b: Id, parent: Option<Id>, x: Id)
    requires Valid(t) && MoveVerdict(t, b, parent) == Done && x in Subtree(t, b) && x != b
    ensures 0 <= NewDepth(t, b, parent, x) < MAX_DEPTH
  {
    PrefixScanIsDescendants(t, x, b);
    BelowIsDeeper(t, x, b);
    if parent.Some? { assert RowOk(t, parent.value); }
  }

  lemma UnmovedRowOk(t: Tree, b: Id, parent: Option<Id>, x: Id)
    requires Valid(t) && MoveVerdict(t, b, parent) == Done && x in t && x !in Subtree(t, b)
    ensures RowOk(Moved(t, b, parent), x)
  {
    assert RowOk(t, x);
    if t[x].parent.Some? {
      SubtreeFollowsParents(t, b, x);
    }
  }

  lemma MovedRowOk(t: Tree, b: Id, parent: Option<Id>, x: Id)
    requires Valid(t) && MoveVerdict(t, b, parent) == Done && x in t
    ensures RowOk(Moved(t, b, parent), x)
  {
    assert b in t;
    hide Valid, MoveVerdict, RowOk, Moved, InSubtree;
    if x == b { MovedRootOk(t, b, parent); }
    else if x in Subtree(t, b) { MovedDescendantOk(t, b, parent, x); }
    else { UnmovedRowOk(t, b, parent, x); }
  }

  /** A move keeps the tree sound: pointers, kinds, paths, depths and uniqueness. */
  lemma MoveKeepsValid(t: Tree, b: Id, parent: Option<Id>)
    requires Valid(t) && MoveVerdict(t, b, parent) == Done
    ensures Valid(Moved(t, b, parent))
  {
    NoRewriteStepCollides(t, b, parent, Subtree(t, b));
    forall x | x in t ensures RowOk(Moved(t, b, parent), x) { MovedRowOk(t, b, parent, x); }
  }

  /** Parent pointers other than the moved branch's own survive the move, so its subtree stays its subtree. */
  lemma MoveKeepsSubtree(t: Tree, b: Id, parent: Option<Id>)
    requires Valid(t) && MoveVerdict(t, b, parent) == Done
    ensures Moved(t, b, parent).Keys == t.Keys
    ensures Moved(t, b, parent)[b].parent == parent
    ensures forall x :: x in t && x != b ==> Moved(t, b, parent)[x].parent == t[x].parent
    ensures forall x :: x in t && x !in Subtree(t, b) ==> Moved(t, b, parent)[x] == t[x]
    ensures Subtree(Moved(t, b, parent), b) == Subtree(t, b)
  {
    var m := Moved(t, b, parent);
    MoveKeepsValid(t, b, parent);
    forall x | x in t ensures InSubtree(m, x, b) <==> InSubtree(t, x, b) { SameSubtree(t, b, parent, x); }
  }

  lemma {:induction false} SameSubtree(t: Tree, b: Id, parent: Option<Id>, x: Id)
    requires Valid(t) && MoveVerdict(t, b, parent) == Done && x in t
    requires Valid(Moved(t, b, parent))
    ensures InSubtree(Moved(t, b, parent), x, b) <==> InSubtree(t, x, b)
    decreases t[x].depth
  {
    var m := Moved(t, b, parent);
    assert RowOk(t, x);
    if x != b {
      assert m[x].parent == t[x].parent;
      if t[x].parent.Some? {
        SubtreeFollowsParents(t, b, x);
        SubtreeFollowsParents(m, b, x);
        assert RowOk(t, t[x].parent.value);
        SameSubtree(t, b, parent, t[x].parent.value);
      } else {
        RootsStandApart(t, b, x);
        RootsStandApart(m, b, x);
      }
    }
  }

  /** What an accepted move leaves behind. */
  lemma MoveWrites(t: Tree, b: Id, parent: Option<Id>)
    requires Valid(t) && VerdictOf(t, Move(b, parent)) == Done
    ensures var after := Applied(t, Move(b, parent));
            Valid(after) && after.Keys == t.Keys && after[b].parent == parent &&
            (forall x :: x in t && x != b ==> after[x].parent == t[x].parent) &&
            (forall x :: x in t ==> after[x].kind == t[x].kind && after[x].slug == t[x].slug) &&
            (forall x :: x in t && !AtOrBelow(t, x, b) ==> after[x] == t[x])
  {
    MoveKeepsValid(t, b, parent);
    MoveKeepsSubtree(t, b, parent);
    MovedKeepsNames(t, b, parent);
    forall x | x in t ensures x in Subtree(t, b) <==> AtOrBelow(t, x, b) { SubtreeIsAtOrBelow(t, x, b); }
    hide Valid, Moved, AtOrBelow, Subtree;
  }

  lemma MovedKeepsNames(t: Tree, b: Id, parent: Option<Id>)
    requires CanReparent(t, b, parent)
    ensures forall x :: x in t ==>
              x in Moved(t, b, parent) && Moved(t, b, parent)[x].kind == t[x].kind && Moved(t, b, parent)[x].slug == t[x].slug
  {
  }

  // ----- runs --------------------------------------------------------------

  datatype TreeOp =
    | Create(id: Id, kind: Kind, parent: Option<Id>, text: string)
    | Move(id: Id, parent: Option<Id>)

  function VerdictOf(t: Tree, op: TreeOp): Verdict {
    match op
    case Create(id, kind, parent, text) => CreateVerdict(t, id, kind, parent, Slugify(text))
    case Move(id, parent) => MoveVerdict(t, id, parent)
  }

  /** A refused call raises and leaves the tree as it was. */
  function Applied(t: Tree, op: TreeOp): Tree {
    if VerdictOf(t, op) != Done then t
    else
      match op
      case Create(id, kind, parent, text) => t[id := NewRow(t, kind, parent, Slugify(text))]
      case Move(id, parent) => Moved(t, id, parent)
  }

  function AppliedAll(ops: seq<TreeOp>): Tree {
    if ops == [] then map[] else Applied(AppliedAll(ops[..|ops| - 1]), ops[|ops| - 1])
  }

  /** Every tree any sequence of creates and moves can reach is sound and acyclic, rooted in organizations only. */
  lemma {:induction false} ReachableTreesAreValid(ops: seq<TreeOp>)
    ensures Valid(AppliedAll(ops)) && !HasCycle(AppliedAll(ops))
    ensures forall id :: id in AppliedAll(ops) ==>
              (AppliedAll(ops)[id].parent.None? <==> AppliedAll(ops)[id].kind.Organization?) &&
              0 <= AppliedAll(ops)[id].depth < 128
  {
    if ops != [] {
      var t, op := AppliedAll(ops[..|ops| - 1]), ops[|ops| - 1];
      ReachableTreesAreValid(ops[..|ops| - 1]);
      if VerdictOf(t, op) == Done {
        match op {
          case Create(id, kind, parent, text) => CreateKeepsValid(t, id, kind, parent, Slugify(text));
          case Move(id, parent) => MoveKeepsValid(t, id, parent);
        }
      }
    }
    var t := AppliedAll(ops);
    ValidIsAcyclic(t);
    forall id | id in t ensures (t[id].parent.None? <==> t[id].kind.Organization?) && 0 <= t[id].depth < 128 {
      RootsAreOrganizations(t, id);
      assert RowOk(t, id);
    }
  }
}
