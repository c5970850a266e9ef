/** The tree's storage, updated row by row inside transactions. */
module BranchRepository {
  import opened Prelude
  import opened BranchTree
  import opened BranchMoves

  /** Proper ancestors of `c`, root first. */
  function Ancestry(t: Tree, c: Id): seq<Id>
    requires Valid(t) && c in t
    decreases t[c].depth
  {
    assert RowOk(t, c);
    if t[c].parent.None? then []
    else
      assert RowOk(t, t[c].parent.value);
      Ancestry(t, t[c].parent.value) + [t[c].parent.value]
  }

  /** The ancestry lists exactly the branches above, one per depth. */
  lemma {:induction false} AncestryIsAbove(t: Tree, c: Id)
    requires Valid(t) && c in t
    ensures |Ancestry(t, c)| == t[c].depth
    ensures forall i :: 0 <= i < |Ancestry(t, c)| ==> Ancestry(t, c)[i] in t && t[Ancestry(t, c)[i]].depth == i
    ensures forall a :: a in Ancestry(t, c) <==> Below(t, c, a)
    decreases t[c].depth
  {
    assert RowOk(t, c);
    if t[c].parent.Some? {
      assert RowOk(t, t[c].parent.value);
      AncestryIsAbove(t, t[c].parent.value);
    }
  }

  lemma AboveIsShallower(t: Tree, c: Id)
    requires Valid(t) && c in t
    ensures t[c].depth >= 0
    ensures t[c].parent.Some? ==> t[c].parent.value in t && 0 <= t[t[c].parent.value].depth < t[c].depth
    ensures Ancestry(t, c) == if t[c].parent.Some? then Ancestry(t, t[c].parent.value) + [t[c].parent.value] else []
  {
    assert RowOk(t, c);
    if t[c].parent.Some? { assert RowOk(t, t[c].parent.value); }
  }

  class ContactsRepository {
    var branches: Tree

    constructor ()
      ensures branches == map[]
    {
      branches := map[];
    }

    method CreateBranch(id: Id, text: string, kind: Kind, parent: Option<Id>) returns (v: Verdict)
      requires Valid(branches)
      modifies this
      ensures v == VerdictOf(old(branches), Create(id, kind, parent, text))
      ensures branches == Applied(old(branches), Create(id, kind, parent, text)) && Valid(branches)
    {
      hide Valid, RowOk, Slugify;
      var segment := Slugify(text);
      var path, depth, parentKind := "/" + segment, 0, None;
      if parent.Some? {
        if parent.value !in branches { return NotFound; }
        var above := branches[parent.value];
        path, depth, parentKind := above.path + "/" + segment, above.depth + 1, Some(above.kind);
      }
      if !Placed(kind, parentKind) { return Misplaced; }
      if depth >= MAX_DEPTH { return TooDeep; }
      if id in branches { return DuplicateId; }
      if PathHeld(branches, path, id) {
        assert path == NewRow(branches, kind, parent, segment).path;
        return PathTaken;
      }
      assert Branch(parent, parentKind, kind, segment, path, depth) == NewRow(branches, kind, parent, segment);
      CreateKeepsValid(branches, id, kind, parent, segment);
      branches := branches[id := Branch(parent, parentKind, kind, segment, path, depth)];
      return Done;
    }

    /** Root-first ancestry by following pointers, stopping at any id met twice. */
    method Ancestors(id: Id) returns (v: Verdict, chain: seq<Id>)
      requires Valid(branches)
      ensures v == if id in branches then Done else NotFound
      ensures id in branches ==> chain == Ancestry(branches, id)
    {
      chain := [];
      hide *;
      var t := branches;
      if id !in t { return NotFound, chain; }
      AboveIsShallower(t, id);
      var seen: set<Id> := {};
      var next := t[id].parent;
      while next.Some? && next.value !in seen
        invariant next.Some? ==> next.value in t
        invariant forall x :: x in seen ==> x in t && (next.Some? ==> t[next.value].depth < t[x].depth)
        invariant Ancestry(t, id) == (if next.Some? then Ancestry(t, next.value) + [next.value] else []) + chain
        decreases if next.Some? then t[next.value].depth + 1 else 0
      {
        var above := next.value;
        AboveIsShallower(t, above);
        seen := seen + {above};
        ghost var prefix := if t[above].parent.Some? then Ancestry(t, t[above].parent.value) + [t[above].parent.value] else [];
        assert (prefix + [above]) + chain == prefix + ([above] + chain);
        chain := [above] + chain;
        next := t[above].parent;
      }
      return Done, chain;
    }

    /** One `update ... where branch_id`, under the unique index on paths. */
    method UpdateRow(id: Id, row: Branch) returns (ok: bool)
      modifies this
      ensures ok <==> !PathHeld(old(branches), row.path, id)
      ensures branches == if ok then old(branches)[id := row] else old(branches)
    {
      ok := !PathHeld(branches, row.path, id);
      if ok { branches := branches[id := row]; }
    }

    /** How much deeper than `base` the given rows reach; zero when there are none. */
    method Deepest(rows: set<Id>, base: int) returns (d: int)
      requires rows <= branches.Keys
      ensures d >= 0 || exists x :: x in rows && branches[x].depth - base == d
      ensures rows == {} ==> d == 0
      ensures rows != {} ==> exists x :: x in rows && branches[x].depth - base == d
      ensures forall x :: x in rows ==> branches[x].depth - base <= d
    {
      d := 0;
      var first, rest := true, rows;
      while rest != {}
        invariant rest <= rows
        invariant first <==> rest == rows
        invariant rows == {} ==> d == 0
        invariant !first ==> exists x :: x in rows && branches[x].depth - base == d
        invariant forall x :: x in rows && x !in rest ==> branches[x].depth - base <= d
        decreases rest
      {
        var x :| x in rest;
        if first || branches[x].depth - base > d { d := branches[x].depth - base; }
        first, rest := false, rest - {x};
      }
    }

    /** Everything `move_branch` reads and refuses before its first update. */
    method CheckMove(b: Id, parent: Option<Id>)
      returns (v: Verdict, newPath: string, newDepth: int, parentKind: Option<Kind>, descendants: set<Id>)
      requires Valid(branches)
      ensures v == Precheck(branches, b, parent)
      ensures v == Done ==>
        newPath == NewPath(branches, b, parent) && newDepth == NewDepth(branches, b, parent, b) &&
        parentKind == ParentKind(branches, parent) && b !in descendants && Subtree(branches, b) == descendants + {b}
    {
      hide Valid, ExceedsDepth, Subtree;
      newPath, newDepth, parentKind, descendants := "", 0, None, {};
      var t := branches;
      if b !in t { return NotFound, newPath, newDepth, parentKind, descendants; }
      var row := t[b];
      newPath := "/" + row.slug;
      if parent.Some? {
        if parent.value !in t { return NotFound, newPath, newDepth, parentKind, descendants; }
        var above := t[parent.value];
        if parent.value == b || Within(above.path, row.path) {
          return Cyclic, newPath, newDepth, parentKind, descendants;
        }
        newPath, newDepth, parentKind := above.path + "/" + row.slug, above.depth + 1, Some(above.kind);
      }
      if !Placed(row.kind, parentKind) { return Misplaced, newPath, newDepth, parentKind, descendants; }
      descendants := set x | x in t && Within(t[x].path, row.path);
      SubtreeIsSelfAndScan(t, b);
      var deepest := Deepest(descendants, row.depth);
      DepthGuard(t, b, parent, descendants, deepest);
      v := if newDepth + deepest >= MAX_DEPTH then TooDeep else Done;
      assert "" + "/" + row.slug == "/" + row.slug;
    }

    method MoveBranch(b: Id, parent: Option<Id>) returns (v: Verdict)
      requires Valid(branches)
      modifies this
      ensures v == VerdictOf(old(branches), Move(b, parent))
      ensures branches == Applied(old(branches), Move(b, parent)) && Valid(branches)
    {
      var t := branches;
      var newPath, newDepth, parentKind, descendants;
      v, newPath, newDepth, parentKind, descendants := CheckMove(b, parent);
      if v != Done { return; }
      PrecheckedCanReparent(t, b, parent);
      hide Valid, Precheck, Partly, MovedRow, NewPath, ParentKind;
      var ok := UpdateRow(
        b, t[b].(parent := parent, parentKind := parentKind, path := newPath, depth := newDepth));
      if !ok { return PathTaken; }
      FirstRewrite(t, b, parent);
      RewriteDescendants(t, b, parent, descendants, newPath, newDepth);
      MoveKeepsValid(t, b, parent);
    }

    /** The loop over the rows fetched before the move. */
    method RewriteDescendants(
      fetched: Tree, b: Id, parent: Option<Id>, descendants: set<Id>, newPath: string, newDepth: int)
      requires Valid(fetched) && MoveVerdict(fetched, b, parent) == Done
      requires b !in descendants && Subtree(fetched, b) == descendants + {b}
      requires newPath == NewPath(fetched, b, parent) && newDepth == NewDepth(fetched, b, parent, b)
      requires branches == Partly(fetched, b, parent, {b})
      modifies this
      ensures branches == Moved(fetched, b, parent)
    {
      assert CanReparent(fetched, b, parent);
      hide *;
      var todo := descendants;
      ghost var done := {b};
      while todo != {}
        invariant b in done && done !! todo && done + todo == Subtree(fetched, b)
        invariant branches == Partly(fetched, b, parent, done)
        decreases todo
      {
        var x :| x in todo;
        RewriteOne(fetched, b, parent, done, x, newPath, newDepth);
        todo, done := todo - {x}, done + {x};
      }
      assert done + {} == done;
      PartlyAll(fetched, b, parent);
    }

    /** One descendant's update: it meets the unique index and always passes. */
    method RewriteOne(
      fetched: Tree, b: Id, parent: Option<Id>, ghost done: set<Id>, x: Id, newPath: string, newDepth: int)
      requires Valid(fetched) && MoveVerdict(fetched, b, parent) == Done
      requires b in done && done <= Subtree(fetched, b) && x in Subtree(fetched, b) && x !in done
      requires newPath == NewPath(fetched, b, parent) && newDepth == NewDepth(fetched, b, parent, b)
      requires branches == Partly(fetched, b, parent, done)
      modifies this
      ensures branches == Partly(fetched, b, parent, done + {x})
    {
      assert CanReparent(fetched, b, parent);
      hide *;
      RewriteIsFree(fetched, b, parent, done, x);
      SubtreeExtends(fetched, b, x);
      var row, at := fetched[b], fetched[x];
      var moved := at.(path := newPath + at.path[|row.path|..], depth := at.depth - row.depth + newDepth);
      MovedRowFields(fetched, b, parent, x, moved);
      var ok := UpdateRow(x, moved);
      assert ok;
    }
  }

  lemma FirstRewrite(t: Tree, b: Id, parent: Option<Id>)
    requires CanReparent(t, b, parent)
    ensures b in Subtree(t, b)
    ensures Partly(t, b, parent, {b}) == t[b := t[b].(
              parent := parent, parentKind := ParentKind(t, parent),
              path := NewPath(t, b, parent), depth := ParentDepth(t, parent) + 1)]
  {
    assert b in Subtree(t, b);
    assert NewPath(t, b, parent) + Suffix(t, b, b) == NewPath(t, b, parent);
  }

  lemma SubtreeExtends(t: Tree, b: Id, x: Id)
    requires b in t && x in Subtree(t, b)
    ensures x in t && InSubtree(t, x, b) && |t[b].path| <= |t[x].path|
  {
  }

  lemma MovedRowFields(t: Tree, b: Id, parent: Option<Id>, x: Id, moved: Branch)
    requires CanReparent(t, b, parent) && x in t && x != b && InSubtree(t, x, b)
    requires moved == t[x].(path := NewPath(t, b, parent) + t[x].path[|t[b].path|..],
                            depth := t[x].depth - t[b].depth + NewDepth(t, b, parent, b))
    ensures moved == MovedRow(t, b, parent, x)
  {
  }

  /** Whatever rows are already rewritten, the next one's new path is free. */
  lemma RewriteIsFree(t: Tree, b: Id, parent: Option<Id>, done: set<Id>, x: Id)
    requires Valid(t) && MoveVerdict(t, b, parent) == Done
    requires b in done && done <= Subtree(t, b) && x in Subtree(t, b) && x !in done
    ensures x in t && InSubtree(t, x, b)
    ensures var moved := MovedRow(t, b, parent, x);
            !PathHeld(Partly(t, b, parent, done), moved.path, x) &&
            Partly(t, b, parent, done)[x := moved] == Partly(t, b, parent, done + {x})
  {
    assert CanReparent(t, b, parent);
    NoRewriteStepCollides(t, b, parent, done + {x});
    hide Valid, MoveVerdict, NewPath, NewDepth, Suffix, InSubtree;
    PartlyGrows(t, b, parent, done, x);
    hide Partly, MovedRow;
    DistinctMeansFree(Partly(t, b, parent, done), Partly(t, b, parent, done + {x}), x);
  }

  lemma PartlyGrows(t: Tree, b: Id, parent: Option<Id>, done: set<Id>, x: Id)
    requires CanReparent(t, b, parent) && b in done && done <= Subtree(t, b) && x in Subtree(t, b) && x !in done
    ensures x in t && InSubtree(t, x, b)
    ensures Partly(t, b, parent, done + {x}) == Partly(t, b, parent, done)[x := MovedRow(t, b, parent, x)]
  {
    hide MovedRow, InSubtree;
  }

  lemma DistinctMeansFree(m: Tree, m': Tree, x: Id)
    requires PathsDistinct(m') && x in m' && m' == m[x := m'[x]]
    ensures !PathHeld(m, m'[x].path, x)
  {
    assert forall y :: y in m && y != x ==> y in m' && m[y] == m'[y];
  }

  lemma PartlyAll(t: Tree, b: Id, parent: Option<Id>)
    requires CanReparent(t, b, parent)
    ensures Partly(t, b, parent, Subtree(t, b)) == Moved(t, b, parent)
  {
  }

  lemma PrecheckedCanReparent(t: Tree, b: Id, parent: Option<Id>)
    requires Precheck(t, b, parent) == Done
    ensures CanReparent(t, b, parent) && b in Subtree(t, b)
    ensures NewDepth(t, b, parent, b) == ParentDepth(t, parent) + 1
  {
  }

  lemma SubtreeIsSelfAndScan(t: Tree, b: Id)
    requires b in t
    ensures var scan := set x | x in t && Within(t[x].path, t[b].path);
            b !in scan && Subtree(t, b) == scan + {b}
  {
  }

  /** Comparing one maximum against the bound refuses exactly the moves that put some row too deep. */
  lemma DepthGuard(t: Tree, b: Id, parent: Option<Id>, scan: set<Id>, deepest: int)
    requires Valid(t) && CanReparent(t, b, parent) && Subtree(t, b) == scan + {b} && b !in scan
    requires scan == {} ==> deepest == 0
    requires scan != {} ==> exists x :: x in scan && t[x].depth - t[b].depth == deepest
    requires forall x :: x in scan ==> t[x].depth - t[b].depth <= deepest
    ensures ParentDepth(t, parent) + 1 + deepest >= MAX_DEPTH <==> ExceedsDepth(t, b, parent)
  {
    forall x | x in scan ensures t[x].depth > t[b].depth {
      PrefixScanIsDescendants(t, x, b);
      BelowIsDeeper(t, x, b);
    }
    if ParentDepth(t, parent) + 1 + deepest >= MAX_DEPTH {
      if scan == {} { assert b in Subtree(t, b) && NewDepth(t, b, parent, b) >= MAX_DEPTH; }
      else {
        var x :| x in scan && t[x].depth - t[b].depth == deepest;
        assert x in Subtree(t, b) && NewDepth(t, b, parent, x) >= MAX_DEPTH;
      }
    }
  }
}
