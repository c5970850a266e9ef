/** What a move does to everybody's effective permissions. */
module PermissionMoves {
  import opened Prelude
  import opened BranchTree
  import opened BranchMoves
  import opened BranchRepository
  import opened BranchPermissions

  /** The nearest decision at or above `x` without looking above `b`. */
  function NearestUpTo(t: Tree, ds: map<Id, Effect>, x: Id, b: Id): Option<Effect>
    requires Valid(t) && x in t && AtOrAbove(t, x, b)
    decreases t[x].depth
  {
    assert RowOk(t, x);
    if x in ds then Some(ds[x])
    else if x == b then None
    else
      assert RowOk(t, t[x].parent.value);
      NearestUpTo(t, ds, t[x].parent.value, b)
  }

  /** Outside the moved subtree every resolution is what it was. */
  lemma {:induction false} MoveLeavesOutsideAlone(t: Tree, ds: map<Id, Effect>, b: Id, parent: Option<Id>, x: Id)
    requires Valid(t) && MoveVerdict(t, b, parent) == Done && x in t && !InSubtree(t, x, b)
    ensures Valid(Moved(t, b, parent)) && x in Moved(t, b, parent)
    ensures Nearest(Moved(t, b, parent), ds, x) == Nearest(t, ds, x)
    decreases t[x].depth
  {
    MoveKeepsValid(t, b, parent);
    AboveIsShallower(t, x);
    var m := Moved(t, b, parent);
    assert m[x].parent == t[x].parent;
    if t[x].parent.Some? {
      SubtreeFollowsParents(t, b, x);
      hide Valid, MoveVerdict, Moved, InSubtree;
      MoveLeavesOutsideAlone(t, ds, b, parent, t[x].parent.value);
    }
  }

  /**
   * Inside the moved subtree the answer is the nearest decision between the
   * node and the moved branch, or else the new parent's own answer.
   */
  lemma {:induction false} MoveReinherits(t: Tree, ds: map<Id, Effect>, b: Id, parent: Option<Id>, x: Id)
    requires Valid(t) && MoveVerdict(t, b, parent) == Done && x in t && AtOrAbove(t, x, b)
    ensures Valid(Moved(t, b, parent)) && x in Moved(t, b, parent)
    ensures Nearest(Moved(t, b, parent), ds, x) ==
            var within := NearestUpTo(t, ds, x, b);
            if within.Some? then within
            else if parent.Some? then Nearest(t, ds, parent.value)
            else None
    decreases t[x].depth
  {
    MoveKeepsValid(t, b, parent);
    if x == b {
      MovedRootReinherits(t, ds, b, parent);
    } else {
      AboveIsShallower(t, x);
      var p := t[x].parent.value;
      BelowThroughParent(t, x, b);
      MovedKeepsPointer(t, b, parent, x);
      AboveIsShallower(Moved(t, b, parent), x);
      hide MoveVerdict, Moved, AtOrAbove;
      MoveReinherits(t, ds, b, parent, p);
    }
  }

  lemma MovedKeepsPointer(t: Tree, b: Id, parent: Option<Id>, x: Id)
    requires Valid(t) && MoveVerdict(t, b, parent) == Done && x in t
    ensures x in Moved(t, b, parent)
    ensures Moved(t, b, parent)[x].parent == if x == b then parent else t[x].parent
  {
    MoveKeepsSubtree(t, b, parent);
  }

  lemma MovedRootReinherits(t: Tree, ds: map<Id, Effect>, b: Id, parent: Option<Id>)
    requires Valid(t) && MoveVerdict(t, b, parent) == Done && Valid(Moved(t, b, parent))
    ensures b in t && b in Moved(t, b, parent) && (parent.Some? ==> parent.value in t)
    ensures Nearest(Moved(t, b, parent), ds, b) ==
            if b in ds then Some(ds[b]) else if parent.Some? then Nearest(t, ds, parent.value) else None
  {
    assert b in t;
    MovedKeepsPointer(t, b, parent, b);
    assert parent.Some? ==> parent.value in t && !InSubtree(t, parent.value, b);
    AboveIsShallower(Moved(t, b, parent), b);
    hide MoveVerdict, Moved, InSubtree;
    if parent.Some? { MoveLeavesOutsideAlone(t, ds, b, parent, parent.value); }
  }

  /** The same two facts about the booleans `effective` returns. */
  lemma MoveAndEffective(t: Tree, perms: Permissions, b: Id, parent: Option<Id>, principal: string, x: Id, d: Dimension)
    requires Valid(t) && MoveVerdict(t, b, parent) == Done && x in t
    ensures Valid(Moved(t, b, parent))
    ensures !AtOrAbove(t, x, b) ==>
      (Holds(Moved(t, b, parent), perms, principal, x, d) <==> Holds(t, perms, principal, x, d))
    ensures AtOrAbove(t, x, b) && principal != "" ==>
      var within := NearestUpTo(t, DecisionsFor(perms, principal, d), x, b);
      (Holds(Moved(t, b, parent), perms, principal, x, d) <==>
        if within.Some? then within == Some(Grant)
        else parent.Some? && Holds(t, perms, principal, parent.value, d))
  {
    PrefixScanIsDescendants(t, x, b);
    var ds := DecisionsFor(perms, principal, d);
    if AtOrAbove(t, x, b) { MoveReinherits(t, ds, b, parent, x); }
    else { MoveLeavesOutsideAlone(t, ds, b, parent, x); }
  }
}
