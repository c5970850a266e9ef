/**
 * Permissions over the tree, resolved twice: `effective` walks ancestors,
 * `authorized_branches` expands prefix scans and picks the longest deciding
 * path.  Both are proved against one reading of the pointers, `Nearest`.
 */
module BranchPermissions {
  import opened Prelude
  import opened BranchTree
  import opened BranchMoves
  import opened BranchRepository

  datatype Effect = Grant | Restrict
  datatype Dimension = View | Edit | Administer | CampaignUse

  datatype PermKey = PermKey(branch: Id, principal: string, dimension: Dimension)
  type Permissions = map<PermKey, Effect>

  datatype Decider = Decider(human: bool, administers: bool)

  datatype Outcome = Ok | BadPrincipal | HumanRequired | AdministratorRequired | NoSuchBranch

  /** The decisions written for one principal and dimension, by branch. */
  function DecisionsFor(perms: Permissions, principal: string, dimension: Dimension): map<Id, Effect> {
    map b | b in (set k | k in perms :: k.branch) && PermKey(b, principal, dimension) in perms
      :: perms[PermKey(b, principal, dimension)]
  }

  /** The decision at the branch, or else at its deepest deciding ancestor. */
  function Nearest(t: Tree, ds: map<Id, Effect>, c: Id): Option<Effect>
    requires Valid(t) && c in t
    decreases t[c].depth
  {
    assert RowOk(t, c);
    if c in ds then Some(ds[c])
    else if t[c].parent.None? then None
    else
      assert RowOk(t, t[c].parent.value);
      Nearest(t, ds, t[c].parent.value)
  }

  /** What a principal holds: absence of a branch or of a principal is four noes. */
  predicate Holds(t: Tree, perms: Permissions, principal: string, c: Id, dimension: Dimension)
    requires Valid(t)
  {
    principal != "" && c in t && Nearest(t, DecisionsFor(perms, principal, dimension), c) == Some(Grant)
  }

  // ----- walking the chain deepest-first -----------------------------------

  function Chain(t: Tree, c: Id): seq<Id>
    requires Valid(t) && c in t
  {
    Ancestry(t, c) + [c]
  }

  /** The deepest entry of a chain that carries a decision. */
  function LastDecision(chain: seq<Id>, ds: map<Id, Effect>): Option<Effect> {
    if chain == [] then None
    else if chain[|chain| - 1] in ds then Some(ds[chain[|chain| - 1]])
    else LastDecision(chain[..|chain| - 1], ds)
  }

  lemma {:induction false} ChainWalkIsNearest(t: Tree, ds: map<Id, Effect>, c: Id)
    requires Valid(t) && c in t
    ensures LastDecision(Chain(t, c), ds) == Nearest(t, ds, c)
    decreases t[c].depth
  {
    AboveIsShallower(t, c);
    var chain := Chain(t, c);
    assert chain[..|chain| - 1] == Ancestry(t, c);
    if t[c].parent.Some? {
      assert Ancestry(t, c) == Chain(t, t[c].parent.value);
      ChainWalkIsNearest(t, ds, t[c].parent.value);
    }
  }

  /** `effective`'s answer as it computes it. */
  predicate Walked(t: Tree, perms: Permissions, principal: string, c: Id, d: Dimension)
    requires Valid(t)
  {
    principal != "" && c in t && LastDecision(Ancestry(t, c) + [c], DecisionsFor(perms, principal, d)) == Some(Grant)
  }

  lemma HoldsByWalk(t: Tree, perms: Permissions, principal: string, c: Id, d: Dimension)
    requires Valid(t)
    ensures Holds(t, perms, principal, c, d) <==> Walked(t, perms, principal, c, d)
  {
    if c in t { ChainWalkIsNearest(t, DecisionsFor(perms, principal, d), c); }
  }

  lemma WalkedAbsent(t: Tree, perms: Permissions, principal: string, c: Id)
    requires Valid(t) && (principal == "" || c !in t)
    ensures forall d :: !Walked(t, perms, principal, c, d)
  {
  }

  lemma WalkedPresent(t: Tree, perms: Permissions, principal: string, c: Id)
    requires Valid(t) && principal != "" && c in t
    ensures forall d :: Walked(t, perms, principal, c, d) <==>
                        LastDecision(Ancestry(t, c) + [c], DecisionsFor(perms, principal, d)) == Some(Grant)
  {
  }

  // ----- the answer in terms of the rows ------------------------------------

  predicate Decided(perms: Permissions, principal: string, d: Dimension, x: Id) { PermKey(x, principal, d) in perms }

  /** The row at `a` governs `c`: `a` is at or above it, and no row of this principal and dimension stands in between. */
  ghost predicate Governs(t: Tree, perms: Permissions, principal: string, d: Dimension, c: Id, a: Id)
    requires Valid(t) && c in t
  {
    a in t && AtOrAbove(t, c, a) && Decided(perms, principal, d, a) &&
    forall x :: x in t && Below(t, x, a) && AtOrAbove(t, c, x) ==> !Decided(perms, principal, d, x)
  }

  lemma OwnRowGoverns(t: Tree, perms: Permissions, principal: string, d: Dimension, c: Id, a: Id)
    requires Valid(t) && c in t && Decided(perms, principal, d, c)
    ensures Governs(t, perms, principal, d, c, a) <==> a == c
  {
    if a == c {
      forall x | x in t && Below(t, x, c) ensures !AtOrAbove(t, c, x) { BelowIsNotAbove(t, x, c); }
    }
    hide Below;
  }

  lemma BelowIsNotAbove(t: Tree, x: Id, c: Id)
    requires Valid(t) && x in t && c in t && Below(t, x, c)
    ensures !AtOrAbove(t, c, x)
  {
    BelowIsDeeper(t, x, c);
    if Below(t, c, x) { BelowIsDeeper(t, c, x); }
    hide Below, Valid;
  }

  lemma UndecidedInherits(t: Tree, perms: Permissions, principal: string, d: Dimension, c: Id, a: Id)
    requires Valid(t) && c in t && !Decided(perms, principal, d, c)
    requires t[c].parent.Some? ==> t[c].parent.value in t
    ensures Governs(t, perms, principal, d, c, a) <==>
              t[c].parent.Some? && Governs(t, perms, principal, d, t[c].parent.value, a)
  {
    forall x ensures Below(t, c, x) <==> t[c].parent.Some? && AtOrAbove(t, t[c].parent.value, x) {
      if t[c].parent.Some? { BelowThroughParent(t, c, x); }
    }
    hide Below, Valid, Decided;
  }

  lemma {:induction false} NearestGoverns(t: Tree, perms: Permissions, principal: string, d: Dimension, c: Id, e: Effect)
    requires Valid(t) && c in t
    ensures Nearest(t, DecisionsFor(perms, principal, d), c) == Some(e) <==>
              exists a :: Governs(t, perms, principal, d, c, a) && perms[PermKey(a, principal, d)] == e
    decreases t[c].depth
  {
    AboveIsShallower(t, c);
    var ds := DecisionsFor(perms, principal, d);
    assert c in ds <==> Decided(perms, principal, d, c);
    if c in ds {
      assert ds[c] == perms[PermKey(c, principal, d)];
      forall a ensures Governs(t, perms, principal, d, c, a) <==> a == c { OwnRowGoverns(t, perms, principal, d, c, a); }
    } else {
      forall a ensures Governs(t, perms, principal, d, c, a) <==>
                       t[c].parent.Some? && Governs(t, perms, principal, d, t[c].parent.value, a)
      {
        UndecidedInherits(t, perms, principal, d, c, a);
      }
      if t[c].parent.Some? { NearestGoverns(t, perms, principal, d, t[c].parent.value, e); }
    }
    hide Governs, Below, Valid;
  }

  /**
   * A principal holds a dimension on a branch if and only if some branch at or
   * above it carries a grant of that very dimension to that very principal, with
   * no row of theirs strictly below it on the way.
   */
  lemma {:induction false} HoldsExactly(t: Tree, perms: Permissions, principal: string, c: Id, d: Dimension)
    requires Valid(t)
    ensures Holds(t, perms, principal, c, d) <==>
              principal != "" && c in t &&
              exists a :: Governs(t, perms, principal, d, c, a) && perms[PermKey(a, principal, d)] == Grant
  {
    if c in t { NearestGoverns(t, perms, principal, d, c, Grant); }
    hide Governs, Nearest;
  }

  /** A row written or removed for another principal or another dimension changes no answer. */
  lemma {:induction false} OtherRowsDoNotMatter(
    t: Tree, perms: Permissions, key: PermKey, effect: Effect, principal: string, c: Id, d: Dimension)
    requires Valid(t) && (key.principal != principal || key.dimension != d)
    ensures Holds(t, perms[key := effect], principal, c, d) <==> Holds(t, perms, principal, c, d)
    ensures Holds(t, perms - {key}, principal, c, d) <==> Holds(t, perms, principal, c, d)
  {
    hide Nearest, Valid, DecisionsFor;
    SameRowsSameDecisions(perms, perms[key := effect], principal, d);
    SameRowsSameDecisions(perms, perms - {key}, principal, d);
  }

  lemma SameRowsSameDecisions(perms: Permissions, perms': Permissions, principal: string, d: Dimension)
    requires forall x :: PermKey(x, principal, d) in perms <==> PermKey(x, principal, d) in perms'
    requires forall x :: PermKey(x, principal, d) in perms ==> perms[PermKey(x, principal, d)] == perms'[PermKey(x, principal, d)]
    ensures DecisionsFor(perms, principal, d) == DecisionsFor(perms', principal, d)
  {
  }

  // ----- the longest deciding path -----------------------------------------

  predicate Covers(ancestor: string, path: string) { path == ancestor || Within(path, ancestor) }

  /** `a` is `c` or one of its ancestors. */
  predicate AtOrAbove(t: Tree, c: Id, a: Id)
    requires Valid(t) && c in t
  {
    a == c || Below(t, c, a)
  }

  lemma CoveringPathIsAncestor(t: Tree, c: Id, a: Id)
    requires Valid(t) && c in t && a in t
    ensures Covers(t[a].path, t[c].path) <==> AtOrAbove(t, c, a)
  {
    PrefixScanIsDescendants(t, c, a);
  }

  /** Among deciding branches at or above `c`, the one with the longest path is the nearest. */
  lemma {:induction false} LongestIsNearest(t: Tree, ds: map<Id, Effect>, c: Id, a: Id)
    requires Valid(t) && c in t && a in t && a in ds && AtOrAbove(t, c, a)
    requires forall x :: x in ds && x in t && AtOrAbove(t, c, x) ==> |t[x].path| <= |t[a].path|
    ensures Nearest(t, ds, c) == Some(ds[a])
    decreases t[c].depth
  {
    AboveIsShallower(t, c);
    if c in ds {
      if a != c { PrefixScanIsDescendants(t, c, a); }
    } else {
      var p := t[c].parent.value;
      forall x | x in ds && x in t && AtOrAbove(t, p, x) ensures AtOrAbove(t, c, x) { BelowThroughParent(t, c, x); }
      BelowThroughParent(t, c, a);
      LongestIsNearest(t, ds, p, a);
    }
  }

  lemma BelowThroughParent(t: Tree, c: Id, a: Id)
    requires Valid(t) && c in t && t[c].parent.Some?
    ensures t[c].parent.value in t && (Below(t, c, a) <==> AtOrAbove(t, t[c].parent.value, a))
  {
    AboveIsShallower(t, c);
  }

  lemma {:induction false} UndecidedChainIsNone(t: Tree, ds: map<Id, Effect>, c: Id)
    requires Valid(t) && c in t && forall x :: x in ds && x in t ==> !AtOrAbove(t, c, x)
    ensures Nearest(t, ds, c) == None
    decreases t[c].depth
  {
    AboveIsShallower(t, c);
    if t[c].parent.Some? {
      forall x | x in ds && x in t ensures !AtOrAbove(t, t[c].parent.value, x) { BelowThroughParent(t, c, x); }
      UndecidedChainIsNone(t, ds, t[c].parent.value);
    }
  }

  /** What the scan over a path-keyed dictionary must find. */
  ghost predicate IsLongest(path: string, decisions: map<string, Effect>, best: Option<Effect>) {
    if best.None? then forall d :: d in decisions ==> !Covers(d, path)
    else exists d :: d in decisions && Covers(d, path) && best == Some(decisions[d]) &&
                     forall e :: e in decisions && Covers(e, path) ==> |e| <= |d|
  }

  predicate ByPath(t: Tree, ds: map<Id, Effect>, decisions: map<string, Effect>) {
    (forall b :: b in ds && b in t ==> t[b].path in decisions && decisions[t[b].path] == ds[b]) &&
    (forall d :: d in decisions ==> exists b :: b in ds && b in t && t[b].path == d)
  }

  /** Longest-path resolution gives what the deepest-ancestor walk gives. */
  lemma LongestPathIsNearest(t: Tree, ds: map<Id, Effect>, decisions: map<string, Effect>, c: Id, best: Option<Effect>)
    requires Valid(t) && c in t && ByPath(t, ds, decisions) && IsLongest(t[c].path, decisions, best)
    ensures best == Nearest(t, ds, c)
  {
    forall x | x in t ensures Covers(t[x].path, t[c].path) <==> AtOrAbove(t, c, x) { CoveringPathIsAncestor(t, c, x); }
    hide Valid, Covers, AtOrAbove, Nearest;
    if best.None? {
      UndecidedChainIsNone(t, ds, c);
    } else {
      var d :| d in decisions && Covers(d, t[c].path) && best == Some(decisions[d]) &&
               forall e :: e in decisions && Covers(e, t[c].path) ==> |e| <= |d|;
      var a :| a in ds && a in t && t[a].path == d;
      LongestIsNearest(t, ds, c, a);
    }
  }

  // ----- the repository ----------------------------------------------------

  class BranchPermissionsRepository {
    const contacts: ContactsRepository
    var perms: Permissions

    constructor (contacts: ContactsRepository)
      ensures this.contacts == contacts && perms == map[]
    {
      this.contacts := contacts;
      perms := map[];
    }

    /** `grant` and `restrict`: one row per branch, principal and dimension, written or overwritten. */
    method Decide(branch: Id, principal: string, dimension: Dimension, effect: Effect, actor: Decider)
      returns (outcome: Outcome)
      modifies this
      ensures outcome ==
        if principal == "" then BadPrincipal
        else if !actor.human then HumanRequired
        else if !actor.administers then AdministratorRequired
        else if branch !in contacts.branches then NoSuchBranch
        else Ok
      ensures perms ==
        if outcome == Ok then old(perms)[PermKey(branch, principal, dimension) := effect] else old(perms)
    {
      if principal == "" { return BadPrincipal; }
      if !actor.human { return HumanRequired; }
      if !actor.administers { return AdministratorRequired; }
      if branch !in contacts.branches { return NoSuchBranch; }
      perms := perms[PermKey(branch, principal, dimension) := effect];
      return Ok;
    }

    /** Deletes the decision, so inheritance resumes. */
    method Revoke(branch: Id, principal: string, dimension: Dimension, actor: Decider)
      returns (outcome: Outcome, removed: bool)
      modifies this
      ensures outcome == if !actor.human then HumanRequired else if !actor.administers then AdministratorRequired else Ok
      ensures removed <==> outcome == Ok && PermKey(branch, principal, dimension) in old(perms)
      ensures perms == if outcome == Ok then old(perms) - {PermKey(branch, principal, dimension)} else old(perms)
    {
      removed := false;
      if !actor.human { return HumanRequired, false; }
      if !actor.administers { return AdministratorRequired, false; }
      removed := PermKey(branch, principal, dimension) in perms;
      perms := perms - {PermKey(branch, principal, dimension)};
      return Ok, removed;
    }

    method Effective(principal: string, branch: Id) returns (answers: map<Dimension, bool>)
      requires Valid(contacts.branches)
      ensures answers.Keys == {View, Edit, Administer, CampaignUse}
      ensures forall d :: d in answers ==> (answers[d] <==> Holds(contacts.branches, perms, principal, branch, d))
    {
      hide *;
      var t := contacts.branches;
      ghost var p := perms;
      forall d: Dimension ensures Holds(t, p, principal, branch, d) <==> Walked(t, p, principal, branch, d) {
        HoldsByWalk(t, p, principal, branch, d);
      }
      answers := map[View := false, Edit := false, Administer := false, CampaignUse := false];
      if principal == "" || branch !in t {
        WalkedAbsent(t, p, principal, branch);
        return;
      }
      var v, above := contacts.Ancestors(branch);
      var chain := above + [branch];
      WalkedPresent(t, p, principal, branch);
      var last := LastOn(chain, principal, View);
      answers := answers[View := last == Some(Grant)];
      last := LastOn(chain, principal, Edit);
      answers := answers[Edit := last == Some(Grant)];
      last := LastOn(chain, principal, Administer);
      answers := answers[Administer := last == Some(Grant)];
      last := LastOn(chain, principal, CampaignUse);
      answers := answers[CampaignUse := last == Some(Grant)];
    }

    /** The inner loop of `effective`: reversed chain, first decision found. */
    method LastOn(chain: seq<Id>, principal: string, dimension: Dimension) returns (found: Option<Effect>)
      ensures found == LastDecision(chain, DecisionsFor(perms, principal, dimension))
    {
      ghost var ds := DecisionsFor(perms, principal, dimension);
      var n := |chain|;
      assert chain[..n] == chain;
      while n > 0
        invariant 0 <= n <= |chain|
        invariant LastDecision(chain, ds) == LastDecision(chain[..n], ds)
      {
        var key := PermKey(chain[n - 1], principal, dimension);
        assert chain[..n][..n - 1] == chain[..n - 1];
        if key in perms { return Some(perms[key]); }
        n := n - 1;
      }
      return None;
    }

    /** Every branch the principal effectively holds the dimension on: exactly `effective`'s answer. */
    method AuthorizedBranches(principal: string, dimension: Dimension) returns (allowed: set<Id>)
      requires Valid(contacts.branches)
      ensures forall b :: b in allowed <==> Holds(contacts.branches, perms, principal, b, dimension)
    {
      allowed := {};
      if principal == "" { return; }
      var t := contacts.branches;
      var ds := DecisionsFor(perms, principal, dimension);
      var decisions, candidates := Expand(t, ds);
      var todo := candidates;
      while todo != {}
        invariant todo <= candidates
        invariant forall b :: b in allowed <==> b in candidates && b !in todo && Nearest(t, ds, b) == Some(Grant)
        decreases todo
      {
        var b :| b in todo;
        var best := NearestDecision(t[b].path, decisions);
        LongestPathIsNearest(t, ds, decisions, b, best);
        if best == Some(Grant) { allowed := allowed + {b}; }
        todo := todo - {b};
      }
      forall b | b in t && b !in candidates ensures Nearest(t, ds, b) == None { UndecidedChainIsNone(t, ds, b); }
    }
  }

  /** `c` is in some deciding branch's subtree scan. */
  predicate Scanned(t: Tree, ds: map<Id, Effect>, c: Id) {
    c in t && exists a :: a in ds && a in t && InSubtree(t, c, a)
  }

  lemma ScannedIsBelow(t: Tree, ds: map<Id, Effect>, c: Id)
    requires Valid(t)
    ensures Scanned(t, ds, c) <==> c in t && exists a :: a in ds && a in t && AtOrAbove(t, c, a)
  {
    if c in t {
      forall a | a in t ensures InSubtree(t, c, a) <==> AtOrAbove(t, c, a) { PrefixScanIsDescendants(t, c, a); }
    }
  }

  lemma ScanOneMore(t: Tree, ds: map<Id, Effect>, a: Id, e: Effect, c: Id)
    ensures Scanned(t, ds[a := e], c) <==> Scanned(t, ds, c) || (a in t && c in Subtree(t, a))
  {
    if Scanned(t, ds, c) {
      var x :| x in ds && x in t && InSubtree(t, c, x);
      assert x in ds[a := e];
    }
    if a in t && c in Subtree(t, a) { assert a in ds[a := e] && InSubtree(t, c, a); }
  }

  lemma ByPathOneMore(t: Tree, ds: map<Id, Effect>, decisions: map<string, Effect>, a: Id, e: Effect)
    requires PathsDistinct(t) && ByPath(t, ds, decisions) && a !in ds
    ensures ByPath(t, ds[a := e], if a in t then decisions[t[a].path := e] else decisions)
  {
    var ds' := ds[a := e];
    var decisions' := if a in t then decisions[t[a].path := e] else decisions;
    forall d | d in decisions' ensures exists b :: b in ds' && b in t && t[b].path == d {
      if d in decisions {
        var b :| b in ds && b in t && t[b].path == d;
        assert b in ds';
      } else {
        assert a in ds' && t[a].path == d;
      }
    }
  }

  /** The two dictionaries built from one subtree scan per decision; decisions on missing branches are skipped. */
  method Expand(t: Tree, ds: map<Id, Effect>) returns (decisions: map<string, Effect>, candidates: set<Id>)
    requires Valid(t)
    ensures ByPath(t, ds, decisions)
    ensures forall c :: c in candidates <==> c in t && exists a :: a in ds && a in t && AtOrAbove(t, c, a)
  {
    assert PathsDistinct(t);
    forall c ensures Scanned(t, ds, c) <==> c in t && exists a :: a in ds && a in t && AtOrAbove(t, c, a) {
      ScannedIsBelow(t, ds, c);
    }
    decisions, candidates := map[], {};
    var todo := ds.Keys;
    ghost var seen := map[];
    while todo != {}
      invariant todo <= ds.Keys
      invariant seen == map b | b in ds && b !in todo :: ds[b]
      invariant ByPath(t, seen, decisions)
      invariant forall c :: c in candidates <==> Scanned(t, seen, c)
      decreases todo
    {
      hide Valid, PathsDistinct, ByPath, Scanned, AtOrAbove, InSubtree;
      var a :| a in todo;
      ByPathOneMore(t, seen, decisions, a, ds[a]);
      forall c ensures Scanned(t, seen[a := ds[a]], c) <==> Scanned(t, seen, c) || (a in t && c in Subtree(t, a)) {
        ScanOneMore(t, seen, a, ds[a], c);
      }
      if a in t {
        decisions := decisions[t[a].path := ds[a]];
        candidates := candidates + Subtree(t, a);
      }
      seen := seen[a := ds[a]];
      todo := todo - {a};
    }
    assert seen == ds;
  }

  /** `_nearest_decision`: one pass over the dictionary, in any order. */
  method NearestDecision(path: string, decisions: map<string, Effect>) returns (best: Option<Effect>)
    ensures IsLongest(path, decisions, best)
  {
    best := None;
    var bestLength := -1;
    var todo := decisions.Keys;
    ghost var at := "";
    while todo != {}
      invariant todo <= decisions.Keys
      invariant best.None? <==> bestLength == -1
      invariant best.None? ==> forall d :: d in decisions && d !in todo ==> !Covers(d, path)
      invariant best.Some? ==> at in decisions && Covers(at, path) && best == Some(decisions[at]) && |at| == bestLength
      invariant forall d :: d in decisions && d !in todo && Covers(d, path) ==> |d| <= bestLength
      decreases todo
    {
      var d :| d in todo;
      if path == d || Within(path, d) {
        if |d| > bestLength || (|d| == bestLength && decisions[d] == Restrict) {
          best, bestLength, at := Some(decisions[d]), |d|, d;
        }
      }
      todo := todo - {d};
    }
  }
}
