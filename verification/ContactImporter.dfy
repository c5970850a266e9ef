/** Staging and applying an import file, row by row. */
module ContactImporter {
  import opened Prelude
  import opened ConsentLedgers
  import opened ConsentRuns
  import opened PhoneAddresses
  import opened ContactImport
  import opened ImportLedgers
  import opened ImportProofs
  import opened ImportFailures
  import opened ProposalSpecs
  import opened ContactProposals
  import BranchTree
  import BranchMoves
  import BranchPermissions

  // ----- what staging keeps of a claim -------------------------------------

  /** The consent columns of one staged row; the hash is that of the disclosure, empty when there is none. */
  datatype Columns = Columns(
    assertsConsent: bool, purposes: Option<seq<Purpose>>, captureMethod: Option<string>, capturedAt: Option<int>,
    capturedLocal: Option<string>, timezone: Option<string>, jurisdiction: Option<string>, disclosure: Option<string>,
    disclosureHash: Option<string>, defaultUnchecked: Option<bool>, legalBasis: Option<string>, source: Option<string>,
    expiresAt: Option<int>)

  function DisclosureHash(e: Evidence, digest: string -> string): string {
    digest(if e.disclosure.Some? then e.disclosure.value else "")
  }

  function ToColumns(claim: Option<Claim>, digest: string -> string): Columns {
    if claim.None? then Columns(false, None, None, None, None, None, None, None, None, None, None, None, None)
    else
      var e, ps := claim.value.evidence, claim.value.purposes;
      Columns(true, if ps == [] then None else Some(ps), e.captureMethod, e.capturedAt, e.capturedLocal, e.timezone,
              e.jurisdiction, e.disclosure, Some(DisclosureHash(e, digest)), e.defaultUnchecked, e.legalBasis, e.source,
              e.expiresAt)
  }

  /** `_evidence_from_row`. */
  function EvidenceFrom(c: Columns): Evidence {
    Evidence(c.captureMethod, c.capturedAt, c.capturedLocal, c.timezone, c.jurisdiction, c.disclosure, c.legalBasis,
             c.source, c.defaultUnchecked, c.expiresAt)
  }

  function ClaimFrom(c: Columns): Option<Claim> {
    if c.assertsConsent then Some(Claim(if c.purposes.Some? then c.purposes.value else [], EvidenceFrom(c))) else None
  }

  /** The claim that is applied is the claim that was staged: same evidence, nothing missing, same disclosure hash. */
  lemma EvidenceSurvivesStaging(claim: Option<Claim>, digest: string -> string)
    ensures ClaimFrom(ToColumns(claim, digest)) == claim
    ensures claim.Some? ==>
              var c := ToColumns(claim, digest);
              MissingFields(EvidenceFrom(c)) == MissingFields(claim.value.evidence) &&
              c.disclosureHash == Some(DisclosureHash(EvidenceFrom(c), digest))
  {
  }

  // ----- batches -----------------------------------------------------------

  datatype BatchState = BatchStaged | BatchApplied

  datatype Batch = Batch(
    target: string, state: BatchState, rows: seq<Row>, newCount: nat, duplicateCount: nat, collisionCount: nat)

  datatype StageReply = EditRequired | BatchTaken | RowInvalid(row: nat, error: RowError) | BatchAccepted(batch: Batch)

  datatype ApplyReply =
    | NoSuchBatch | AlreadyDecided | HumanRequired | NoEdit | InsertRefused
    | Decided(created: nat, linked: nat, deferred: nat)

  datatype RowDecision = Link | Reject

  datatype RowReply = NoSuchRow | RowAlreadyDecided | RowNeedsHuman | RowNeedsName | NobodyToLink | RowNoEdit | Settled

  /** Settled exactly when the row waits, a named human with authority decides, and a link has someone and authority there. */
  function RowAnswer(
    batches: map<string, Batch>, id: string, i: nat, actor: Actor, decision: RowDecision, mayEditThere: bool): (r: RowReply)
    ensures r.Settled? <==>
      id in batches && i < |batches[id].rows| && batches[id].rows[i].state == Staged && MayGrant(actor) &&
      (decision.Reject? ==> Named(actor)) &&
      (decision.Link? ==> batches[id].rows[i].matched.Some? && mayEditThere)
  {
    if id !in batches || i >= |batches[id].rows| then NoSuchRow
    else
      var row := batches[id].rows[i];
      if row.state != Staged then RowAlreadyDecided
      else if !MayGrant(actor) then RowNeedsHuman
      else if decision.Reject? then (if Named(actor) then Settled else RowNeedsName)
      else if row.matched.None? then NobodyToLink
      else if !mayEditThere then RowNoEdit
      else Settled
  }

  function PrincipalOf(actor: Actor): string { if actor.principal.Some? then actor.principal.value else "" }

  /** Whoever holds anything on a branch is named. */
  lemma HoldersAreNamed(
    t: BranchTree.Tree, perms: BranchPermissions.Permissions, actor: Actor, branch: string, d: BranchPermissions.Dimension)
    requires BranchTree.Valid(t)
    ensures BranchPermissions.Holds(t, perms, PrincipalOf(actor), branch, d) <==>
              actor.principal.Some? && BranchPermissions.Holds(t, perms, actor.principal.value, branch, d)
    ensures BranchPermissions.Holds(t, perms, PrincipalOf(actor), branch, d) ==> branch in t
  {
  }

  /** Every claim in the file names purposes and has complete evidence behind it. */
  predicate Defensible(rows: seq<Row>) {
    forall i :: 0 <= i < |rows| && rows[i].claim.Some? ==>
      rows[i].claim.value.purposes != [] && Complete(rows[i].claim.value.evidence)
  }

  /** A failure ends the loop: later rows are as they were. */
  lemma {:induction false} FailureStays(dir: Directory, rows: seq<Row>, i: nat, ctx: Context)
    requires i <= |rows| && ApplyRows(dir, rows[..i], ctx).failed
    ensures ApplyRows(dir, rows, ctx) == ApplyRows(dir, rows[..i], ctx)
    decreases |rows|
  {
    if i == |rows| {
      assert rows[..i] == rows;
    } else {
      var n := |rows| - 1;
      assert rows[..n][..i] == rows[..i];
      FailureStays(dir, rows[..n], i, ctx);
    }
  }

  lemma OneMoreRow(dir: Directory, rows: seq<Row>, i: nat, ctx: Context)
    requires i < |rows|
    ensures ApplyRows(dir, rows[..i + 1], ctx) == ApplyRow(ApplyRows(dir, rows[..i], ctx), rows[i], ctx)
  {
    hide ApplyRow;
    assert rows[..i + 1][..i] == rows[..i];
  }

  lemma StagedAreDefensible(dir: Directory, scope: set<string>, ps: seq<Prepared>)
    requires AllSound(ps)
    ensures Defensible(StagedRows(dir, scope, ps))
  {
    hide Complete, KindOf, Lookup, Key;
    forall i | 0 <= i < |ps| ensures StagedRows(dir, scope, ps)[i].claim == ps[i].claim && Sound(ps[i]) {}
  }

  lemma OrphanKeepsOk(dir: Directory, row: Row, ctx: Context)
    requires DirectoryOk(dir) && MintsFresh(dir, ctx.mint)
    ensures DirectoryOk(Orphaned(dir, row, ctx)) && MintsFresh(Orphaned(dir, row, ctx), ctx.mint)
  {
    hide Known;
  }

  /** Adding the address and then approving it with its evidence is the introduction of a claimed address. */
  lemma ApprovalIntroduces(l: Ledgers, a: string, ch: Channel, claim: Claim, who: Decider)
    requires a !in l.addresses && MayDecide(who) && claim.purposes != [] && Complete(claim.evidence)
    ensures var m := Perform(l, AddAddress(a, ch));
            Answer(m, a, who, Some(claim.evidence), claim.purposes).Approved? &&
            PerformAll(m, ApprovalWrites(Approved, a, who, Some(claim.evidence), claim.purposes)) ==
            PerformAll(l, Introduction(a, ch, Some(claim), who))
  {
    hide Complete, MayGrant, Named, AnyPending, PerformAll;
    var add, act, gs := AddAddress(a, ch), Activate(a, who.actor, who.now), Grants(claim.purposes, a, claim.evidence, who);
    assert [add, act] + gs == [add] + ([act] + gs);
    OneWrite(l, add);
    RunsCompose(l, [add], [act] + gs);
  }

  class ContactImporter {
    const queue: ProposalQueue
    const permissions: BranchPermissions.BranchPermissionsRepository
    var batches: map<string, Batch>

    ghost predicate Valid()
      reads this, queue, queue.consent, queue.captures, permissions, permissions.contacts
    {
      queue.Valid() && BranchTree.Valid(permissions.contacts.branches) &&
      forall id :: id in batches ==> Defensible(batches[id].rows)
    }

    /** The actor effectively holds edit on the branch. */
    ghost predicate MayEdit(actor: Actor, branch: string)
      requires BranchTree.Valid(permissions.contacts.branches)
      reads permissions, permissions.contacts
    {
      actor.principal.Some? &&
      BranchPermissions.Holds(
        permissions.contacts.branches, permissions.perms, actor.principal.value, branch, BranchPermissions.Dimension.Edit)
    }

    /** The actor holds edit where the row's match lives, which need not be where the file was aimed. */
    ghost predicate MayEditMatch(actor: Actor, staged: map<string, Batch>, id: string, i: nat)
      requires BranchTree.Valid(permissions.contacts.branches)
      reads permissions, permissions.contacts
    {
      id in staged && i < |staged[id].rows| && staged[id].rows[i].matchedBranch.Some? &&
      MayEdit(actor, staged[id].rows[i].matchedBranch.value)
    }

    /** The target and everything below it; nothing for a branch that is not there. */
    ghost function Scope(target: string): (scope: set<string>)
      requires BranchTree.Valid(permissions.contacts.branches)
      reads permissions, permissions.contacts
      ensures var t := permissions.contacts.branches;
              forall x :: x in scope <==> target in t && x in t && BranchMoves.AtOrBelow(t, x, target)
    {
      var t := permissions.contacts.branches;
      if target in t then
        BranchMoves.SubtreeMeans(t, target);
        BranchMoves.Subtree(t, target)
      else {}
    }

    constructor (queue: ProposalQueue, permissions: BranchPermissions.BranchPermissionsRepository)
      requires queue.Valid() && BranchTree.Valid(permissions.contacts.branches)
      ensures Valid() && this.queue == queue && this.permissions == permissions && batches == map[]
    {
      this.queue, this.permissions := queue, permissions;
      batches := map[];
    }

    method Permits(actor: Actor, branch: string) returns (yes: bool)
      requires BranchTree.Valid(permissions.contacts.branches)
      ensures yes <==> MayEdit(actor, branch)
    {
      HoldersAreNamed(permissions.contacts.branches, permissions.perms, actor, branch, BranchPermissions.Dimension.Edit);
      var answers := permissions.Effective(PrincipalOf(actor), branch);
      return answers[BranchPermissions.Dimension.Edit];
    }

    // ----- staging ---------------------------------------------------------

    /** Every row is validated before any is written; the first bad one is named by its number. */
    method Prepare(raws: seq<RawRow>, code: Option<string>) returns (ps: seq<Prepared>, bad: Option<(nat, RowError)>)
      ensures bad.None? ==> PreparedFrom(ps, raws, code)
      ensures bad.Some? ==> 1 <= bad.value.0 <= |raws| && PreparedFrom(ps, raws[..bad.value.0 - 1], code) &&
                            PrepareRow(raws[bad.value.0 - 1], code) == Invalid(bad.value.1)
    {
      hide ToE164, Normalize, Strip;
      ps := [];
      var i := 0;
      while i < |raws|
        invariant 0 <= i <= |raws| && PreparedFrom(ps, raws[..i], code)
      {
        var raw := raws[i];
        if Strip(raw.displayName) == "" { return ps, Some((i + 1, NoDisplayName)); }
        var canonical := CanonicalAddress(raw.channel, raw.address, code);
        if canonical.NeedsCallingCode? { return ps, Some((i + 1, CallingCodeNeeded)); }
        if canonical.address == "" { return ps, Some((i + 1, NoAddress)); }
        if raw.claim.Some? {
          if raw.claim.value.purposes == [] { return ps, Some((i + 1, NoPurposes)); }
          var missing := MissingFields(raw.claim.value.evidence);
          if missing != [] { return ps, Some((i + 1, EvidenceMissing(missing))); }
        }
        ps := ps + [Prepared(Dest(raw.channel, canonical.address), raw.claim, raw.reference)];
        i := i + 1;
      }
      assert raws[..i] == raws;
      return ps, None;
    }

    /** Matches against the file through `seen`, then against the directory. */
    method Classify(target: string, ps: seq<Prepared>) returns (rows: seq<Row>)
      requires queue.Valid() && BranchTree.Valid(permissions.contacts.branches)
      ensures rows == StagedRows(queue.Dir(), Scope(target), ps)
    {
      hide StagedRow, Lookup, First, ProposalQueue.Valid, Key;
      ghost var dir := queue.Dir();
      var t := permissions.contacts.branches;
      var scope := if target in t then BranchMoves.Subtree(t, target) else {};
      var seen: map<Dest, nat> := map[];
      rows := [];
      var i := 0;
      while i < |ps|
        invariant 0 <= i <= |ps| && rows == StagedRows(dir, scope, ps)[..i] && SeenOk(seen, ps, i)
      {
        var dest := ps[i].dest;
        if dest in seen {
          var first := rows[seen[dest]];
          RepeatRow(dir, scope, ps, i, seen[dest]);
          rows := rows + [Row(dest, Duplicate, first.matched, first.matchedBranch, Some(seen[dest]), ps[i].claim,
                           ps[i].reference, Staged, None, None)];
        } else {
          FirstRow(dir, scope, ps, i);
          seen := seen[dest := i];
          var existing := queue.ContactByAddress(dest);
          var kind := New;
          var branch := None;
          if existing.Some? {
            branch := Some(queue.contacts[existing.value]);
            kind := if branch.value in scope then Duplicate else Collision;
          }
          rows := rows + [Row(dest, kind, existing, branch, None, ps[i].claim, ps[i].reference, Staged, None, None)];
        }
        i := i + 1;
      }
    }

    method CountKinds(rows: seq<Row>) returns (new_: nat, duplicate: nat, collision: nat)
      ensures new_ == Count(rows, New) && duplicate == Count(rows, Duplicate) && collision == Count(rows, Collision)
    {
      new_, duplicate, collision := 0, 0, 0;
      var i := 0;
      while i < |rows|
        invariant 0 <= i <= |rows|
        invariant new_ == Count(rows[..i], New) && duplicate == Count(rows[..i], Duplicate) &&
                  collision == Count(rows[..i], Collision)
      {
        CountGrows(rows, i, New);
        CountGrows(rows, i, Duplicate);
        CountGrows(rows, i, Collision);
        match rows[i].kind {
          case New => new_ := new_ + 1;
          case Duplicate => duplicate := duplicate + 1;
          case Collision => collision := collision + 1;
        }
        i := i + 1;
      }
      assert rows[..i] == rows;
    }

    /** Either the whole file becomes one batch, with its counts, or nothing is written. */
    method Stage(id: string, actor: Actor, target: string, raws: seq<RawRow>, code: Option<string>) returns (reply: StageReply)
      requires Valid()
      modifies this
      ensures Valid() && queue.Dir() == old(queue.Dir())
      ensures reply.EditRequired? <==> !MayEdit(actor, target)
      ensures reply.RowInvalid? ==>
                1 <= reply.row <= |raws| && PrepareRow(raws[reply.row - 1], code) == Invalid(reply.error) &&
                forall i :: 0 <= i < reply.row - 1 ==> PrepareRow(raws[i], code).Ready?
      ensures MayEdit(actor, target) ==>
                (reply.RowInvalid? <==> exists i :: 0 <= i < |raws| && PrepareRow(raws[i], code).Invalid?) &&
                (reply.BatchTaken? <==> id in old(batches) && forall i :: 0 <= i < |raws| ==> PrepareRow(raws[i], code).Ready?)
      ensures reply.BatchAccepted? ==>
                id !in old(batches) && batches == old(batches)[id := reply.batch] &&
                exists ps :: PreparedFrom(ps, raws, code) &&
                  var rows := StagedRows(queue.Dir(), Scope(target), ps);
                  reply.batch == Batch(target, BatchStaged, rows, Count(rows, New), Count(rows, Duplicate), Count(rows, Collision))
      ensures !reply.BatchAccepted? ==> batches == old(batches)
    {
      hide PrepareRow, Count, StagedRows, Defensible, ProposalQueue.Valid, BranchTree.Valid, BranchPermissions.Holds;
      var mayEdit := Permits(actor, target);
      if !mayEdit { return EditRequired; }
      var ps, bad := Prepare(raws, code);
      if bad.Some? { return RowInvalid(bad.value.0, bad.value.1); }
      PreparedAreSound(ps, raws, code);
      var rows := Classify(target, ps);
      StagedAreDefensible(queue.Dir(), Scope(target), ps);
      var n, d, c := CountKinds(rows);
      if id in batches { return BatchTaken; }
      var batch := Batch(target, BatchStaged, rows, n, d, c);
      batches := batches[id := batch];
      return BatchAccepted(batch);
    }

    // ----- applying --------------------------------------------------------

    ghost function Ctx(target: string, actor: Actor, now: int): (ctx: Context)
      ensures ctx.branch == target && ctx.mint == queue.mint && ctx.who == queue.Who(actor, now)
    {
      Context(queue.Who(actor, now), target, queue.mint)
    }

    /** One contact and one address for a staged row; a held reference stops it first, a held address after the contact. */
    method Materialize(target: string, row: Row, actor: Actor, now: int) returns (made: Option<Holder>)
      requires queue.Valid() && MayGrant(actor) && Named(actor) && Defensible([row])
      modifies queue, queue.consent
      ensures queue.Valid()
      ensures var before, ctx := old(queue.Dir()), Ctx(target, actor, now);
              if !ReferenceFree(before, row.reference) then made == None && queue.Dir() == before
              else if !AddressFree(before, row) then made == None && queue.Dir() == Orphaned(before, row, ctx)
              else made == Some(Holder(queue.mint(before.next), queue.mint(before.next + 1))) &&
                   queue.Dir() == Materialized(before, row, ctx)
    {
      hide Normalize, DirectoryOk, MintsFresh, Complete, MayGrant, Named, Perform, PerformAll, Introduction, Answer, ApprovalWrites;
      ghost var before, ctx := queue.Dir(), Ctx(target, actor, now);
      assert [row][0] == row;
      FreshPair(before, queue.mint);
      IntroduceKeepsOk(before, row.dest, row.claim, row.reference, ctx);
      OrphanKeepsOk(before, row, ctx);
      var contact := queue.CreateContact(target, row.reference);
      if contact.None? { return None; }
      var added := queue.AddAddress(contact.value, row.dest.channel, row.dest.address);
      if added.None? { return None; }
      var a := added.value;
      if row.claim.Some? {
        ApprovalIntroduces(before.ledgers, a, row.dest.channel, row.claim.value, queue.Who(actor, now));
        var _ := queue.Approve(a, actor, Some(row.claim.value.evidence), row.claim.value.purposes, now);
      } else {
        ProposalIntroduces(before.ledgers, a, row.dest.channel, queue.Who(actor, now));
        var _ := queue.consent.ProposeAddress(a, actor, now);
      }
      return Some(Holder(contact.value, a));
    }

    method SettleRow(id: string, i: nat, state: RowState, contact: Option<string>, addressId: Option<string>)
      requires id in batches && i < |batches[id].rows|
      modifies this`batches
      ensures var was := old(batches)[id];
              batches == old(batches)[id := was.(
                rows := was.rows[i := was.rows[i].(state := state, contact := contact, addressId := addressId)])]
      ensures Defensible(old(batches)[id].rows) ==> Defensible(batches[id].rows)
    {
      var batch := batches[id];
      var row := batch.rows[i].(state := state, contact := contact, addressId := addressId);
      if Defensible(batch.rows) { SettlingKeepsDefensible(batch.rows, i, row); }
      batches := batches[id := batch.(rows := batch.rows[i := row])];
    }

    /** Decides a whole batch at once, collisions excepted: those keep waiting for `DecideRow`. */
    method Apply(id: string, actor: Actor, now: int) returns (reply: ApplyReply)
      requires Valid()
      modifies this, queue, queue.consent
      ensures Valid()
      ensures reply.NoSuchBatch? <==> id !in old(batches)
      ensures id in old(batches) ==>
                var staged := old(batches)[id].state.BatchStaged?;
                (reply.AlreadyDecided? <==> !staged) && (reply.HumanRequired? <==> staged && !MayGrant(actor)) &&
                (reply.NoEdit? <==> staged && MayGrant(actor) && !MayEdit(actor, old(batches)[id].target))
      ensures !reply.Decided? && !reply.InsertRefused? ==> batches == old(batches) && queue.Dir() == old(queue.Dir())
      ensures reply.Decided? || reply.InsertRefused? ==>
                id in old(batches) && MayDecide(queue.Who(actor, now)) &&
                var batch := old(batches)[id];
                var s := ApplyRows(old(queue.Dir()), batch.rows, Ctx(batch.target, actor, now));
                |s.out| <= |batch.rows| && queue.Dir() == s.dir && reply.InsertRefused? == s.failed &&
                (reply.Decided? ==> reply == Decided(s.created, s.linked, s.deferred)) &&
                batches == old(batches)[id := batch.(rows := s.out + batch.rows[|s.out|..],
                                                     state := if s.failed then BatchStaged else BatchApplied)]
    {
      hide ApplyRows, Defensible, ProposalQueue.Valid, BranchTree.Valid, BranchPermissions.Holds;
      if id !in batches { return NoSuchBatch; }
      if !batches[id].state.BatchStaged? { return AlreadyDecided; }
      if !actor.kind.Human? || (ManageContacts !in actor.authorities && Administer !in actor.authorities) { return HumanRequired; }
      var mayEdit := Permits(actor, batches[id].target);
      if !mayEdit { return NoEdit; }
      var ok, created, linked, deferred := ApplyEach(id, actor, now);
      if !ok { return InsertRefused; }
      batches := batches[id := batches[id].(state := BatchApplied)];
      return Decided(created, linked, deferred);
    }

    /** Replays the staged rows in order, stopping where the directory refuses an insert. */
    method ApplyEach(id: string, actor: Actor, now: int) returns (ok: bool, created: nat, linked: nat, deferred: nat)
      requires Valid() && id in batches && MayGrant(actor) && Named(actor)
      modifies this, queue, queue.consent
      ensures Valid()
      ensures var batch := old(batches)[id];
              var s := ApplyRows(old(queue.Dir()), batch.rows, Ctx(batch.target, actor, now));
              |s.out| <= |batch.rows| && queue.Dir() == s.dir && ok == !s.failed &&
              (ok ==> created == s.created && linked == s.linked && deferred == s.deferred) &&
              batches == old(batches)[id := batch.(rows := s.out + batch.rows[|s.out|..])]
    {
      hide ApplyRows, ApplyRow, Defensible, ProposalQueue.Valid, Materialized, Orphaned, AddressFree, ReferenceFree, MayGrant, Named;
      hide BranchTree.Valid;
      var batch := batches[id];
      var rows := batch.rows;
      ghost var dir, ctx := queue.Dir(), Ctx(batch.target, actor, now);
      ghost var s := ApplyRows(dir, rows[..0], ctx);
      NothingApplied(dir, rows, ctx);
      var produced: map<Dest, Holder> := map[];
      created, linked, deferred := 0, 0, 0;
      var i := 0;
      while i < |rows|
        invariant 0 <= i <= |rows| && queue.Valid() && Defensible(s.out + rows[i..]) && s == ApplyRows(dir, rows[..i], ctx)
        invariant Tracks(s, i, queue.Dir(), produced, created, linked, deferred)
        invariant batches == old(batches)[id := batch.(rows := s.out + rows[i..])]
      {
        var row := rows[i];
        ghost var t := ApplyRow(s, row, ctx);
        OneMoreRow(dir, rows, i, ctx);
        RowCases(s, row, ctx);
        OneClaim(rows, i);
        Rewritten(s.out, rows, i);
        if row.state != Staged {
          // Decided already: nothing to do.
        } else if row.kind.Collision? {
          deferred := deferred + 1;
        } else if row.kind.Duplicate? {
          var settled := if row.matched.Some? then row.matched
                         else if row.dest in produced then Some(produced[row.dest].contact) else None;
          if settled.None? {
            deferred := deferred + 1;
          } else {
            SettleRow(id, i, Applied, settled, if row.dest in produced then Some(produced[row.dest].addressId) else None);
            linked := linked + 1;
          }
        } else {
          var made := Materialize(batch.target, row, actor, now);
          if made.None? {
            FailureStays(dir, rows, i + 1, ctx);
            return false, created, linked, deferred;
          }
          produced := produced[row.dest := made.value];
          SettleRow(id, i, Applied, Some(made.value.contact), Some(made.value.addressId));
          created := created + 1;
        }
        s := t;
        i := i + 1;
      }
      assert rows[..i] == rows && s.out + rows[i..] == s.out;
      return true, created, linked, deferred;
    }

    /** Settles one waiting row by hand: the person already here, or nobody. */
    method DecideRow(id: string, i: nat, actor: Actor, decision: RowDecision) returns (reply: RowReply)
      requires Valid()
      modifies this
      ensures Valid() && queue.Dir() == old(queue.Dir())
      ensures reply == RowAnswer(old(batches), id, i, actor, decision, MayEditMatch(actor, old(batches), id, i))
      ensures if reply.Settled? then
                var batch := old(batches)[id];
                var row := batch.rows[i];
                batches == old(batches)[id := batch.(rows := batch.rows[i :=
                  row.(state := if decision.Link? then Applied else Rejected,
                       contact := if decision.Link? then row.matched else None, addressId := None)])]
              else batches == old(batches)
    {
      if id !in batches || i >= |batches[id].rows| { return NoSuchRow; }
      var row := batches[id].rows[i];
      if row.state != Staged { return RowAlreadyDecided; }
      if !actor.kind.Human? || (ManageContacts !in actor.authorities && Administer !in actor.authorities) { return RowNeedsHuman; }
      if decision.Reject? {
        if actor.principal.None? { return RowNeedsName; }
        SettleRow(id, i, Rejected, None, None);
        return Settled;
      }
      if row.matched.None? { return NobodyToLink; }
      if row.matchedBranch.None? { return RowNoEdit; }
      var mayEdit := Permits(actor, row.matchedBranch.value);
      if !mayEdit { return RowNoEdit; }
      SettleRow(id, i, Applied, row.matched, None);
      return Settled;
    }
  }

  /** `seen` holds the first row of each destination met so far. */
  predicate SeenOk(seen: map<Dest, nat>, ps: seq<Prepared>, i: nat)
    requires i <= |ps|
  {
    (forall d :: d in seen ==> seen[d] < i && ps[seen[d]].dest == d && First(ps, seen[d]) == seen[d]) &&
    (forall j :: 0 <= j < i ==> ps[j].dest in seen)
  }

  /** A repeat takes its match from the first occurrence, which is what looking it up again would give. */
  lemma RepeatRow(dir: Directory, scope: set<string>, ps: seq<Prepared>, i: nat, f: nat)
    requires f < i < |ps| && ps[f].dest == ps[i].dest && First(ps, f) == f
    ensures var first := StagedRow(dir, scope, ps, f);
            StagedRow(dir, scope, ps, i) ==
            Row(ps[i].dest, Duplicate, first.matched, first.matchedBranch, Some(f), ps[i].claim, ps[i].reference, Staged, None, None)
  {
    hide Key;
  }

  lemma FirstRow(dir: Directory, scope: set<string>, ps: seq<Prepared>, i: nat)
    requires i < |ps| && forall j :: 0 <= j < i ==> ps[j].dest != ps[i].dest
    ensures First(ps, i) == i
    ensures var found := Lookup(dir, ps[i].dest);
            (found.Some? ==> found.value in dir.contacts) &&
            var branch := if found.Some? then Some(dir.contacts[found.value]) else None;
            var kind := if found.None? then New else if branch.value in scope then Duplicate else Collision;
            StagedRow(dir, scope, ps, i) ==
            Row(ps[i].dest, kind, found, branch, None, ps[i].claim, ps[i].reference, Staged, None, None)
  {
    hide Key;
  }

  /** The loop's variables are the specified progress so far. */
  ghost predicate Tracks(
    s: Progress, i: nat, dir: Directory, produced: map<Dest, Holder>, created: nat, linked: nat, deferred: nat)
  {
    !s.failed && |s.out| == i && s.dir == dir && s.produced == produced && s.created == created && s.linked == linked &&
    s.deferred == deferred
  }

  lemma NothingApplied(dir: Directory, rows: seq<Row>, ctx: Context)
    ensures ApplyRows(dir, rows[..0], ctx) == Start(dir) && [] + rows[0..] == rows
  {
  }

  /** Writing row `i` moves one row from the waiting part of the file to the finished part. */
  lemma Rewritten(out: seq<Row>, rows: seq<Row>, i: nat)
    requires |out| == i < |rows|
    ensures out + rows[i..] == out + [rows[i]] + rows[i + 1..]
    ensures forall row :: (out + rows[i..])[i := row] == out + [row] + rows[i + 1..]
  {
  }

  /** Settling a row leaves its claim as staged. */
  lemma SettlingKeepsDefensible(rows: seq<Row>, i: nat, row: Row)
    requires Defensible(rows) && i < |rows| && row.claim == rows[i].claim
    ensures Defensible(rows[i := row])
  {
    hide Complete;
  }

  lemma OneClaim(rows: seq<Row>, i: nat)
    requires i < |rows| && Defensible(rows)
    ensures Defensible([rows[i]])
  {
    hide Complete;
  }

  lemma ProposalIntroduces(l: Ledgers, a: string, ch: Channel, who: Decider)
    ensures Perform(Perform(l, AddAddress(a, ch)), ProposeAddress(a, who.actor, who.now)) ==
            PerformAll(l, Introduction(a, ch, None, who))
  {
    TwoWrites(l, AddAddress(a, ch), ProposeAddress(a, who.actor, who.now));
  }

  /** One row's outcome, case by case. */
  lemma RowCases(s: Progress, row: Row, ctx: Context)
    requires !s.failed
    ensures var t := ApplyRow(s, row, ctx);
            var made := row.dest in s.produced;
            var settled := if row.matched.Some? then row.matched else if made then Some(s.produced[row.dest].contact) else None;
            if row.state != Staged then t == s.(out := s.out + [row])
            else if row.kind.Collision? || (row.kind.Duplicate? && settled.None?)
            then t == s.(out := s.out + [row], deferred := s.deferred + 1)
            else if row.kind.Duplicate?
            then t == s.(out := s.out + [row.(state := Applied, contact := settled,
                                              addressId := if made then Some(s.produced[row.dest].addressId) else None)],
                         linked := s.linked + 1)
            else if !ReferenceFree(s.dir, row.reference) then t == s.(failed := true)
            else if !AddressFree(s.dir, row) then t == s.(dir := Orphaned(s.dir, row, ctx), failed := true)
            else var holder := Holder(ctx.mint(s.dir.next), ctx.mint(s.dir.next + 1));
                 t == Progress(Materialized(s.dir, row, ctx), s.produced[row.dest := holder],
                               s.out + [row.(state := Applied, contact := Some(holder.contact), addressId := Some(holder.addressId))],
                               s.created + 1, s.linked, s.deferred, false)
  {
    hide AddressFree, ReferenceFree, Materialized, Orphaned;
  }
}
