/**
 * What preparing, classifying and applying an import mean in terms of the file
 * and the directory alone.
 */
module ImportEffects {
  import opened Prelude
  import opened ConsentLedgers
  import opened PhoneAddresses
  import opened ContactImport
  import opened ImportProofs

  // ----- preparing ---------------------------------------------------------

  /** The errors of a row in the order they are raised, and what an accepted row carries on. */
  lemma PreparedMeans(raw: RawRow, code: Option<string>)
    ensures var p, canonical := PrepareRow(raw, code), CanonicalAddress(raw.channel, raw.address, code);
            if AllBlank(raw.displayName) then p == Invalid(NoDisplayName)
            else if canonical.NeedsCallingCode? then p == Invalid(CallingCodeNeeded)
            else if canonical.address == "" then p == Invalid(NoAddress)
            else if raw.claim.Some? && |raw.claim.value.purposes| == 0 then p == Invalid(NoPurposes)
            else if raw.claim.Some? && |MissingFields(raw.claim.value.evidence)| > 0
            then p == Invalid(EvidenceMissing(MissingFields(raw.claim.value.evidence)))
            else p == Ready(Prepared(Dest(raw.channel, canonical.address), raw.claim, raw.reference))
  {
    StripsToNothing(raw.displayName);
    hide CanonicalAddress, Strip, MissingFields;
  }

  // ----- classifying -------------------------------------------------------

  /**
   * New means first in the file and held by nobody; duplicate means a repeat, or
   * held inside the target's subtree; collision means held outside it.
   */
  lemma ClassifiedMeans(dir: Directory, scope: set<string>, ps: seq<Prepared>, i: nat)
    requires DirectoryOk(dir) && AllSound(ps) && i < |ps|
    ensures var row, key := StagedRow(dir, scope, ps, i), Key(ps[i].dest);
            var repeat_ := exists j :: 0 <= j < i && ps[j].dest == ps[i].dest;
            row.kind == (if repeat_ then Duplicate
                         else if key !in dir.addresses then New
                         else if dir.contacts[dir.addresses[key].contact] in scope then Duplicate else Collision) &&
            row.matched == (if key in dir.addresses then Some(dir.addresses[key].contact) else None) &&
            row.matchedBranch == (if key in dir.addresses then Some(dir.contacts[dir.addresses[key].contact]) else None) &&
            (row.duplicateOf.Some? <==> repeat_) &&
            (row.duplicateOf.Some? ==>
              row.duplicateOf.value < i && ps[row.duplicateOf.value].dest == ps[i].dest &&
              forall j :: 0 <= j < row.duplicateOf.value ==> ps[j].dest != ps[i].dest) &&
            row.dest == ps[i].dest && row.claim == ps[i].claim && row.reference == ps[i].reference &&
            row.state == Staged && row.contact == None && row.addressId == None
  {
    assert Sound(ps[i]);
    hide Key, Complete;
  }

  /** The counts a batch is stored with are numbers of rows. */
  lemma {:induction false} CountMeans(rows: seq<Row>, kind: RowKind)
    ensures Count(rows, kind) == |set i: nat | i < |rows| && rows[i].kind == kind|
    decreases |rows|
  {
    var now := set i: nat | i < |rows| && rows[i].kind == kind;
    if rows == [] {
      assert now == {};
    } else {
      var n := |rows| - 1;
      var before := set i: nat | i < |rows[..n]| && rows[..n][i].kind == kind;
      CountMeans(rows[..n], kind);
      assert now == before + (if rows[n].kind == kind then {n} else {});
    }
  }

  // ----- applying ----------------------------------------------------------

  /** What the batch created is on file: in the target branch, under its destination's key. */
  predicate OnFileIn(s: Progress, branch: string) {
    forall d :: d in s.produced ==>
      Key(d).address != "" && Key(d) in s.dir.addresses && s.dir.addresses[Key(d)] == s.produced[d] &&
      s.produced[d].contact in s.dir.contacts && s.dir.contacts[s.produced[d].contact] == branch
  }

  lemma RowKeepsOnFile(s: Progress, row: Row, ctx: Context)
    requires OnFileIn(s, ctx.branch)
    ensures OnFileIn(ApplyRow(s, row, ctx), ctx.branch)
  {
    hide Normalize, Introduction;
  }

  /** Whatever rows are applied, and even where a row is refused, every contact made is where it should be. */
  lemma {:induction false} ApplyFilesContacts(dir: Directory, rows: seq<Row>, ctx: Context)
    ensures OnFileIn(ApplyRows(dir, rows, ctx), ctx.branch)
    decreases |rows|
  {
    if rows != [] {
      hide ApplyRow, OnFileIn;
      ApplyFilesContacts(dir, rows[..|rows| - 1], ctx);
      RowKeepsOnFile(ApplyRows(dir, rows[..|rows| - 1], ctx), rows[|rows| - 1], ctx);
    }
  }

  /** After a finished apply a new row's destination reaches the contact made for it, in the target branch. */
  lemma {:induction false} NewRowsAreReached(
    dir: Directory, scope: set<string>, ps: seq<Prepared>, ctx: Context, s: Progress, i: nat)
    requires DirectoryOk(dir) && AllSound(ps) && MintsFresh(dir, ctx.mint) && MayDecide(ctx.who) && IsNew(dir, scope, ps, i)
    requires s == ApplyRows(dir, StagedRows(dir, scope, ps), ctx) && !s.failed
    ensures i < |s.out| && s.out[i].contact.Some? && s.out[i].state == Applied &&
            Lookup(s.dir, ps[i].dest) == s.out[i].contact &&
            s.out[i].contact.value in s.dir.contacts && s.dir.contacts[s.out[i].contact.value] == ctx.branch &&
            s.out[i].contact.value !in dir.contacts
  {
    AllApplied(dir, scope, ps, ctx, s);
    KeptFigures(dir, scope, ps, s, ctx);
    ApplyFilesContacts(dir, StagedRows(dir, scope, ps), ctx);
    hide *;
    assert i < |ps| by { NewIsInFile(dir, scope, ps, i); }
    ReachedRow(dir, scope, ps, s, ctx.branch, i);
  }

  lemma NewIsInFile(dir: Directory, scope: set<string>, ps: seq<Prepared>, i: nat)
    requires IsNew(dir, scope, ps, i)
    ensures i < |ps|
  {
  }

  lemma ReachedRow(dir: Directory, scope: set<string>, ps: seq<Prepared>, s: Progress, branch: string, i: nat)
    requires i < |ps| && |s.out| == |ps| && IsNew(dir, scope, ps, i) && SettledRow(dir, scope, ps, i, s)
    requires OnFileIn(s, branch) && ContactsGrown(dir.contacts, s.produced, s.dir.contacts)
    ensures s.out[i].contact.Some? && s.out[i].state == Applied && Lookup(s.dir, ps[i].dest) == s.out[i].contact &&
            s.out[i].contact.value in s.dir.contacts && s.dir.contacts[s.out[i].contact.value] == branch &&
            s.out[i].contact.value !in dir.contacts
  {
    hide Key;
    assert Owns(s.produced, s.produced[ps[i].dest].contact);
  }
}
