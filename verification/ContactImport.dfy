/**
 * An import file is classified against itself and the directory when it is
 * staged, and replayed by a separate loop when it is applied.  This module
 * gives both meanings; `ImportProofs` and `ImportFailures` prove how they agree.
 */
module ContactImport {
  import opened Prelude
  import opened ConsentLedgers
  import opened PhoneAddresses

  /** A destination as deduplicated in a batch and as keyed in the directory. */
  datatype Dest = Dest(channel: Channel, address: string)

  datatype Holder = Holder(contact: string, addressId: string)

  /**
   * Contacts by id with their branch, addresses by their unique key, the ledgers
   * over address ids, and the external references that imported contacts hold,
   * each at most once.
   */
  datatype Directory = Directory(
    contacts: map<string, string>, addresses: map<Dest, Holder>, ledgers: Ledgers, next: nat, references: set<string>)

  datatype Claim = Claim(purposes: seq<Purpose>, evidence: Evidence)

  datatype RawRow = RawRow(
    displayName: string, channel: Channel, address: string, claim: Option<Claim>, reference: Option<string>)

  datatype Prepared = Prepared(dest: Dest, claim: Option<Claim>, reference: Option<string>)

  datatype RowKind = New | Duplicate | Collision

  datatype RowState = Staged | Applied | Rejected

  datatype Row = Row(
    dest: Dest, kind: RowKind, matched: Option<string>, matchedBranch: Option<string>, duplicateOf: Option<nat>,
    claim: Option<Claim>, reference: Option<string>, state: RowState, contact: Option<string>, addressId: Option<string>)

  datatype RowError = NoDisplayName | CallingCodeNeeded | NoAddress | NoPurposes | EvidenceMissing(fields: seq<Field>)

  datatype Preparation = Ready(row: Prepared) | Invalid(error: RowError)

  // ----- preparing ---------------------------------------------------------

  /** A claim is refused unless it names purposes and its evidence is complete; no claim is no claim. */
  function PrepareRow(raw: RawRow, code: Option<string>): Preparation {
    if Strip(raw.displayName) == "" then Invalid(NoDisplayName)
    else
      var canonical := CanonicalAddress(raw.channel, raw.address, code);
      if canonical.NeedsCallingCode? then Invalid(CallingCodeNeeded)
      else if canonical.address == "" then Invalid(NoAddress)
      else if raw.claim.Some? && raw.claim.value.purposes == [] then Invalid(NoPurposes)
      else if raw.claim.Some? && !Complete(raw.claim.value.evidence)
      then Invalid(EvidenceMissing(MissingFields(raw.claim.value.evidence)))
      else Ready(Prepared(Dest(raw.channel, canonical.address), raw.claim, raw.reference))
  }

  // ----- classifying -------------------------------------------------------

  /** A destination as the unique index stores it. */
  function Key(d: Dest): Dest { Dest(d.channel, Normalize(d.channel, d.address)) }

  /** Two destinations are one exactly when they are on one channel and come to one normalised address. */
  lemma OneKey(d: Dest, e: Dest)
    ensures Key(d) == Key(e) <==>
              d.channel == e.channel &&
              if d.channel.Email? then LowerAll(Strip(d.address)) == LowerAll(Strip(e.address))
              else Keep(d.address, Dialable) == Keep(e.address, Dialable)
  {
  }

  /** What preparation guarantees: an address to look up, and a claim only if it is defensible. */
  predicate Sound(p: Prepared) {
    Key(p.dest).address != "" && (p.claim.Some? ==> p.claim.value.purposes != [] && Complete(p.claim.value.evidence))
  }

  lemma PreparedIsSound(raw: RawRow, code: Option<string>)
    requires PrepareRow(raw, code).Ready?
    ensures Sound(PrepareRow(raw, code).row)
  {
    if raw.channel.Email? { NormalizedEmailIsFixed(raw.address); }
    else { CanonicalHasKey(raw.channel, raw.address, code); }
  }

  /** `contact_by_address`: who a destination reaches, through the stored unique key. */
  function Lookup(dir: Directory, d: Dest): Option<string> {
    var key := Key(d);
    if key.address != "" && key in dir.addresses && dir.addresses[key].contact in dir.contacts
    then Some(dir.addresses[key].contact) else None
  }

  /** The first row of the file with the same destination. */
  function First(ps: seq<Prepared>, i: nat): (f: nat)
    requires i < |ps|
    ensures f <= i && ps[f].dest == ps[i].dest && forall j :: 0 <= j < f ==> ps[j].dest != ps[i].dest
  {
    FirstFrom(ps, i, 0)
  }

  function FirstFrom(ps: seq<Prepared>, i: nat, j: nat): (f: nat)
    requires j <= i < |ps| && forall k :: 0 <= k < j ==> ps[k].dest != ps[i].dest
    ensures f <= i && ps[f].dest == ps[i].dest && forall k :: 0 <= k < f ==> ps[k].dest != ps[i].dest
    decreases i - j
  {
    if ps[j].dest == ps[i].dest then j else FirstFrom(ps, i, j + 1)
  }

  function Branch(dir: Directory, contact: Option<string>): Option<string> {
    if contact.Some? && contact.value in dir.contacts then Some(dir.contacts[contact.value]) else None
  }

  /** A repeat in the file is a duplicate; otherwise the directory decides, and scope tells duplicate from collision. */
  function KindOf(dir: Directory, scope: set<string>, ps: seq<Prepared>, i: nat): RowKind
    requires i < |ps|
  {
    var found := Lookup(dir, ps[i].dest);
    if First(ps, i) < i then Duplicate
    else if found.None? then New
    else if Branch(dir, found).Some? && Branch(dir, found).value in scope then Duplicate
    else Collision
  }

  function StagedRow(dir: Directory, scope: set<string>, ps: seq<Prepared>, i: nat): Row
    requires i < |ps|
  {
    var found := Lookup(dir, ps[i].dest);
    Row(ps[i].dest, KindOf(dir, scope, ps, i), found, Branch(dir, found),
        if First(ps, i) < i then Some(First(ps, i)) else None, ps[i].claim, ps[i].reference,
        Staged, None, None)
  }

  function StagedRows(dir: Directory, scope: set<string>, ps: seq<Prepared>): (rows: seq<Row>)
    ensures |rows| == |ps|
  {
    seq(|ps|, i requires 0 <= i < |ps| => StagedRow(dir, scope, ps, i))
  }

  function Count(rows: seq<Row>, kind: RowKind): nat {
    if rows == [] then 0
    else Count(rows[..|rows| - 1], kind) + (if rows[|rows| - 1].kind == kind then 1 else 0)
  }

  // ----- applying ----------------------------------------------------------

  /** Who decides and when, and the revocation scope the deployment configured for grants. */
  datatype Decider = Decider(actor: Actor, now: int, configured: Option<Scope>)

  /** A human with authority over contacts, by name. */
  predicate MayDecide(who: Decider) { MayGrant(who.actor) && Named(who.actor) }

  /** Who applies, where, and how fresh identifiers are minted. */
  datatype Context = Context(who: Decider, branch: string, mint: nat -> string)

  function Grants(purposes: seq<Purpose>, a: string, e: Evidence, who: Decider): seq<Write> {
    seq(|purposes|, i requires 0 <= i < |purposes| => GrantConsent(a, purposes[i], e, who.actor, who.configured, who.now))
  }

  /** The ledger writes behind one new address: approved with its evidence, or left proposed. */
  function Introduction(a: string, channel: Channel, claim: Option<Claim>, who: Decider): seq<Write> {
    if claim.Some? then
      [AddAddress(a, channel), Activate(a, who.actor, who.now)] + Grants(claim.value.purposes, a, claim.value.evidence, who)
    else [AddAddress(a, channel), ProposeAddress(a, who.actor, who.now)]
  }

  function Filed(references: set<string>, reference: Option<string>): set<string> {
    if reference.Some? then references + {reference.value} else references
  }

  /** One new person in the target branch, reachable at one new address. */
  function Introduce(dir: Directory, dest: Dest, claim: Option<Claim>, reference: Option<string>, ctx: Context): Directory {
    var contact, a := ctx.mint(dir.next), ctx.mint(dir.next + 1);
    Directory(
      dir.contacts[contact := ctx.branch],
      dir.addresses[Key(dest) := Holder(contact, a)],
      PerformAll(dir.ledgers, Introduction(a, dest.channel, claim, ctx.who)),
      dir.next + 2, Filed(dir.references, reference))
  }

  function Materialized(dir: Directory, row: Row, ctx: Context): Directory {
    Introduce(dir, row.dest, row.claim, row.reference, ctx)
  }

  /** A contact that was committed before its address was refused. */
  function Orphaned(dir: Directory, row: Row, ctx: Context): Directory {
    dir.(contacts := dir.contacts[ctx.mint(dir.next) := ctx.branch], next := dir.next + 1,
         references := Filed(dir.references, row.reference))
  }

  /** The unique index on external references that creating a contact meets. */
  predicate ReferenceFree(dir: Directory, reference: Option<string>) {
    reference.Some? ==> reference.value !in dir.references
  }

  /** The unique index, and the empty-address check, that `add_address` meets. */
  predicate AddressFree(dir: Directory, row: Row) { Key(row.dest).address != "" && Key(row.dest) !in dir.addresses }

  /** The loop's state: `produced` maps destinations to what this batch created for them. */
  datatype Progress = Progress(
    dir: Directory, produced: map<Dest, Holder>, out: seq<Row>, created: nat, linked: nat, deferred: nat, failed: bool)

  function ApplyRow(s: Progress, row: Row, ctx: Context): Progress {
    if s.failed then s
    else if row.state != Staged then s.(out := s.out + [row])
    else if row.kind.Collision? then s.(out := s.out + [row], deferred := s.deferred + 1)
    else if row.kind.Duplicate? then
      var made := row.dest in s.produced;
      var settled := if row.matched.Some? then row.matched else if made then Some(s.produced[row.dest].contact) else None;
      if settled.None? then s.(out := s.out + [row], deferred := s.deferred + 1)
      else
        s.(out := s.out + [row.(state := Applied, contact := settled,
                                addressId := if made then Some(s.produced[row.dest].addressId) else None)],
           linked := s.linked + 1)
    else if !ReferenceFree(s.dir, row.reference) then s.(failed := true)
    else if !AddressFree(s.dir, row) then s.(dir := Orphaned(s.dir, row, ctx), failed := true)
    else
      var made := Holder(ctx.mint(s.dir.next), ctx.mint(s.dir.next + 1));
      Progress(Materialized(s.dir, row, ctx), s.produced[row.dest := made],
               s.out + [row.(state := Applied, contact := Some(made.contact), addressId := Some(made.addressId))],
               s.created + 1, s.linked, s.deferred, false)
  }

  function Start(dir: Directory): Progress { Progress(dir, map[], [], 0, 0, 0, false) }

  function ApplyRows(dir: Directory, rows: seq<Row>, ctx: Context): Progress {
    if rows == [] then Start(dir)
    else ApplyRow(ApplyRows(dir, rows[..|rows| - 1], ctx), rows[|rows| - 1], ctx)
  }
}
