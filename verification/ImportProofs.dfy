/**
 * Staging a file and applying it to the same directory: the counts agree, each
 * distinct new destination gets one contact, repeats settle on it, and each new
 * address may be contacted for exactly what its row proved.
 */
module ImportProofs {
  import opened Prelude
  import opened ConsentLedgers
  import opened PhoneAddresses
  import opened ContactImport
  import opened ImportLedgers

  /** Identifiers are generated fresh: never repeated, and not in use from `next` on. */
  ghost predicate MintsFresh(dir: Directory, mint: nat -> string) {
    (forall m, n :: mint(m) == mint(n) ==> m == n) &&
    (forall n :: n >= dir.next ==> mint(n) !in dir.contacts && mint(n) !in dir.ledgers.addresses)
  }

  /** Every stored address belongs to a stored contact, and ledger rows speak of stored addresses. */
  predicate DirectoryOk(dir: Directory) {
    (forall d :: d in dir.addresses ==> dir.addresses[d].contact in dir.contacts) && Known(dir.ledgers)
  }

  predicate AllSound(ps: seq<Prepared>) { forall i :: 0 <= i < |ps| ==> Sound(ps[i]) }

  /** Row `i` asks for a contact of its own. */
  predicate IsNew(dir: Directory, scope: set<string>, ps: seq<Prepared>, i: nat) {
    i < |ps| && KindOf(dir, scope, ps, i).New?
  }

  // ----- directory and produced map ----------------------------------------

  predicate Owns(produced: map<Dest, Holder>, c: string) { exists d :: d in produced && produced[d].contact == c }

  ghost predicate ContactsGrown(before: map<string, string>, produced: map<Dest, Holder>, after: map<string, string>) {
    (forall c :: c in after <==> c in before || Owns(produced, c)) &&
    (forall c :: c in before ==> !Owns(produced, c) && after[c] == before[c]) &&
    (forall d, e :: d in produced && e in produced && produced[d].contact == produced[e].contact ==> d == e) &&
    |after| == |before| + |produced|
  }

  /** What the batch has created so far, one contact per destination, and nobody else has joined the directory. */
  ghost predicate Grown(dir: Directory, s: Progress) {
    ContactsGrown(dir.contacts, s.produced, s.dir.contacts) && |s.produced| == s.created
  }

  lemma OneMoreContact(
    before: map<string, string>, produced: map<Dest, Holder>, after: map<string, string>, d: Dest, made: Holder, branch: string)
    requires ContactsGrown(before, produced, after) && d !in produced && made.contact !in after
    ensures ContactsGrown(before, produced[d := made], after[made.contact := branch])
  {
    forall c ensures Owns(produced[d := made], c) <==> Owns(produced, c) || c == made.contact {
      OwnsOneMore(produced, d, made, c);
    }
    OneMoreKey(produced, d, made);
    OneMoreKey(after, made.contact, branch);
    forall e | e in produced ensures produced[e].contact != made.contact {
      assert Owns(produced, produced[e].contact);
    }
    hide Owns;
  }

  lemma OneMoreKey<K, V>(m: map<K, V>, k: K, v: V)
    requires k !in m
    ensures |m[k := v]| == |m| + 1
  {
    assert m[k := v].Keys == m.Keys + {k};
  }

  lemma OwnsOneMore(produced: map<Dest, Holder>, d: Dest, made: Holder, c: string)
    requires d !in produced
    ensures Owns(produced[d := made], c) <==> Owns(produced, c) || c == made.contact
  {
    var produced' := produced[d := made];
    if Owns(produced, c) {
      var x :| x in produced && produced[x].contact == c;
      assert x in produced' && produced'[x].contact == c;
    }
    if c == made.contact { assert d in produced' && produced'[d].contact == c; }
  }

  /** Exactly the new destinations seen so far have been produced. */
  predicate ProducedNew(dir: Directory, scope: set<string>, ps: seq<Prepared>, n: nat, s: Progress) {
    (forall i :: 0 <= i < n && IsNew(dir, scope, ps, i) ==> ps[i].dest in s.produced) &&
    (forall d :: d in s.produced ==> exists i :: 0 <= i < n && IsNew(dir, scope, ps, i) && ps[i].dest == d)
  }

  /** How each row read so far has been settled. */
  predicate SettledRow(dir: Directory, scope: set<string>, ps: seq<Prepared>, i: nat, s: Progress)
    requires i < |ps| && i < |s.out|
  {
    var row := StagedRow(dir, scope, ps, i);
    match row.kind
    case Collision => s.out[i] == row
    case New =>
      row.dest in s.produced &&
      s.out[i] == row.(state := Applied, contact := Some(s.produced[row.dest].contact),
                       addressId := Some(s.produced[row.dest].addressId))
    case Duplicate =>
      s.out[i].state == Applied && s.out[i].dest == row.dest &&
      (row.matched.Some? ==> s.out[i].contact == row.matched) &&
      (row.matched.None? ==>
        row.dest in s.produced && s.out[i].contact == Some(s.produced[row.dest].contact) &&
        s.out[i].addressId == Some(s.produced[row.dest].addressId))
  }

  /** The loop invariant of `apply` over the first `n` staged rows. */
  ghost predicate Inv(dir: Directory, scope: set<string>, ps: seq<Prepared>, n: nat, s: Progress, ctx: Context)
    requires n <= |ps|
  {
    !s.failed && DirectoryOk(s.dir) && MintsFresh(s.dir, ctx.mint) && Grown(dir, s) &&
    ProducedNew(dir, scope, ps, n, s) && |s.out| == n &&
    (forall i :: 0 <= i < n ==> SettledRow(dir, scope, ps, i, s)) &&
    s.created == Count(StagedRows(dir, scope, ps)[..n], New) &&
    s.linked == Count(StagedRows(dir, scope, ps)[..n], Duplicate) &&
    s.deferred == Count(StagedRows(dir, scope, ps)[..n], Collision)
  }

  lemma CountGrows(rows: seq<Row>, n: nat, kind: RowKind)
    requires n < |rows|
    ensures Count(rows[..n + 1], kind) == Count(rows[..n], kind) + (if rows[n].kind == kind then 1 else 0)
  {
    assert rows[..n + 1][..n] == rows[..n];
  }

  // ----- the creating step -------------------------------------------------

  lemma WritesAreAbout(a: string, ch: Channel, claim: Option<Claim>, who: Decider)
    ensures forall i :: 0 <= i < |Introduction(a, ch, claim, who)| ==> About(Introduction(a, ch, claim, who)[i], a)
  {
  }

  /** Creating one contact keeps the directory sound and the identifiers fresh. */
  lemma IntroduceKeepsOk(dir: Directory, dest: Dest, claim: Option<Claim>, reference: Option<string>, ctx: Context)
    requires DirectoryOk(dir) && MintsFresh(dir, ctx.mint)
    ensures var dir' := Introduce(dir, dest, claim, reference, ctx); DirectoryOk(dir') && MintsFresh(dir', ctx.mint)
  {
    hide Introduction, Known, PerformAll, Key;
    var a := ctx.mint(dir.next + 1);
    var ws := Introduction(a, dest.channel, claim, ctx.who);
    WritesAreAbout(a, dest.channel, claim, ctx.who);
    RunKeepsKnown(dir.ledgers, ws, a);
  }

  lemma MaterializeKeepsOk(dir: Directory, row: Row, ctx: Context)
    requires DirectoryOk(dir) && MintsFresh(dir, ctx.mint)
    ensures DirectoryOk(Materialized(dir, row, ctx)) && MintsFresh(Materialized(dir, row, ctx), ctx.mint)
  {
    hide DirectoryOk, MintsFresh, Introduce;
    IntroduceKeepsOk(dir, row.dest, row.claim, row.reference, ctx);
  }

  lemma MaterializeGrows(dir: Directory, s: Progress, row: Row, ctx: Context, s': Progress)
    requires Grown(dir, s) && MintsFresh(s.dir, ctx.mint) && row.dest !in s.produced
    requires s'.dir == Materialized(s.dir, row, ctx) && s'.created == s.created + 1
    requires s'.produced == s.produced[row.dest := Holder(ctx.mint(s.dir.next), ctx.mint(s.dir.next + 1))]
    ensures Grown(dir, s')
  {
    hide ContactsGrown, Key, PerformAll, Introduction;
    var made := Holder(ctx.mint(s.dir.next), ctx.mint(s.dir.next + 1));
    OneMoreContact(dir.contacts, s.produced, s.dir.contacts, row.dest, made, ctx.branch);
    OneMoreKey(s.produced, row.dest, made);
  }

  // ----- one row -----------------------------------------------------------

  lemma SettledPersists(dir: Directory, scope: set<string>, ps: seq<Prepared>, i: nat, s: Progress, s': Progress)
    requires i < |ps| && i < |s.out| && SettledRow(dir, scope, ps, i, s)
    requires s.out <= s'.out && forall d :: d in s.produced ==> d in s'.produced && s'.produced[d] == s.produced[d]
    ensures SettledRow(dir, scope, ps, i, s')
  {
    hide StagedRow;
  }

  /** A repeat whose destination nobody holds follows a row that was new. */
  lemma RepeatFollowsNew(dir: Directory, scope: set<string>, ps: seq<Prepared>, n: nat)
    requires n < |ps|
    requires StagedRow(dir, scope, ps, n).kind.Duplicate? && StagedRow(dir, scope, ps, n).matched.None?
    ensures First(ps, n) < n && IsNew(dir, scope, ps, First(ps, n))
  {
    assert First(ps, First(ps, n)) == First(ps, n);
  }

  lemma DuplicateStep(dir: Directory, scope: set<string>, ps: seq<Prepared>, n: nat, s: Progress, ctx: Context)
    requires n < |ps| && !s.failed && |s.out| == n
    requires ProducedNew(dir, scope, ps, n, s) && StagedRow(dir, scope, ps, n).kind.Duplicate?
    ensures var s' := ApplyRow(s, StagedRow(dir, scope, ps, n), ctx);
            s' == s.(out := s'.out, linked := s.linked + 1) && |s'.out| == n + 1 && s.out <= s'.out &&
            SettledRow(dir, scope, ps, n, s')
  {
    var row := StagedRow(dir, scope, ps, n);
    if row.matched.None? {
      RepeatFollowsNew(dir, scope, ps, n);
      assert ps[First(ps, n)].dest in s.produced;
    }
  }

  lemma NewIsUnproduced(dir: Directory, scope: set<string>, ps: seq<Prepared>, n: nat, s: Progress)
    requires IsNew(dir, scope, ps, n) && ProducedNew(dir, scope, ps, n, s)
    ensures ps[n].dest !in s.produced
  {
  }

  lemma ProducedNewGrows(dir: Directory, scope: set<string>, ps: seq<Prepared>, n: nat, s: Progress, s': Progress)
    requires n < |ps| && ProducedNew(dir, scope, ps, n, s)
    requires if IsNew(dir, scope, ps, n) then s'.produced.Keys == s.produced.Keys + {ps[n].dest} else s'.produced == s.produced
    ensures ProducedNew(dir, scope, ps, n + 1, s')
  {
    hide IsNew;
    forall d | d in s'.produced ensures exists i :: 0 <= i < n + 1 && IsNew(dir, scope, ps, i) && ps[i].dest == d {
      if d in s.produced {
        var i :| 0 <= i < n && IsNew(dir, scope, ps, i) && ps[i].dest == d;
      } else {
        assert IsNew(dir, scope, ps, n) && ps[n].dest == d;
      }
    }
  }

  function Gain(dir: Directory, scope: set<string>, ps: seq<Prepared>, n: nat, kind: RowKind): nat
    requires n < |ps|
  {
    if KindOf(dir, scope, ps, n) == kind then 1 else 0
  }

  lemma CountsGrow(dir: Directory, scope: set<string>, ps: seq<Prepared>, n: nat, kind: RowKind)
    requires n < |ps|
    ensures Count(StagedRows(dir, scope, ps)[..n + 1], kind) ==
            Count(StagedRows(dir, scope, ps)[..n], kind) + Gain(dir, scope, ps, n, kind)
  {
    CountGrows(StagedRows(dir, scope, ps), n, kind);
  }

  lemma AllSettledAdvance(dir: Directory, scope: set<string>, ps: seq<Prepared>, n: nat, s: Progress, s': Progress)
    requires n < |ps| && |s.out| == n && |s'.out| == n + 1 && s.out <= s'.out
    requires forall d :: d in s.produced ==> d in s'.produced && s'.produced[d] == s.produced[d]
    requires (forall i :: 0 <= i < n ==> SettledRow(dir, scope, ps, i, s)) && SettledRow(dir, scope, ps, n, s')
    ensures forall i :: 0 <= i < n + 1 ==> SettledRow(dir, scope, ps, i, s')
  {
    hide SettledRow;
    forall i | 0 <= i < n + 1 ensures SettledRow(dir, scope, ps, i, s') {
      if i < n { SettledPersists(dir, scope, ps, i, s, s'); }
    }
  }

  /** The invariant one row later, from what that row's step must provide. */
  lemma InvAdvances(
    dir: Directory, scope: set<string>, ps: seq<Prepared>, n: nat, s: Progress, s': Progress, made: Holder, ctx: Context)
    requires n < |ps| && Inv(dir, scope, ps, n, s, ctx)
    requires !s'.failed && DirectoryOk(s'.dir) && MintsFresh(s'.dir, ctx.mint) && Grown(dir, s')
    requires s'.produced == if IsNew(dir, scope, ps, n) then s.produced[ps[n].dest := made] else s.produced
    requires IsNew(dir, scope, ps, n) ==> ps[n].dest !in s.produced
    requires |s'.out| == n + 1 && s.out <= s'.out && SettledRow(dir, scope, ps, n, s')
    requires s'.created == s.created + Gain(dir, scope, ps, n, New)
    requires s'.linked == s.linked + Gain(dir, scope, ps, n, Duplicate)
    requires s'.deferred == s.deferred + Gain(dir, scope, ps, n, Collision)
    ensures Inv(dir, scope, ps, n + 1, s', ctx)
  {
    hide SettledRow, ProducedNew, DirectoryOk, MintsFresh, Count, Grown, IsNew, Gain, StagedRows;
    CountsGrow(dir, scope, ps, n, New);
    CountsGrow(dir, scope, ps, n, Duplicate);
    CountsGrow(dir, scope, ps, n, Collision);
    ProducedNewGrows(dir, scope, ps, n, s, s');
    AllSettledAdvance(dir, scope, ps, n, s, s');
  }

  /** A row that asks for nothing new is settled or left waiting; the directory stays as it was. */
  lemma LinkOrDefer(dir: Directory, scope: set<string>, ps: seq<Prepared>, n: nat, s: Progress, ctx: Context)
    requires n < |ps| && !s.failed && |s.out| == n
    requires ProducedNew(dir, scope, ps, n, s) && !IsNew(dir, scope, ps, n)
    ensures var s' := ApplyRow(s, StagedRow(dir, scope, ps, n), ctx);
            s'.dir == s.dir && s'.produced == s.produced && !s'.failed && |s'.out| == n + 1 && s.out <= s'.out &&
            SettledRow(dir, scope, ps, n, s') && s'.created == s.created + Gain(dir, scope, ps, n, New) &&
            s'.linked == s.linked + Gain(dir, scope, ps, n, Duplicate) &&
            s'.deferred == s.deferred + Gain(dir, scope, ps, n, Collision)
  {
    hide First, Lookup, ProducedNew;
    if StagedRow(dir, scope, ps, n).kind.Duplicate? { DuplicateStep(dir, scope, ps, n, s, ctx); }
  }

  lemma LinkOrDeferStep(dir: Directory, scope: set<string>, ps: seq<Prepared>, n: nat, s: Progress, ctx: Context)
    requires n < |ps| && Inv(dir, scope, ps, n, s, ctx) && !IsNew(dir, scope, ps, n)
    ensures Inv(dir, scope, ps, n + 1, ApplyRow(s, StagedRow(dir, scope, ps, n), ctx), ctx)
    ensures var s' := ApplyRow(s, StagedRow(dir, scope, ps, n), ctx); s'.dir == s.dir && s'.produced == s.produced
  {
    hide *;
    var s' := ApplyRow(s, StagedRow(dir, scope, ps, n), ctx);
    InvFacts(dir, scope, ps, n, s, ctx);
    LinkOrDefer(dir, scope, ps, n, s, ctx);
    NotNewGain(dir, scope, ps, n);
    SameGrown(dir, s, s');
    InvAdvances(dir, scope, ps, n, s, s', Holder("", ""), ctx);
  }

  lemma NotNewGain(dir: Directory, scope: set<string>, ps: seq<Prepared>, n: nat)
    requires n < |ps| && !IsNew(dir, scope, ps, n)
    ensures Gain(dir, scope, ps, n, New) == 0
  {
  }

  lemma SameGrown(dir: Directory, s: Progress, s': Progress)
    requires Grown(dir, s) && s'.dir == s.dir && s'.produced == s.produced && s'.created == s.created
    ensures Grown(dir, s')
  {
  }

  /** A new row's step: a contact is created for it, unless the directory refuses it. */
  lemma NewStepMakes(dir: Directory, scope: set<string>, ps: seq<Prepared>, n: nat, s: Progress, row: Row, s': Progress, ctx: Context)
    requires n < |ps| && Inv(dir, scope, ps, n, s, ctx) && IsNew(dir, scope, ps, n)
    requires row == StagedRow(dir, scope, ps, n) && s' == ApplyRow(s, row, ctx) && !s'.failed
    ensures row.dest == ps[n].dest && row.claim == ps[n].claim && ps[n].dest !in s.produced
    ensures var made := Holder(ctx.mint(s.dir.next), ctx.mint(s.dir.next + 1));
            s' == Progress(
              Materialized(s.dir, row, ctx), s.produced[row.dest := made],
              s.out + [row.(state := Applied, contact := Some(made.contact), addressId := Some(made.addressId))],
              s.created + 1, s.linked, s.deferred, false)
  {
    hide *;
    InvFacts(dir, scope, ps, n, s, ctx);
    NewIsUnproduced(dir, scope, ps, n, s);
    NewGains(dir, scope, ps, n);
    NewRowStep(s, row, ctx);
  }

  lemma NewStep(dir: Directory, scope: set<string>, ps: seq<Prepared>, n: nat, s: Progress, row: Row, s': Progress, ctx: Context)
    requires n < |ps| && Inv(dir, scope, ps, n, s, ctx) && IsNew(dir, scope, ps, n)
    requires row == StagedRow(dir, scope, ps, n) && s' == ApplyRow(s, row, ctx) && !s'.failed
    ensures Inv(dir, scope, ps, n + 1, s', ctx)
  {
    hide *;
    NewStepMakes(dir, scope, ps, n, s, row, s', ctx);
    InvFacts(dir, scope, ps, n, s, ctx);
    NewGains(dir, scope, ps, n);
    MaterializeKeepsOk(s.dir, row, ctx);
    MaterializeGrows(dir, s, row, ctx, s');
    var made := Holder(ctx.mint(s.dir.next), ctx.mint(s.dir.next + 1));
    NewSettled(dir, scope, ps, n, s, s', made);
    InvAdvances(dir, scope, ps, n, s, s', made, ctx);
  }

  lemma InvFacts(dir: Directory, scope: set<string>, ps: seq<Prepared>, n: nat, s: Progress, ctx: Context)
    requires n <= |ps| && Inv(dir, scope, ps, n, s, ctx)
    ensures !s.failed && DirectoryOk(s.dir) && MintsFresh(s.dir, ctx.mint) && Grown(dir, s) && |s.out| == n
    ensures ProducedNew(dir, scope, ps, n, s)
  {
  }

  lemma NewSettled(dir: Directory, scope: set<string>, ps: seq<Prepared>, n: nat, s: Progress, s': Progress, made: Holder)
    requires n < |ps| && |s.out| == n && IsNew(dir, scope, ps, n)
    requires ps[n].dest in s'.produced && s'.produced[ps[n].dest] == made
    requires s'.out == s.out + [StagedRow(dir, scope, ps, n).(
               state := Applied, contact := Some(made.contact), addressId := Some(made.addressId))]
    ensures SettledRow(dir, scope, ps, n, s')
  {
  }

  lemma NewGains(dir: Directory, scope: set<string>, ps: seq<Prepared>, n: nat)
    requires IsNew(dir, scope, ps, n)
    ensures StagedRow(dir, scope, ps, n).kind.New? && StagedRow(dir, scope, ps, n).state == Staged
    ensures StagedRow(dir, scope, ps, n).dest == ps[n].dest && StagedRow(dir, scope, ps, n).claim == ps[n].claim
    ensures Gain(dir, scope, ps, n, New) == 1 && Gain(dir, scope, ps, n, Duplicate) == 0 && Gain(dir, scope, ps, n, Collision) == 0
  {
  }

  lemma NewRowStep(s: Progress, row: Row, ctx: Context)
    requires !s.failed && row.kind.New? && row.state == Staged && !ApplyRow(s, row, ctx).failed
    ensures var made := Holder(ctx.mint(s.dir.next), ctx.mint(s.dir.next + 1));
            ApplyRow(s, row, ctx) == Progress(
              Materialized(s.dir, row, ctx), s.produced[row.dest := made],
              s.out + [row.(state := Applied, contact := Some(made.contact), addressId := Some(made.addressId))],
              s.created + 1, s.linked, s.deferred, false)
  {
  }

  // ----- eligibility -------------------------------------------------------

  /** The address may be contacted for exactly what its row claimed, on any sender, until the evidence expires. */
  ghost predicate EligibleAsClaimed(l: Ledgers, a: string, ch: Channel, claim: Option<Claim>) {
    forall p, sender, t :: Decision(l, a, ch, p, sender, t) == IsEligible <==> LiveAt(claim, p, t)
  }

  ghost predicate SameDecisions(l: Ledgers, l': Ledgers, b: string) {
    forall ch, p, sender, t :: Decision(l', b, ch, p, sender, t) == Decision(l, b, ch, p, sender, t)
  }

  predicate IdsKnown(produced: map<Dest, Holder>, l: Ledgers) {
    forall d :: d in produced ==> produced[d].addressId in l.addresses
  }

  ghost predicate OthersKept(before: Ledgers, l: Ledgers) {
    forall b :: b in before.addresses ==> b in l.addresses && SameDecisions(before, l, b)
  }

  ghost predicate NewEligible(
    dir: Directory, scope: set<string>, ps: seq<Prepared>, n: nat, produced: map<Dest, Holder>, l: Ledgers)
    requires n <= |ps|
  {
    forall i :: 0 <= i < n && IsNew(dir, scope, ps, i) && ps[i].dest in produced ==>
      EligibleAsClaimed(l, produced[ps[i].dest].addressId, ps[i].dest.channel, ps[i].claim)
  }

  ghost predicate LedgerInv(dir: Directory, scope: set<string>, ps: seq<Prepared>, n: nat, s: Progress)
    requires n <= |ps|
  {
    IdsKnown(s.produced, s.dir.ledgers) && OthersKept(dir.ledgers, s.dir.ledgers) &&
    NewEligible(dir, scope, ps, n, s.produced, s.dir.ledgers)
  }

  lemma IntroductionLeavesOthers(l: Ledgers, a: string, ch: Channel, claim: Option<Claim>, who: Decider, b: string)
    requires a != b
    ensures SameDecisions(l, PerformAll(l, Introduction(a, ch, claim, who)), b)
  {
    WritesAreAbout(a, ch, claim, who);
    var ws := Introduction(a, ch, claim, who);
    hide Introduction, Decision, PerformAll;
    forall ch', p, sender, t ensures Decision(PerformAll(l, ws), b, ch', p, sender, t) == Decision(l, b, ch', p, sender, t) {
      RunLeavesOthers(l, ws, a, b, ch', p, sender, t);
    }
  }

  lemma IntroductionIsEligible(l: Ledgers, a: string, ch: Channel, claim: Option<Claim>, who: Decider)
    requires Known(l) && a !in l.addresses && (claim.Some? ==> MayDecide(who) && Complete(claim.value.evidence))
    ensures EligibleAsClaimed(PerformAll(l, Introduction(a, ch, claim, who)), a, ch, claim)
  {
    var l' := PerformAll(l, Introduction(a, ch, claim, who));
    forall p, sender, t ensures Decision(l', a, ch, p, sender, t) == IsEligible <==> LiveAt(claim, p, t) {
      IntroducedEligibility(l, a, ch, claim, who, p, sender, t);
    }
  }

  lemma SameDecisionsChain(l: Ledgers, l': Ledgers, l'': Ledgers, b: string)
    requires SameDecisions(l, l', b) && SameDecisions(l', l'', b)
    ensures SameDecisions(l, l'', b)
  {
    hide Decision;
  }

  lemma ClaimSurvives(l: Ledgers, l': Ledgers, a: string, ch: Channel, claim: Option<Claim>)
    requires EligibleAsClaimed(l, a, ch, claim) && SameDecisions(l, l', a)
    ensures EligibleAsClaimed(l', a, ch, claim)
  {
    hide Decision, LiveAt;
  }

  /** What introducing a fresh address does to the ledgers, seen from every address. */
  lemma Introduced(l: Ledgers, a: string, ch: Channel, claim: Option<Claim>, who: Decider, l': Ledgers)
    requires Known(l) && a !in l.addresses && (claim.Some? ==> MayDecide(who) && Complete(claim.value.evidence))
    requires l' == PerformAll(l, Introduction(a, ch, claim, who))
    ensures l'.addresses == l.addresses[a := ch] && EligibleAsClaimed(l', a, ch, claim) && OthersKept(l, l')
  {
    IntroductionIsEligible(l, a, ch, claim, who);
    IntroductionRows(l, a, ch, claim, who);
    hide PerformAll, Introduction, EligibleAsClaimed, SameDecisions, Known, Complete;
    forall b | b in l.addresses ensures SameDecisions(l, l', b) {
      IntroductionLeavesOthers(l, a, ch, claim, who, b);
    }
  }

  lemma OthersKeptChain(l: Ledgers, l': Ledgers, l'': Ledgers)
    requires OthersKept(l, l') && OthersKept(l', l'')
    ensures OthersKept(l, l'')
  {
    hide SameDecisions;
    forall b | b in l.addresses ensures SameDecisions(l, l'', b) { SameDecisionsChain(l, l', l'', b); }
  }

  lemma NewEligibleGrows(
    dir: Directory, scope: set<string>, ps: seq<Prepared>, n: nat, produced: map<Dest, Holder>, made: Holder,
    l: Ledgers, l': Ledgers)
    requires n < |ps| && IsNew(dir, scope, ps, n) && NewEligible(dir, scope, ps, n, produced, l)
    requires IdsKnown(produced, l) && OthersKept(l, l')
    requires EligibleAsClaimed(l', made.addressId, ps[n].dest.channel, ps[n].claim)
    ensures NewEligible(dir, scope, ps, n + 1, produced[ps[n].dest := made], l')
  {
    hide EligibleAsClaimed, SameDecisions, IsNew;
    var produced' := produced[ps[n].dest := made];
    forall i | 0 <= i < n + 1 && IsNew(dir, scope, ps, i) && ps[i].dest in produced'
      ensures EligibleAsClaimed(l', produced'[ps[i].dest].addressId, ps[i].dest.channel, ps[i].claim)
    {
      if i < n {
        NewIsFirst(dir, scope, ps, i, n);
        ClaimSurvives(l, l', produced[ps[i].dest].addressId, ps[i].dest.channel, ps[i].claim);
      }
    }
  }

  lemma LedgerStep(
    dir: Directory, scope: set<string>, ps: seq<Prepared>, n: nat, s: Progress, row: Row, s': Progress, ctx: Context)
    requires AllSound(ps) && n < |ps| && IsNew(dir, scope, ps, n) && MayDecide(ctx.who)
    requires DirectoryOk(s.dir) && MintsFresh(s.dir, ctx.mint) && LedgerInv(dir, scope, ps, n, s)
    requires row.dest == ps[n].dest && row.claim == ps[n].claim
    requires s'.dir == Materialized(s.dir, row, ctx)
    requires s'.produced == s.produced[row.dest := Holder(ctx.mint(s.dir.next), ctx.mint(s.dir.next + 1))]
    ensures LedgerInv(dir, scope, ps, n + 1, s')
  {
    hide IsNew, Known, Complete, Normalize, EligibleAsClaimed, OthersKept, NewEligible, PerformAll, Introduction;
    var l, made, l' := s.dir.ledgers, Holder(ctx.mint(s.dir.next), ctx.mint(s.dir.next + 1)), s'.dir.ledgers;
    assert Sound(ps[n]);
    Introduced(l, made.addressId, row.dest.channel, row.claim, ctx.who, l');
    OthersKeptChain(dir.ledgers, l, l');
    NewEligibleGrows(dir, scope, ps, n, s.produced, made, l, l');
  }

  lemma NewIsFirst(dir: Directory, scope: set<string>, ps: seq<Prepared>, i: nat, n: nat)
    requires i < n < |ps| && IsNew(dir, scope, ps, n)
    ensures ps[i].dest != ps[n].dest
  {
  }

  // ----- the whole batch ---------------------------------------------------

  /** What holds after the first `n` rows. */
  ghost predicate Kept(dir: Directory, scope: set<string>, ps: seq<Prepared>, n: nat, s: Progress, ctx: Context)
    requires n <= |ps|
  {
    Inv(dir, scope, ps, n, s, ctx) && LedgerInv(dir, scope, ps, n, s)
  }

  lemma StepKeeps(
    dir: Directory, scope: set<string>, ps: seq<Prepared>, n: nat, s: Progress, row: Row, s': Progress, ctx: Context)
    requires AllSound(ps) && MayDecide(ctx.who) && n < |ps| && Kept(dir, scope, ps, n, s, ctx)
    requires row == StagedRow(dir, scope, ps, n) && s' == ApplyRow(s, row, ctx) && !s'.failed
    ensures Kept(dir, scope, ps, n + 1, s', ctx)
  {
    hide Inv, LedgerInv, StagedRow, ApplyRow, IsNew, DirectoryOk, MintsFresh, Materialized, AllSound;
    if IsNew(dir, scope, ps, n) {
      NewStepMakes(dir, scope, ps, n, s, row, s', ctx);
      NewStep(dir, scope, ps, n, s, row, s', ctx);
      InvFacts(dir, scope, ps, n, s, ctx);
      LedgerStep(dir, scope, ps, n, s, row, s', ctx);
    } else {
      LinkOrDeferStep(dir, scope, ps, n, s, ctx);
      LedgerUnmoved(dir, scope, ps, n, s, s');
    }
  }

  /** `apply` over a prefix of the staged rows takes one row at a time. */
  lemma ApplyUnfolds(dir: Directory, scope: set<string>, ps: seq<Prepared>, n: nat, ctx: Context)
    requires n < |ps|
    ensures ApplyRows(dir, StagedRows(dir, scope, ps)[..0], ctx) == Start(dir)
    ensures var rows := StagedRows(dir, scope, ps);
            ApplyRows(dir, rows[..n + 1], ctx) ==
            ApplyRow(ApplyRows(dir, rows[..n], ctx), StagedRow(dir, scope, ps, n), ctx)
  {
    hide StagedRow, ApplyRow;
    var rows := StagedRows(dir, scope, ps);
    assert rows[..n + 1][..n] == rows[..n];
  }

  lemma FailureSticks(s: Progress, row: Row, ctx: Context)
    ensures s.failed ==> ApplyRow(s, row, ctx).failed
  {
  }

  lemma {:induction false} ApplyKeepsInv(dir: Directory, scope: set<string>, ps: seq<Prepared>, n: nat, ctx: Context)
    requires DirectoryOk(dir) && AllSound(ps) && MintsFresh(dir, ctx.mint) && MayDecide(ctx.who) && n <= |ps|
    requires !ApplyRows(dir, StagedRows(dir, scope, ps)[..n], ctx).failed
    ensures Kept(dir, scope, ps, n, ApplyRows(dir, StagedRows(dir, scope, ps)[..n], ctx), ctx)
  {
    hide StagedRow, ApplyRow, DirectoryOk, MintsFresh, AllSound, Inv, LedgerInv;
    if n == 0 {
      StartOk(dir, scope, ps, ctx);
      assert StagedRows(dir, scope, ps)[..0] == [];
    } else {
      hide *;
      ApplyUnfolds(dir, scope, ps, n - 1, ctx);
      FailureSticks(ApplyRows(dir, StagedRows(dir, scope, ps)[..n - 1], ctx), StagedRow(dir, scope, ps, n - 1), ctx);
      ApplyKeepsInv(dir, scope, ps, n - 1, ctx);
      var s := ApplyRows(dir, StagedRows(dir, scope, ps)[..n - 1], ctx);
      var row := StagedRow(dir, scope, ps, n - 1);
      StepKeeps(dir, scope, ps, n - 1, s, row, ApplyRow(s, row, ctx), ctx);
    }
  }

  lemma LedgerUnmoved(dir: Directory, scope: set<string>, ps: seq<Prepared>, n: nat, s: Progress, s': Progress)
    requires n < |ps| && LedgerInv(dir, scope, ps, n, s) && !IsNew(dir, scope, ps, n)
    requires s'.dir == s.dir && s'.produced == s.produced
    ensures LedgerInv(dir, scope, ps, n + 1, s')
  {
    hide EligibleAsClaimed, OthersKept, IsNew;
  }

  lemma StartOk(dir: Directory, scope: set<string>, ps: seq<Prepared>, ctx: Context)
    requires DirectoryOk(dir) && MintsFresh(dir, ctx.mint)
    ensures Inv(dir, scope, ps, 0, Start(dir), ctx) && LedgerInv(dir, scope, ps, 0, Start(dir))
  {
    assert StagedRows(dir, scope, ps)[..0] == [];
    assert dir.addresses + map[] == dir.addresses;
  }

  lemma AllApplied(dir: Directory, scope: set<string>, ps: seq<Prepared>, ctx: Context, s: Progress)
    requires DirectoryOk(dir) && AllSound(ps) && MintsFresh(dir, ctx.mint) && MayDecide(ctx.who)
    requires s == ApplyRows(dir, StagedRows(dir, scope, ps), ctx) && !s.failed
    ensures Kept(dir, scope, ps, |ps|, s, ctx)
  {
    hide *;
    WholeFile(dir, scope, ps);
    ApplyKeepsInv(dir, scope, ps, |ps|, ctx);
  }

  lemma WholeFile(dir: Directory, scope: set<string>, ps: seq<Prepared>)
    ensures StagedRows(dir, scope, ps)[..|ps|] == StagedRows(dir, scope, ps)
  {
    hide StagedRow;
  }

  lemma KeptFigures(dir: Directory, scope: set<string>, ps: seq<Prepared>, s: Progress, ctx: Context)
    requires Kept(dir, scope, ps, |ps|, s, ctx)
    ensures var rows := StagedRows(dir, scope, ps);
            s.created == Count(rows, New) && s.linked == Count(rows, Duplicate) &&
            s.deferred == Count(rows, Collision) && |s.out| == |ps| && |s.dir.contacts| == |dir.contacts| + s.created
    ensures forall i :: 0 <= i < |ps| ==> SettledRow(dir, scope, ps, i, s)
    ensures ContactsGrown(dir.contacts, s.produced, s.dir.contacts)
  {
    hide StagedRow, SettledRow, Count, ProducedNew, LedgerInv;
    WholeFile(dir, scope, ps);
  }

  lemma NewContactsDiffer(dir: Directory, scope: set<string>, ps: seq<Prepared>, i: nat, j: nat, s: Progress)
    requires i < j < |ps| && |s.out| == |ps| && IsNew(dir, scope, ps, i) && IsNew(dir, scope, ps, j)
    requires SettledRow(dir, scope, ps, i, s) && SettledRow(dir, scope, ps, j, s)
    requires ContactsGrown(dir.contacts, s.produced, s.dir.contacts)
    ensures s.out[i].contact != s.out[j].contact
  {
    NewIsFirst(dir, scope, ps, i, j);
  }

  /**
   * A staged batch applied to the unchanged directory, if it runs to the
   * end: the figures are the ones staging announced, one contact per distinct new
   * destination, and each repeat of a new row on the contact its first
   * occurrence created.
   */
  lemma {:induction false} ApplyReplaysStaging(
    dir: Directory, scope: set<string>, ps: seq<Prepared>, ctx: Context, rows: seq<Row>, s: Progress)
    requires DirectoryOk(dir) && AllSound(ps) && MintsFresh(dir, ctx.mint) && MayDecide(ctx.who)
    requires rows == StagedRows(dir, scope, ps) && s == ApplyRows(dir, rows, ctx) && !s.failed
    ensures s.created == Count(rows, New) && s.linked == Count(rows, Duplicate) &&
            s.deferred == Count(rows, Collision) && |s.out| == |ps| && |s.dir.contacts| == |dir.contacts| + s.created
    ensures forall i :: 0 <= i < |ps| ==> SettledRow(dir, scope, ps, i, s)
    ensures forall i: nat, j: nat :: i < j && IsNew(dir, scope, ps, i) && IsNew(dir, scope, ps, j) ==>
              s.out[i].contact != s.out[j].contact
    ensures forall i :: 0 <= i < |ps| && IsNew(dir, scope, ps, First(ps, i)) ==>
              s.out[i].state == Applied && s.out[i].contact == s.out[First(ps, i)].contact
  {
    AllApplied(dir, scope, ps, ctx, s);
    KeptFigures(dir, scope, ps, s, ctx);
    hide ApplyRows, StagedRows, Count, Kept, SettledRow, KindOf, ContactsGrown, DirectoryOk, AllSound, MintsFresh;
    forall i: nat, j: nat | i < j && IsNew(dir, scope, ps, i) && IsNew(dir, scope, ps, j)
      ensures s.out[i].contact != s.out[j].contact
    {
      NewContactsDiffer(dir, scope, ps, i, j, s);
    }
    forall i | 0 <= i < |ps| && IsNew(dir, scope, ps, First(ps, i))
      ensures s.out[i].state == Applied && s.out[i].contact == s.out[First(ps, i)].contact
    {
      RepeatOfNew(dir, scope, ps, i, s);
    }
  }

  /**
   * Which rows a finished apply leaves waiting: exactly the first occurrences of
   * a destination held outside the target.  A repeat never waits; a repeat of a
   * waiting collision is linked to whoever holds the destination.
   */
  lemma {:induction false} WaitingRowsExactly(
    dir: Directory, scope: set<string>, ps: seq<Prepared>, ctx: Context, s: Progress, i: nat)
    requires DirectoryOk(dir) && AllSound(ps) && MintsFresh(dir, ctx.mint) && MayDecide(ctx.who) && i < |ps|
    requires s == ApplyRows(dir, StagedRows(dir, scope, ps), ctx) && !s.failed
    ensures var found := Lookup(dir, ps[i].dest);
            |s.out| == |ps| && (found.Some? ==> found.value in dir.contacts) &&
            (s.out[i].state == Staged <==> First(ps, i) == i && found.Some? && dir.contacts[found.value] !in scope) &&
            (s.out[i].state != Staged ==> s.out[i].state == Applied && s.out[i].contact.Some?) &&
            (First(ps, i) < i && KindOf(dir, scope, ps, First(ps, i)).Collision? ==>
              s.out[i].state == Applied && found.Some? && s.out[i].contact == found)
  {
    AllApplied(dir, scope, ps, ctx, s);
    KeptFigures(dir, scope, ps, s, ctx);
    hide *;
    SettledMeans(dir, scope, ps, i, s);
  }

  lemma SettledMeans(dir: Directory, scope: set<string>, ps: seq<Prepared>, i: nat, s: Progress)
    requires i < |ps| && |s.out| == |ps| && SettledRow(dir, scope, ps, i, s)
    ensures var found := Lookup(dir, ps[i].dest);
            (found.Some? ==> found.value in dir.contacts) &&
            (s.out[i].state == Staged <==> First(ps, i) == i && found.Some? && dir.contacts[found.value] !in scope) &&
            (s.out[i].state != Staged ==> s.out[i].state == Applied && s.out[i].contact.Some?) &&
            (First(ps, i) < i && KindOf(dir, scope, ps, First(ps, i)).Collision? ==>
              s.out[i].state == Applied && found.Some? && s.out[i].contact == found)
  {
    hide Key;
  }

  lemma RepeatOfNew(dir: Directory, scope: set<string>, ps: seq<Prepared>, i: nat, s: Progress)
    requires i < |ps| && |s.out| == |ps| && IsNew(dir, scope, ps, First(ps, i))
    requires SettledRow(dir, scope, ps, i, s) && SettledRow(dir, scope, ps, First(ps, i), s)
    ensures s.out[i].state == Applied && s.out[i].contact == s.out[First(ps, i)].contact
  {
  }

  /**
   * Right after that apply, each new address is eligible for exactly the
   * purposes its row proved, and nobody else's eligibility has moved.
   */
  lemma {:induction false} ImportedEligibility(dir: Directory, scope: set<string>, ps: seq<Prepared>, ctx: Context, s: Progress)
    requires DirectoryOk(dir) && AllSound(ps) && MintsFresh(dir, ctx.mint) && MayDecide(ctx.who)
    requires s == ApplyRows(dir, StagedRows(dir, scope, ps), ctx) && !s.failed
    ensures forall i: nat :: IsNew(dir, scope, ps, i) ==>
              i < |s.out| && s.out[i].addressId.Some? &&
              EligibleAsClaimed(s.dir.ledgers, s.out[i].addressId.value, ps[i].dest.channel, ps[i].claim)
    ensures forall b :: b in dir.ledgers.addresses ==> SameDecisions(dir.ledgers, s.dir.ledgers, b)
  {
    AllApplied(dir, scope, ps, ctx, s);
    KeptFigures(dir, scope, ps, s, ctx);
    hide ApplyRows, StagedRows, Count, EligibleAsClaimed, SameDecisions, Inv, SettledRow, KindOf, ContactsGrown;
    hide DirectoryOk, AllSound, MintsFresh;
    forall i: nat | IsNew(dir, scope, ps, i)
      ensures i < |s.out| && s.out[i].addressId.Some? &&
              EligibleAsClaimed(s.dir.ledgers, s.out[i].addressId.value, ps[i].dest.channel, ps[i].claim)
    {
      SettledNew(dir, scope, ps, i, s);
    }
  }

  lemma SettledNew(dir: Directory, scope: set<string>, ps: seq<Prepared>, i: nat, s: Progress)
    requires i < |ps| && |s.out| == |ps| && IsNew(dir, scope, ps, i) && SettledRow(dir, scope, ps, i, s)
    ensures ps[i].dest in s.produced && s.out[i].addressId == Some(s.produced[ps[i].dest].addressId)
  {
  }
}
