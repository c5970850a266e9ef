/**
 * The review queue: an agent's proposal is inert until an authorized human
 * approves it, and an approval settles exactly what it names.
 */
module ProposalSpecs {
  import opened Prelude
  import opened ConsentLedgers
  import opened ConsentRuns
  import opened PhoneAddresses
  import opened ContactImport
  import opened ImportLedgers
  import opened ImportProofs

  // ----- approving ---------------------------------------------------------

  datatype Approval =
    | Approved | NotAuthorized | NoSuchProposal | Incomplete | EvidenceAbsent | Unnamed | EvidenceLacking(missing: seq<Field>)

  /** The proposal claims consent for some purpose and nobody has settled it. */
  predicate Pending(l: Ledgers, a: string, ch: Channel, p: Purpose, now: int) {
    ConsentReading(l, a, ch, p, now) == PendingEvidence
  }

  ghost predicate AnyPending(l: Ledgers, a: string, ch: Channel, now: int) { exists p :: Pending(l, a, ch, p, now) }

  /** How an approval is answered, checks in the order they are made. */
  ghost function Answer(l: Ledgers, a: string, who: Decider, evidence: Option<Evidence>, purposes: seq<Purpose>): Approval {
    if !MayGrant(who.actor) then NotAuthorized
    else if a !in l.addresses then NoSuchProposal
    else if purposes == [] && AnyPending(l, a, l.addresses[a], who.now) then Incomplete
    else if purposes != [] && evidence.None? then EvidenceAbsent
    else if !Named(who.actor) then Unnamed
    else if purposes != [] && !Complete(evidence.value) then EvidenceLacking(MissingFields(evidence.value))
    else Approved
  }

  /** What it writes: activation first, so evidence found lacking leaves an active address that gained no consent. */
  function ApprovalWrites(answer: Approval, a: string, who: Decider, evidence: Option<Evidence>, purposes: seq<Purpose>)
    : seq<Write>
  {
    match answer
    case Approved =>
      [Activate(a, who.actor, who.now)] + (if purposes != [] && evidence.Some? then Grants(purposes, a, evidence.value, who) else [])
    case EvidenceLacking(_) => [Activate(a, who.actor, who.now)]
    case _ => []
  }

  /** The refusals in order, and when there is none. */
  lemma AnswerMeans(l: Ledgers, a: string, who: Decider, evidence: Option<Evidence>, purposes: seq<Purpose>)
    ensures var answer := Answer(l, a, who, evidence, purposes);
            var human := who.actor.kind == Human && (ManageContacts in who.actor.authorities || Administer in who.actor.authorities);
            if !human then answer == NotAuthorized
            else if a !in l.addresses then answer == NoSuchProposal
            else if |purposes| == 0 && exists p :: ConsentReading(l, a, l.addresses[a], p, who.now) == PendingEvidence
            then answer == Incomplete
            else if |purposes| > 0 && evidence.None? then answer == EvidenceAbsent
            else if who.actor.principal.None? then answer == Unnamed
            else if |purposes| > 0 && |MissingFields(evidence.value)| > 0
            then answer == EvidenceLacking(MissingFields(evidence.value))
            else answer == Approved
  {
    hide ConsentReading, MissingFields;
    if a in l.addresses {
      assert AnyPending(l, a, l.addresses[a], who.now) <==>
             exists p :: ConsentReading(l, a, l.addresses[a], p, who.now) == PendingEvidence by {
        PendingMeans(l, a, l.addresses[a], who.now);
      }
    }
    hide AnyPending;
  }

  lemma PendingMeans(l: Ledgers, a: string, ch: Channel, now: int)
    ensures AnyPending(l, a, ch, now) <==> exists p :: ConsentReading(l, a, ch, p, now) == PendingEvidence
  {
    hide ConsentReading;
    if AnyPending(l, a, ch, now) { var p :| Pending(l, a, ch, p, now); }
    if p :| ConsentReading(l, a, ch, p, now) == PendingEvidence { assert Pending(l, a, ch, p, now); }
  }

  predicate UsabilityNoneLater(l: Ledgers, a: string, t: int) {
    forall i :: 0 <= i < |l.usability| && l.usability[i].row.address == a ==> l.usability[i].at <= t
  }

  lemma OneWrite(l: Ledgers, w: Write)
    ensures PerformAll(l, [w]) == Perform(l, w)
  {
    assert [w][..0] == [];
    assert PerformAll(l, []) == l;
  }

  /** Activation appends one usability row and nothing else. */
  lemma ActivationRow(l: Ledgers, a: string, who: Decider)
    requires a in l.addresses && MayDecide(who)
    ensures var l' := Perform(l, Activate(a, who.actor, who.now));
            l' == l.(usability := l'.usability) && l'.usability == l.usability +
              [Entry(who.now, UsabilityRow(a, Active, None, who.actor.principal, Some(GrantingAuthority(who.actor))))]
  {
    assert l.consent + [] == l.consent && l.suppression + [] == l.suppression && l.reach + [] == l.reach;
  }

  lemma NewestUsability(l: Ledgers, l': Ledgers, a: string, e: Entry<UsabilityRow>)
    requires l'.usability == l.usability + [e] && e.row.address == a && UsabilityNoneLater(l, a, e.at)
    ensures UsabilityReading(l', a) == e.row.state
  {
    assert l'.usability[..|l.usability|] == l.usability;
  }

  /** The ledgers after an accepted approval. */
  lemma ApprovalRows(
    l: Ledgers, a: string, ch: Channel, who: Decider, evidence: Option<Evidence>, purposes: seq<Purpose>, l': Ledgers)
    requires Answer(l, a, who, evidence, purposes).Approved? && ch == l.addresses[a]
    requires l' == PerformAll(l, ApprovalWrites(Approved, a, who, evidence, purposes))
    ensures l'.suppression == l.suppression && l'.reach == l.reach && l'.usability == l.usability +
              [Entry(who.now, UsabilityRow(a, Active, None, who.actor.principal, Some(GrantingAuthority(who.actor))))]
    ensures l'.consent == l.consent +
              (if purposes == [] then [] else GrantRows(purposes, a, ch, evidence.value, who))
  {
    hide Complete, AnyPending, GrantRow, GrantRows, Perform, PerformAll;
    var w := Activate(a, who.actor, who.now);
    var m := Perform(l, w);
    ActivationRow(l, a, who);
    OneWrite(l, w);
    if purposes == [] {
      assert l.consent + [] == l.consent;
      assert ApprovalWrites(Approved, a, who, evidence, purposes) == [w];
    } else {
      RunsCompose(l, [w], Grants(purposes, a, evidence.value, who));
      GrantsAppend(m, purposes, a, evidence.value, who);
    }
  }

  /**
   * After an approval dated no earlier than the rows on file, the address may be
   * contacted for a purpose exactly when nothing restricts it and the purpose
   * was named, while its evidence lives, or was granted already.
   */
  lemma ApprovedEligibility(
    l: Ledgers, a: string, who: Decider, evidence: Option<Evidence>, purposes: seq<Purpose>,
    p: Purpose, sender: Option<string>, t: int)
    requires Answer(l, a, who, evidence, purposes).Approved?
    requires NoneLater(l, a, l.addresses[a], p, who.now) && UsabilityNoneLater(l, a, who.now)
    ensures var ch := l.addresses[a];
            var l' := PerformAll(l, ApprovalWrites(Approved, a, who, evidence, purposes));
            Decision(l', a, ch, p, sender, t) == IsEligible <==>
              SuppressionReading(l, a, ch, sender) == Unsuppressed && ReachReading(l, a, ch, sender) == Reachable &&
              if p in purposes then LiveAt(Some(Claim(purposes, evidence.value)), p, t)
              else ConsentReading(l, a, ch, p, t) == Granted
  {
    hide UsabilityReading, ConsentReading, NoneLater, UsabilityNoneLater, PerformAll, ApprovalWrites, Complete, GrantRows, Latest;
    hide AnyPending, LiveAt;
    var ch := l.addresses[a];
    var l' := PerformAll(l, ApprovalWrites(Approved, a, who, evidence, purposes));
    ApprovalRows(l, a, ch, who, evidence, purposes, l');
    NewestUsability(l, l', a, l'.usability[|l.usability|]);
    if purposes != [] {
      GrantedReading(l, l', a, ch, Claim(purposes, evidence.value), who, p, t);
    } else {
      assert l.consent + [] == l.consent;
      SameConsent(l, l', a, ch, p, t);
    }
  }

  lemma SameConsent(l: Ledgers, l': Ledgers, a: string, ch: Channel, p: Purpose, t: int)
    requires l'.consent == l.consent
    ensures ConsentReading(l', a, ch, p, t) == ConsentReading(l, a, ch, p, t)
  {
  }

  /** Anything short of an approval leaves every consent reading as it was. */
  lemma RefusalGrantsNothing(
    l: Ledgers, a: string, who: Decider, evidence: Option<Evidence>, purposes: seq<Purpose>, b: string, ch: Channel, p: Purpose, t: int)
    requires !Answer(l, a, who, evidence, purposes).Approved?
    ensures var l' := PerformAll(l, ApprovalWrites(Answer(l, a, who, evidence, purposes), a, who, evidence, purposes));
            ConsentReading(l', b, ch, p, t) == ConsentReading(l, b, ch, p, t)
  {
    hide Perform, ConsentReading, AnyPending, Complete;
    if Answer(l, a, who, evidence, purposes).EvidenceLacking? {
      var w := Activate(a, who.actor, who.now);
      OneWrite(l, w);
      ActivationRow(l, a, who);
      SameConsent(l, Perform(l, w), b, ch, p, t);
    }
  }

  // ----- proposing ---------------------------------------------------------

  datatype Proposal =
    | CaptureNotFound | ChannelMismatch
    | AlreadyKnown(proposal: string, contact: string, state: Usability)
    | Raised(proposal: string, contact: string)

  /** A destination already on file answers for itself; otherwise a person is created and left proposed. */
  function Propose(dir: Directory, dest: Dest, ctx: Context): (Directory, Proposal) {
    if Lookup(dir, dest).Some? then
      var holder := dir.addresses[Key(dest)];
      (dir, AlreadyKnown(holder.addressId, holder.contact, UsabilityReading(dir.ledgers, holder.addressId)))
    else
      (Introduce(dir, dest, None, None, ctx), Raised(ctx.mint(dir.next + 1), ctx.mint(dir.next)))
  }

  /** A proposal, by anyone, changes nobody's eligibility for anything: not even its own address's. */
  lemma ProposingChangesNoDecision(dir: Directory, dest: Dest, ctx: Context, b: string)
    requires DirectoryOk(dir) && MintsFresh(dir, ctx.mint)
    ensures SameDecisions(dir.ledgers, Propose(dir, dest, ctx).0.ledgers, b)
  {
    hide Decision, PerformAll, Introduction, Known, Normalize;
    if Lookup(dir, dest).None? {
      var l, a := dir.ledgers, ctx.mint(dir.next + 1);
      var l' := PerformAll(l, Introduction(a, dest.channel, None, ctx.who));
      if b == a {
        IntroductionRows(l, a, dest.channel, None, ctx.who);
        SoleUsabilityRow(l, l', a);
        NoUsabilityYet(l, a);
        BothUnusable(l, l', a);
      } else {
        IntroductionLeavesOthers(l, a, dest.channel, None, ctx.who, b);
      }
    }
  }

  lemma NoUsabilityYet(l: Ledgers, a: string)
    requires Known(l) && a !in l.addresses
    ensures UsabilityReading(l, a) == Proposed
  {
    LatestIsNewest(l.usability, UsabilityKept(a));
    hide Latest;
  }

  lemma BothUnusable(l: Ledgers, l': Ledgers, a: string)
    requires UsabilityReading(l, a) == Proposed && UsabilityReading(l', a) == Proposed
    ensures SameDecisions(l, l', a)
  {
    hide UsabilityReading, SuppressionReading, ReachReading, ConsentReading;
  }

  /** A raised proposal is a new person in the named branch, reachable at an address that is only proposed. */
  lemma ProposalIsOnFile(dir: Directory, dest: Dest, ctx: Context)
    requires DirectoryOk(dir) && MintsFresh(dir, ctx.mint) && Key(dest).address != "" && Key(dest) !in dir.addresses
    ensures var (after, reply) := Propose(dir, dest, ctx);
            reply.Raised? && reply.contact !in dir.contacts && after.contacts == dir.contacts[reply.contact := ctx.branch] &&
            Lookup(after, dest) == Some(reply.contact) &&
            after.addresses == dir.addresses[Key(dest) := Holder(reply.contact, reply.proposal)] &&
            reply.proposal !in dir.ledgers.addresses &&
            after.ledgers.addresses == dir.ledgers.addresses[reply.proposal := dest.channel] &&
            UsabilityReading(after.ledgers, reply.proposal) == Proposed
  {
    hide PerformAll, Introduction, Known, Key, UsabilityReading;
    var l, a := dir.ledgers, ctx.mint(dir.next + 1);
    IntroductionRows(l, a, dest.channel, None, ctx.who);
    SoleUsabilityRow(l, PerformAll(l, Introduction(a, dest.channel, None, ctx.who)), a);
  }

  /** The same destination proposed again, in any spelling, is answered with the first proposal and writes nothing. */
  lemma ProposingTwice(dir: Directory, dest: Dest, again: Dest, ctx: Context, later: Context)
    requires Key(again) == Key(dest) && Key(dest).address != ""
    ensures var (dir', first) := Propose(dir, dest, ctx);
            var (dir'', second) := Propose(dir', again, later);
            dir'' == dir' && second.AlreadyKnown? && second.proposal == first.proposal && second.contact == first.contact
  {
  }

  /** A rejection dated no earlier than the rows on file takes the address out of service for every purpose. */
  lemma RejectionRetires(l: Ledgers, a: string, actor: Actor, now: int, p: Purpose, sender: Option<string>, t: int)
    requires a in l.addresses && UsabilityNoneLater(l, a, now)
    ensures Decision(Perform(l, Retire(a, Some(actor), now)), a, l.addresses[a], p, sender, t) == AddressRetired
  {
    hide SuppressionReading, ReachReading, ConsentReading, UsabilityReading, UsabilityNoneLater;
    NewestUsability(l, Perform(l, Retire(a, Some(actor), now)), a, Entry(now, UsabilityRow(a, Retired, None, actor.principal, None)));
  }
}
