/** The capture book and the review queue, writing directory and ledger rows step by step. */
module ContactProposals {
  import opened Prelude
  import opened ConsentLedgers
  import opened ConsentRuns
  import opened ConsentRepository
  import opened PhoneAddresses
  import opened ContactImport
  import opened ImportLedgers
  import opened ImportProofs
  import opened ProposalSpecs

  datatype Captured = Captured(channel: Channel, address: string, normalized: string)

  /** Typed destinations by tenant and reference, so that a proposal can name one without spelling it. */
  class AddressCaptureBook {
    var store: map<(string, string), Captured>

    /** What is kept is never empty and looks up exactly as the typed text would. */
    ghost predicate Valid()
      reads this
    {
      forall k :: k in store ==>
        store[k].normalized != "" && Normalize(store[k].channel, store[k].address) == store[k].normalized
    }

    constructor ()
      ensures Valid() && store == map[]
    {
      store := map[];
    }

    /** `reference` is freshly generated by the server. */
    method Capture(tenant: string, channel: Channel, text: string, reference: string) returns (ok: bool)
      requires Valid() && (tenant, reference) !in store
      modifies this
      ensures Valid() && ok == (Normalize(channel, text) != "")
      ensures store == if ok then old(store)[(tenant, reference) := Captured(channel, Strip(text), Normalize(channel, text))]
                       else old(store)
    {
      var normalized := Normalize(channel, text);
      if normalized == "" { return false; }
      NormalizeStrips(channel, text);
      store := store[(tenant, reference) := Captured(channel, Strip(text), normalized)];
      return true;
    }

    /** What comes back can be looked up, under exactly the key it was captured with; anything else is one and the same no. */
    method Redeem(tenant: string, reference: string) returns (captured: Option<Captured>)
      requires Valid()
      ensures captured.Some? <==> (tenant, reference) in store
      ensures captured.Some? ==>
                captured.value == store[(tenant, reference)] && captured.value.normalized != "" &&
                Key(Dest(captured.value.channel, captured.value.address)).address == captured.value.normalized
    {
      if (tenant, reference) !in store { return None; }
      return Some(store[(tenant, reference)]);
    }
  }

  /** The directory together with the queue of addresses that wait to be approved. */
  class ProposalQueue {
    const consent: ContactsConsentRepository
    const captures: AddressCaptureBook
    const mint: nat -> string
    var contacts: map<string, string>
    var addresses: map<Dest, Holder>
    var references: set<string>
    var next: nat

    ghost function Dir(): Directory
      reads this, consent
    {
      Directory(contacts, addresses, consent.State(), next, references)
    }

    ghost predicate Valid()
      reads this, consent, captures
    {
      captures.Valid() && DirectoryOk(Dir()) && MintsFresh(Dir(), mint)
    }

    constructor (consent: ContactsConsentRepository, captures: AddressCaptureBook, mint: nat -> string)
      requires captures.Valid() && consent.State() == EMPTY && forall m, n :: mint(m) == mint(n) ==> m == n
      ensures Valid() && Dir() == Directory(map[], map[], EMPTY, 0, {})
      ensures this.consent == consent && this.captures == captures && this.mint == mint
    {
      this.consent, this.captures, this.mint := consent, captures, mint;
      contacts, addresses, references, next := map[], map[], {}, 0;
    }

    /** The decision as filed: by this actor, at this time, under the deployment's revocation scope. */
    function Who(actor: Actor, now: int): (who: Decider)
      ensures who.actor == actor && who.now == now && who.configured == consent.configured
    {
      Decider(actor, now, consent.configured)
    }

    /** Refuses a reference that an imported contact already carries. */
    method CreateContact(branch: string, reference: Option<string>) returns (created: Option<string>)
      modifies this`contacts, this`references, this`next
      ensures if ReferenceFree(old(Dir()), reference) then
                created == Some(mint(old(next))) && next == old(next) + 1 &&
                contacts == old(contacts)[created.value := branch] && references == Filed(old(references), reference)
              else created.None? && next == old(next) && contacts == old(contacts) && references == old(references)
    {
      if reference.Some? {
        if reference.value in references { return None; }
        references := references + {reference.value};
      }
      var contact := mint(next);
      contacts := contacts[contact := branch];
      next := next + 1;
      return Some(contact);
    }

    /** Refuses an empty address, and one the unique index already holds. */
    method AddAddress(contact: string, channel: Channel, address: string) returns (added: Option<string>)
      requires mint(next) !in consent.addresses
      modifies this`addresses, this`next, consent
      ensures var key := Key(Dest(channel, address));
              if key.address != "" && key !in old(addresses) then
                added == Some(mint(old(next))) && next == old(next) + 1 &&
                addresses == old(addresses)[key := Holder(contact, added.value)] &&
                consent.State() == Perform(old(consent.State()), Write.AddAddress(added.value, channel))
              else added.None? && next == old(next) && addresses == old(addresses) && consent.State() == old(consent.State())
    {
      var key := Dest(channel, Normalize(channel, address));
      if key.address == "" || key in addresses { return None; }
      var a := mint(next);
      var _ := consent.AddAddress(a, channel);
      addresses := addresses[key := Holder(contact, a)];
      next := next + 1;
      return Some(a);
    }

    /** One key, one contact: every spelling of the destination reaches the same person on file, or nobody. */
    method ContactByAddress(dest: Dest) returns (found: Option<string>)
      requires Valid()
      ensures found.Some? <==> Key(dest).address != "" && Key(dest) in addresses
      ensures found.Some? ==> found.value in contacts
      ensures forall other :: Key(other) == Key(dest) ==> Lookup(Dir(), other) == found
    {
      var normalized := Normalize(dest.channel, dest.address);
      if normalized == "" { return None; }
      var key := Dest(dest.channel, normalized);
      if key !in addresses || addresses[key].contact !in contacts { return None; }
      return Some(addresses[key].contact);
    }

    /** Purposes the address claims consent for, still waiting for evidence. */
    method PendingConsent(a: string, channel: Channel, now: int) returns (claimed: seq<Purpose>)
      ensures forall p :: p in claimed <==> Pending(consent.State(), a, channel, p, now)
    {
      hide Latest, ReadsNewest;
      claimed := [];
      var i := 0;
      while i < |PURPOSES|
        invariant 0 <= i <= |PURPOSES|
        invariant forall p :: p in claimed <==> p in PURPOSES[..i] && Pending(consent.State(), a, channel, p, now)
      {
        var reading := consent.ConsentState(a, channel, PURPOSES[i], now);
        LatestReads(
          consent.consent, ConsentKept(a, channel, PURPOSES[i]), (r: ConsentRow) => ConsentAt(r, now), Unknown, reading);
        assert reading == ConsentReading(consent.State(), a, channel, PURPOSES[i], now);
        if reading.PendingEvidence? { claimed := claimed + [PURPOSES[i]]; }
        assert PURPOSES[..i + 1] == PURPOSES[..i] + [PURPOSES[i]];
        i := i + 1;
      }
      assert PURPOSES[..i] == PURPOSES;
      AllPurposes();
    }

    /** Activates, then grants purpose by purpose; both halves in one call. */
    method Approve(a: string, actor: Actor, evidence: Option<Evidence>, purposes: seq<Purpose>, now: int)
      returns (answer: Approval)
      modifies consent
      ensures answer == Answer(old(consent.State()), a, Who(actor, now), evidence, purposes)
      ensures consent.State() ==
              PerformAll(old(consent.State()), ApprovalWrites(answer, a, Who(actor, now), evidence, purposes))
    {
      hide ConsentReading, Perform, Complete, Latest;
      ghost var before, who := consent.State(), Who(actor, now);
      if !actor.kind.Human? || (ManageContacts !in actor.authorities && Administer !in actor.authorities) {
        return NotAuthorized;
      }
      if a !in consent.addresses { return NoSuchProposal; }
      var claimed := PendingConsent(a, consent.addresses[a], now);
      if claimed != [] && purposes == [] {
        assert claimed[0] in claimed;
        return Incomplete;
      }
      if purposes != [] && evidence.None? { return EvidenceAbsent; }
      var refused := consent.ActivateAddress(a, actor, now);
      RefusedWritesNothing(before, Activate(a, actor, now));
      if refused.Some? { return Unnamed; }
      OneWrite(before, Activate(a, actor, now));
      ActivationRow(before, a, who);
      if purposes == [] {
        assert ApprovalWrites(Approved, a, who, evidence, purposes) == [Activate(a, actor, now)];
        return Approved;
      }
      var refusal := GrantEach(a, evidence.value, purposes, actor, now);
      if refusal.Some? { return EvidenceLacking(MissingFields(evidence.value)); }
      RunsCompose(before, [Activate(a, actor, now)], Grants(purposes, a, evidence.value, who));
      return Approved;
    }

    /** One grant per purpose, stopping at the first refusal. */
    method GrantEach(a: string, e: Evidence, purposes: seq<Purpose>, actor: Actor, now: int) returns (refusal: Option<Refusal>)
      requires MayGrant(actor) && Named(actor) && a in consent.addresses && purposes != []
      modifies consent
      ensures refusal.None? <==> Complete(e)
      ensures consent.State() ==
              if Complete(e) then PerformAll(old(consent.State()), Grants(purposes, a, e, Who(actor, now)))
              else old(consent.State())
    {
      hide Complete, MayGrant, Named;
      ghost var before, ws := consent.State(), Grants(purposes, a, e, Who(actor, now));
      assert ws[..0] == [];
      var i := 0;
      while i < |purposes|
        invariant 0 <= i <= |purposes| && (i > 0 ==> Complete(e))
        invariant consent.State() == PerformAll(before, ws[..i]) && a in consent.addresses
      {
        assert ws[..i + 1][..i] == ws[..i];
        refusal := consent.GrantConsent(a, purposes[i], e, actor, None, now);
        if refusal.Some? { return; }
        i := i + 1;
      }
      assert ws[..i] == ws;
      return None;
    }

    /** A destination on file answers for itself; a new one becomes a person whose address is only proposed. */
    method ProposeContact(tenant: string, actor: Actor, branch: string, channel: Channel, reference: string, now: int)
      returns (reply: Proposal)
      requires Valid()
      modifies this, consent
      ensures Valid()
      ensures (tenant, reference) !in captures.store ==> reply.CaptureNotFound? && Dir() == old(Dir())
      ensures (tenant, reference) in captures.store ==>
                var captured := captures.store[(tenant, reference)];
                if channel != captured.channel then reply.ChannelMismatch? && Dir() == old(Dir())
                else (Dir(), reply) == Propose(old(Dir()), Dest(channel, captured.address), Context(Who(actor, now), branch, mint))
    {
      hide UsabilityReading, DirectoryOk, MintsFresh, Normalize, Perform;
      ghost var before, ctx := Dir(), Context(Who(actor, now), branch, mint);
      var redeemed := captures.Redeem(tenant, reference);
      if redeemed.None? { return CaptureNotFound; }
      var captured := redeemed.value;
      if channel != captured.channel { return ChannelMismatch; }
      var key := Dest(channel, Normalize(channel, captured.address));
      if key in addresses && addresses[key].contact in contacts {
        var a := addresses[key].addressId;
        var state := consent.UsabilityState(a);
        ReadingOfUsability(before.ledgers, a, state);
        return AlreadyKnown(addresses[key].addressId, addresses[key].contact, state);
      }
      FreshPair(before, mint);
      var created := CreateContact(branch, None);
      var contact := created.value;
      assert key !in addresses by { if key in before.addresses { OnFile(before, key); } }
      var added := AddAddress(contact, channel, captured.address);
      var _ := consent.ProposeAddress(added.value, actor, now);
      TwoWrites(before.ledgers, Write.AddAddress(added.value, channel), Write.ProposeAddress(added.value, actor, now));
      assert Dir() == Introduce(before, Dest(channel, captured.address), None, None, ctx);
      IntroduceKeepsOk(before, Dest(channel, captured.address), None, None, ctx);
      return Raised(added.value, contact);
    }

    method Reject(a: string, actor: Actor, now: int) returns (refusal: Option<Refusal>)
      modifies consent
      ensures refusal == Objection(old(consent.State()), Retire(a, Some(actor), now))
      ensures consent.State() == Perform(old(consent.State()), Retire(a, Some(actor), now))
    {
      refusal := consent.RetireAddress(a, Some(actor), now);
    }
  }

  lemma ReadingOfUsability(l: Ledgers, a: string, state: Usability)
    requires ReadsNewest(l.usability, UsabilityKept(a), (r: UsabilityRow) => r.state, Proposed, state)
    ensures state == UsabilityReading(l, a)
  {
    hide Latest, ReadsNewest;
    LatestReads(l.usability, UsabilityKept(a), (r: UsabilityRow) => r.state, Proposed, state);
  }

  lemma RefusedWritesNothing(l: Ledgers, w: Write)
    ensures Objection(l, w).Some? ==> Perform(l, w) == l
  {
  }

  lemma FreshPair(dir: Directory, mint: nat -> string)
    requires MintsFresh(dir, mint)
    ensures mint(dir.next) !in dir.contacts && mint(dir.next + 1) !in dir.ledgers.addresses
  {
  }

  /** A key on file reaches a contact on file. */
  lemma OnFile(dir: Directory, key: Dest)
    requires DirectoryOk(dir) && key in dir.addresses
    ensures dir.addresses[key].contact in dir.contacts
  {
  }
}
