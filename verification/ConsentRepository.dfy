/** The consent repository: each method one transaction over the four ledgers. */
module ConsentRepository {
  import opened Prelude
  import opened ConsentLedgers

  /** `_latest`: one pass over the rows, a later or equally dated row replacing the best so far. */
  method Newest<T>(ledger: seq<Entry<T>>, keep: T -> bool) returns (best: Option<nat>)
    ensures best.None? ==> forall i :: 0 <= i < |ledger| ==> !keep(ledger[i].row)
    ensures best.Some? ==> IsNewest(ledger, keep, best.value)
  {
    best := None;
    var i := 0;
    while i < |ledger|
      invariant 0 <= i <= |ledger|
      invariant best.None? ==> forall j :: 0 <= j < i ==> !keep(ledger[j].row)
      invariant best.Some? ==> best.value < i && keep(ledger[best.value].row)
      invariant best.Some? ==>
        forall j :: 0 <= j < i && keep(ledger[j].row) && j != best.value ==> Newer(ledger, best.value, j)
    {
      if keep(ledger[i].row) && (best.None? || ledger[best.value].at <= ledger[i].at) { best := Some(i); }
      i := i + 1;
    }
  }

  /** States read off the rows are the four readings a decision is made of. */
  lemma ReadingsOf(
    l: Ledgers, a: string, ch: Channel, p: Purpose, sender: Option<string>, now: int,
    consent: Consent, suppression: Suppression, usability: Usability, reach: Reach)
    requires ReadsNewest(l.consent, ConsentKept(a, ch, p), (r: ConsentRow) => ConsentAt(r, now), Unknown, consent)
    requires ReadsNewest(l.suppression, SuppressionKept(a, ch, sender), (r: SuppressionRow) => r.state, Unsuppressed, suppression)
    requires ReadsNewest(l.usability, UsabilityKept(a), (r: UsabilityRow) => r.state, Proposed, usability)
    requires ReadsNewest(l.reach, ReachKept(a, ch, sender), (r: ReachRow) => r.state, Reachable, reach)
    ensures consent == ConsentReading(l, a, ch, p, now) && suppression == SuppressionReading(l, a, ch, sender)
    ensures usability == UsabilityReading(l, a) && reach == ReachReading(l, a, ch, sender)
  {
    hide Latest, ReadsNewest;
    LatestReads(l.consent, ConsentKept(a, ch, p), (r: ConsentRow) => ConsentAt(r, now), Unknown, consent);
    LatestReads(l.suppression, SuppressionKept(a, ch, sender), (r: SuppressionRow) => r.state, Unsuppressed, suppression);
    LatestReads(l.usability, UsabilityKept(a), (r: UsabilityRow) => r.state, Proposed, usability);
    LatestReads(l.reach, ReachKept(a, ch, sender), (r: ReachRow) => r.state, Reachable, reach);
  }

  class ContactsConsentRepository {
    const configured: Option<Scope>
    var addresses: map<string, Channel>
    var consent: seq<Entry<ConsentRow>>
    var suppression: seq<Entry<SuppressionRow>>
    var usability: seq<Entry<UsabilityRow>>
    var reach: seq<Entry<ReachRow>>

    ghost function State(): Ledgers
      reads this
    {
      Ledgers(addresses, consent, suppression, usability, reach)
    }

    constructor (configured: Option<Scope>)
      ensures State() == EMPTY && this.configured == configured
    {
      this.configured := configured;
      addresses, consent, suppression, usability, reach := map[], [], [], [], [];
    }

    /** A scope given with the call goes before the one configured. */
    function Configured(scope: Option<Scope>): (resolved: Option<Scope>)
      ensures scope.Some? ==> resolved == scope
      ensures scope.None? ==> resolved == configured
    {
      if scope.Some? then scope else configured
    }

    method AddAddress(a: string, channel: Channel) returns (refusal: Option<Refusal>)
      modifies this
      ensures refusal == Objection(old(State()), Write.AddAddress(a, channel))
      ensures State() == Perform(old(State()), Write.AddAddress(a, channel))
    {
      if a in addresses { return Some(AddressTaken); }
      addresses := addresses[a := channel];
      return None;
    }

    method GrantConsent(a: string, p: Purpose, e: Evidence, actor: Actor, scope: Option<Scope>, now: int)
      returns (refusal: Option<Refusal>)
      modifies this
      ensures refusal == Objection(old(State()), Write.GrantConsent(a, p, e, actor, Configured(scope), now))
      ensures State() == Perform(old(State()), Write.GrantConsent(a, p, e, actor, Configured(scope), now))
    {
      if !actor.kind.Human? || (ManageContacts !in actor.authorities && Administer !in actor.authorities) { return Some(HumanDecisionRequired); }
      var missing := MissingFields(e);
      if missing != [] { return Some(EvidenceRequired(missing)); }
      if a !in addresses { return Some(AddressNotFound); }
      if actor.principal.None? { return Some(DeciderUnnamed); }
      consent := consent + [Entry(now, ConsentRow(
        a, addresses[a], p, Granted, actor, Some(GrantingAuthority(actor)), Some(e), e.expiresAt,
        RevocationScope(now, Configured(scope)), None, None, None))];
      return None;
    }

    method ProposeConsent(a: string, p: Purpose, actor: Actor, now: int) returns (refusal: Option<Refusal>)
      modifies this
      ensures refusal == Objection(old(State()), Write.ProposeConsent(a, p, actor, configured, now))
      ensures State() == Perform(old(State()), Write.ProposeConsent(a, p, actor, configured, now))
    {
      if a !in addresses { return Some(AddressNotFound); }
      consent := consent + [Entry(now, ConsentRow(
        a, addresses[a], p, PendingEvidence, actor, None, None, None, RevocationScope(now, configured), None, None, None))];
      return None;
    }

    /** Withdraws each purpose the scope reaches, one insert at a time. */
    method RecordOptOut(a: string, p: Purpose, actor: Actor, scope: Option<Scope>, now: int)
      returns (refusal: Option<Refusal>)
      modifies this
      ensures refusal == Objection(old(State()), OptOut(a, p, actor, Configured(scope), now))
      ensures State() == Perform(old(State()), OptOut(a, p, actor, Configured(scope), now))
    {
      var reached := RevocationScope(now, Configured(scope));
      if a !in addresses { return Some(AddressNotFound); }
      Withdraw(PurposesReachedBy(p, reached), a, addresses[a], actor, reached, None, None, now);
      return None;
    }

    /** STOP: every purpose withdrawn, the channel suppressed, the carrier's block recorded. */
    method RecordInboundOptOut(a: string, sender: Option<string>, body: Option<string>, actor: Actor, ttl: int, now: int)
      returns (refusal: Option<Refusal>)
      modifies this
      ensures refusal == Objection(old(State()), InboundStop(a, sender, body, actor, ttl, now))
      ensures State() == Perform(old(State()), InboundStop(a, sender, body, actor, ttl, now))
    {
      if a !in addresses { return Some(AddressNotFound); }
      var channel := addresses[a];
      Withdraw(PURPOSES, a, channel, actor, CrossTopic, body, if Present(body) then Some(now + ttl) else None, now);
      suppression := suppression + [Entry(now, SuppressionRow(a, channel, sender, ByOptOut, actor, None))];
      reach := reach + [Entry(now, ReachRow(a, channel, sender, Blocked))];
      return None;
    }

    method Withdraw(
      ps: seq<Purpose>, a: string, channel: Channel, actor: Actor, scope: Scope,
      body: Option<string>, expires: Option<int>, now: int)
      modifies this`consent
      ensures consent == old(consent) + WithdrawEach(ps, a, channel, actor, scope, body, expires, now)
    {
      var i := 0;
      while i < |ps|
        invariant 0 <= i <= |ps|
        invariant consent == old(consent) + WithdrawEach(ps, a, channel, actor, scope, body, expires, now)[..i]
      {
        consent := consent + [Entry(now, WithdrawnRow(a, channel, ps[i], actor, scope, body, expires))];
        i := i + 1;
      }
      assert WithdrawEach(ps, a, channel, actor, scope, body, expires, now)[..i] ==
             WithdrawEach(ps, a, channel, actor, scope, body, expires, now);
    }

    method Suppress(a: string, state: Suppression, actor: Actor, sender: Option<string>, now: int)
      returns (refusal: Option<Refusal>)
      modifies this
      ensures refusal == Objection(old(State()), Write.Suppress(a, state, actor, sender, now))
      ensures State() == Perform(old(State()), Write.Suppress(a, state, actor, sender, now))
    {
      if state.Unsuppressed? { return Some(NotSuppressing); }
      if a !in addresses { return Some(AddressNotFound); }
      suppression := suppression + [Entry(now, SuppressionRow(a, addresses[a], sender, state, actor, None))];
      return None;
    }

    method LiftSuppression(a: string, actor: Actor, sender: Option<string>, now: int) returns (refusal: Option<Refusal>)
      modifies this
      ensures refusal == Objection(old(State()), Lift(a, actor, sender, now))
      ensures State() == Perform(old(State()), Lift(a, actor, sender, now))
    {
      if !actor.kind.Human? || Administer !in actor.authorities { return Some(AdministratorRequired); }
      if a !in addresses { return Some(AddressNotFound); }
      if actor.principal.None? { return Some(DeciderUnnamed); }
      suppression := suppression + [Entry(now, SuppressionRow(a, addresses[a], sender, Unsuppressed, actor, Some(Administer)))];
      return None;
    }

    method ProposeAddress(a: string, actor: Actor, now: int) returns (refusal: Option<Refusal>)
      modifies this
      ensures refusal == Objection(old(State()), Write.ProposeAddress(a, actor, now))
      ensures State() == Perform(old(State()), Write.ProposeAddress(a, actor, now))
    {
      if a !in addresses { return Some(AddressNotFound); }
      usability := usability + [Entry(now, UsabilityRow(a, Proposed, Some(actor), None, None))];
      return None;
    }

    method ActivateAddress(a: string, actor: Actor, now: int) returns (refusal: Option<Refusal>)
      modifies this
      ensures refusal == Objection(old(State()), Activate(a, actor, now))
      ensures State() == Perform(old(State()), Activate(a, actor, now))
    {
      if !actor.kind.Human? || (ManageContacts !in actor.authorities && Administer !in actor.authorities) { return Some(HumanDecisionRequired); }
      if a !in addresses { return Some(AddressNotFound); }
      if actor.principal.None? { return Some(DeciderUnnamed); }
      usability := usability + [Entry(now, UsabilityRow(a, Active, None, actor.principal, Some(GrantingAuthority(actor))))];
      return None;
    }

    method RetireAddress(a: string, actor: Option<Actor>, now: int) returns (refusal: Option<Refusal>)
      modifies this
      ensures refusal == Objection(old(State()), Retire(a, actor, now))
      ensures State() == Perform(old(State()), Retire(a, actor, now))
    {
      if a !in addresses { return Some(AddressNotFound); }
      usability := usability +
        [Entry(now, UsabilityRow(a, Retired, None, if actor.Some? then actor.value.principal else None, None))];
      return None;
    }

    method RecordProviderRestart(a: string, sender: Option<string>, now: int) returns (refusal: Option<Refusal>)
      modifies this
      ensures refusal == Objection(old(State()), Restart(a, sender, now))
      ensures State() == Perform(old(State()), Restart(a, sender, now))
    {
      if a !in addresses { return Some(AddressNotFound); }
      reach := reach + [Entry(now, ReachRow(a, addresses[a], sender, Reachable))];
      return None;
    }

    /** Selects the due rows, then redacts them one update at a time. */
    method PurgeExpiredContent(now: int) returns (purged: set<nat>)
      modifies this
      ensures State() == Perform(old(State()), Purge(now))
      ensures purged == set i: nat | i < |old(consent)| && Due(old(consent)[i].row, now)
    {
      var due := set i: nat | i < |consent| && Due(consent[i].row, now);
      var todo := due;
      while todo != {}
        invariant todo <= due && |consent| == |old(consent)|
        invariant forall i :: 0 <= i < |consent| ==>
          consent[i] == if i in due && i !in todo then old(consent)[i].(row := Redacted(old(consent)[i].row, now)) else old(consent)[i]
        invariant unchanged(`addresses) && unchanged(`suppression) && unchanged(`usability) && unchanged(`reach)
        decreases todo
      {
        var i :| i in todo;
        consent := consent[i := consent[i].(row := Redacted(consent[i].row, now))];
        todo := todo - {i};
      }
      assert consent == PurgedConsent(old(consent), now);
      return due;
    }

    method ConsentState(a: string, channel: Channel, p: Purpose, now: int) returns (state: Consent)
      ensures ReadsNewest(consent, ConsentKept(a, channel, p), (r: ConsentRow) => ConsentAt(r, now), Unknown, state)
    {
      var c := Newest(consent, ConsentKept(a, channel, p));
      if c.None? { return Unknown; }
      var row := consent[c.value].row;
      state := row.state;
      if row.state == Granted && row.expiresAt.Some? && row.expiresAt.value <= now { state := Expired; }
    }

    method SuppressionState(a: string, channel: Channel, sender: Option<string>) returns (state: Suppression)
      ensures ReadsNewest(suppression, SuppressionKept(a, channel, sender), (r: SuppressionRow) => r.state, Unsuppressed, state)
    {
      var s := Newest(suppression, SuppressionKept(a, channel, sender));
      state := if s.None? then Unsuppressed else suppression[s.value].row.state;
    }

    method UsabilityState(a: string) returns (state: Usability)
      ensures ReadsNewest(usability, UsabilityKept(a), (r: UsabilityRow) => r.state, Proposed, state)
    {
      var u := Newest(usability, UsabilityKept(a));
      state := if u.None? then Proposed else usability[u.value].row.state;
    }

    method ProviderReachability(a: string, channel: Channel, sender: Option<string>) returns (state: Reach)
      ensures ReadsNewest(reach, ReachKept(a, channel, sender), (r: ReachRow) => r.state, Reachable, state)
    {
      var r := Newest(reach, ReachKept(a, channel, sender));
      state := if r.None? then Reachable else reach[r.value].row.state;
    }

    /** Nothing is cached: the four readings are taken afresh and the first that forbids is the reason. */
    method EvaluateEligibility(a: string, channel: Channel, p: Purpose, sender: Option<string>, now: int)
      returns (eligible: bool, reason: Reason)
      ensures reason == Decision(State(), a, channel, p, sender, now)
      ensures eligible <==> reason == IsEligible
    {
      hide ConsentReading, SuppressionReading, UsabilityReading, ReachReading;
      var consent := ConsentState(a, channel, p, now);
      var suppression := SuppressionState(a, channel, sender);
      var usability := UsabilityState(a);
      var reach := ProviderReachability(a, channel, sender);
      ReadingsOf(State(), a, channel, p, sender, now, consent, suppression, usability, reach);
      if usability != Active { return false, if usability == Retired then AddressRetired else AddressNotUsable; }
      if suppression != Unsuppressed { return false, Suppressed(suppression); }
      if reach != Reachable { return false, ProviderUnreachable; }
      match consent {
        case Granted => return true, IsEligible;
        case Expired => return false, ConsentExpired;
        case Withdrawn => return false, ConsentWithdrawn;
        case _ => return false, ConsentMissing;
      }
    }
  }
}
