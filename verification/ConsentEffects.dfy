/**
 * What each consent write does to the readings, in terms of purposes, senders
 * and dates alone, when no row on file is dated later than the write.
 */
module ConsentEffects {
  import opened Prelude
  import opened ConsentLedgers
  import opened ConsentRuns

  /** No row kept by `keep` is dated after `t`. */
  predicate NoneAfter<T(!new)>(ledger: seq<Entry<T>>, keep: T -> bool, t: int) {
    forall i :: 0 <= i < |ledger| && keep(ledger[i].row) ==> ledger[i].at <= t
  }

  /** Appending one row: it is the newest of its kind, and no other kind notices. */
  lemma OneMoreRow<T(!new)>(ledger: seq<Entry<T>>, e: Entry<T>, keep: T -> bool)
    requires NoneAfter(ledger, keep, e.at)
    ensures Latest(ledger + [e], keep) == if keep(e.row) then Some(|ledger|) else Latest(ledger, keep)
  {
    var more := ledger + [e];
    assert more[..|more| - 1] == ledger && more[|ledger|] == e;
    var before := Latest(ledger, keep);
    assert before.Some? ==> ledger[before.value].at <= e.at;
  }

  // ----- suppression and reachability --------------------------------------

  /** A suppression or a lift without a sender is in force on every sender; one for a sender on that sender only. */
  lemma SuppressionMeans(l: Ledgers, w: Write, state: Suppression, q: Option<string>)
    requires Objection(l, w).None?
    requires (w.Suppress? && state == w.state) || (w.Lift? && state == Unsuppressed)
    requires NoneAfter(l.suppression, (r: SuppressionRow) => true, w.now)
    ensures var ch := l.addresses[w.address];
            SuppressionReading(Perform(l, w), w.address, ch, q) ==
              (if w.sender.None? || w.sender == q then state else SuppressionReading(l, w.address, ch, q))
  {
    var ch := l.addresses[w.address];
    var e := NewSuppression(l, w)[0];
    assert Perform(l, w).suppression == l.suppression + [e];
    OneMoreRow(l.suppression, e, SuppressionKept(w.address, ch, q));
    hide Latest;
  }

  /** A carrier restart reopens exactly the senders it names, or all of them. */
  lemma RestartMeans(l: Ledgers, w: Write, q: Option<string>)
    requires Objection(l, w).None? && w.Restart? && NoneAfter(l.reach, (r: ReachRow) => true, w.now)
    ensures var ch := l.addresses[w.address];
            ReachReading(Perform(l, w), w.address, ch, q) ==
              (if w.sender.None? || w.sender == q then Reachable else ReachReading(l, w.address, ch, q))
  {
    var ch := l.addresses[w.address];
    var e := NewReach(l, w)[0];
    assert Perform(l, w).reach == l.reach + [e];
    OneMoreRow(l.reach, e, ReachKept(w.address, ch, q));
    hide Latest;
  }

  // ----- usability ---------------------------------------------------------

  /** Proposing, activating and retiring an address read back as such. */
  lemma UsabilityMeans(l: Ledgers, w: Write)
    requires Objection(l, w).None? && (w.ProposeAddress? || w.Activate? || w.Retire?)
    requires NoneAfter(l.usability, (r: UsabilityRow) => true, w.now)
    ensures UsabilityReading(Perform(l, w), w.address) ==
              if w.ProposeAddress? then Proposed else if w.Activate? then Active else Retired
  {
    var e := NewUsability(l, w)[0];
    assert Perform(l, w).usability == l.usability + [e];
    OneMoreRow(l.usability, e, UsabilityKept(w.address));
    hide Latest;
  }

  // ----- consent -----------------------------------------------------------

  /** A grant or a claim of consent decides its own purpose and no other. */
  lemma ConsentMeans(l: Ledgers, w: Write, q: Purpose, t: int)
    requires Objection(l, w).None? && (w.GrantConsent? || w.ProposeConsent?)
    requires NoneAfter(l.consent, (r: ConsentRow) => true, w.now)
    ensures var ch := l.addresses[w.address];
            ConsentReading(Perform(l, w), w.address, ch, q, t) ==
              if q != w.purpose then ConsentReading(l, w.address, ch, q, t)
              else if w.ProposeConsent? then PendingEvidence
              else if w.evidence.expiresAt.Some? && w.evidence.expiresAt.value <= t then Expired else Granted
  {
    var ch := l.addresses[w.address];
    var e := NewConsent(l, w)[0];
    assert Perform(l, w).consent == l.consent + [e];
    OneMoreRow(l.consent, e, ConsentKept(w.address, ch, q));
    hide Latest;
  }

  /** Whom the permissive writes are open to, and which authority they file. */
  lemma PermissiveWritesMean(l: Ledgers, w: Write)
    requires w.GrantConsent? || w.Activate? || w.Lift?
    ensures var authorities := w.actor.authorities;
            Objection(l, w).None? <==>
              w.actor.kind == Human && w.actor.principal.Some? && w.address in l.addresses &&
              (if w.Lift? then Administer in authorities else ManageContacts in authorities || Administer in authorities) &&
              (w.GrantConsent? ==> MissingFields(w.evidence) == [])
    ensures Objection(l, w).None? && w.GrantConsent? ==>
              var row := Perform(l, w).consent[|l.consent|].row;
              row.evidence == Some(w.evidence) && row.actor == w.actor &&
              row.authority == Some(if Administer in w.actor.authorities then Administer else ManageContacts)
    ensures Objection(l, w).None? && w.Activate? ==>
              var row := Perform(l, w).usability[|l.usability|].row;
              row.decidedBy == w.actor.principal &&
              row.authority == Some(if Administer in w.actor.authorities then Administer else ManageContacts)
  {
  }

  /** The restrictive and the inert writes are open to anyone, over any address on file. */
  lemma OpenWritesMean(l: Ledgers, w: Write)
    requires w.ProposeConsent? || w.OptOut? || w.InboundStop? || w.ProposeAddress? || w.Retire? || w.Restart? || w.Suppress?
    ensures Objection(l, w).None? <==> w.address in l.addresses && (w.Suppress? ==> w.state != Unsuppressed)
  {
  }

  /** Every row is about the address it was written for, on its channel and at its time, and names who wrote it. */
  lemma RowsMean(l: Ledgers, w: Write)
    requires Objection(l, w).None? && !w.AddAddress? && !w.Purge?
    ensures forall e :: e in NewConsent(l, w) ==>
              e.at == w.now && e.row.address == w.address && e.row.channel == l.addresses[w.address] && e.row.actor == w.actor
    ensures forall e :: e in NewSuppression(l, w) ==>
              e.at == w.now && e.row.address == w.address && e.row.channel == l.addresses[w.address] && e.row.actor == w.actor
    ensures forall e :: e in NewReach(l, w) ==>
              e.at == w.now && e.row.address == w.address && e.row.channel == l.addresses[w.address]
    ensures forall e :: e in NewUsability(l, w) ==>
              e.at == w.now && e.row.address == w.address &&
              (w.ProposeAddress? ==> e.row.proposedBy == Some(w.actor) && e.row.decidedBy.None? && e.row.authority.None?) &&
              (w.Activate? ==> e.row.proposedBy.None? && e.row.decidedBy == w.actor.principal) &&
              (w.Retire? && w.retiredBy.Some? ==> e.row.decidedBy == w.retiredBy.value.principal)
  {
  }

  // ----- how far an opt-out reaches ----------------------------------------

  /** Purposes that stand and fall together under a topic-wide opt-out. */
  predicate SameTopic(p: Purpose, q: Purpose) {
    match p
    case Marketing => q == Marketing
    case Authentication => q == Authentication
    case Utility => q == Utility || q == Transactional || q == Service
    case Transactional => q == Utility || q == Transactional || q == Service
    case Service => q == Utility || q == Transactional || q == Service
  }

  /**
   * An opt-out from `p` withdraws `p` alone while nothing wider is configured,
   * its topic or everything where that is configured, and everything whatever is
   * configured from 31 January 2027 on; the other purposes read as before.
   */
  lemma OptOutMeans(l: Ledgers, w: Write, q: Purpose, t: int)
    requires w.OptOut? && w.address in l.addresses && NoneAfter(l.consent, (r: ConsentRow) => true, w.now)
    ensures var ch := l.addresses[w.address];
            var reached :=
              if w.now >= 1801353600 then true
              else if w.scope.None? || w.scope == Some(Program) then q == w.purpose
              else if w.scope == Some(OneTopic) then SameTopic(w.purpose, q)
              else true;
            ConsentReading(Perform(l, w), w.address, ch, q, t) ==
              if reached then Withdrawn else ConsentReading(l, w.address, ch, q, t)
  {
    hide Perform, ConsentReading, Reaches, RevocationScope, SameTopic, NewConsent;
    ReachMeans(w.purpose, w.scope, w.now, q);
    OptOutReachesExactly(l, w, q, t);
  }

  lemma ReachMeans(p: Purpose, configured: Option<Scope>, now: int, q: Purpose)
    ensures Reaches(p, RevocationScope(now, configured), q) <==>
              if now >= 1801353600 then true
              else if configured.None? || configured == Some(Program) then q == p
              else if configured == Some(OneTopic) then SameTopic(p, q)
              else true
  {
  }

  // ----- STOP --------------------------------------------------------------

  /**
   * A STOP withdraws every purpose; it suppresses and blocks the senders it
   * covers and no others, and leaves usability alone.
   */
  lemma StopMeans(l: Ledgers, w: Write, q: Purpose, sender: Option<string>, t: int)
    requires w.InboundStop? && w.address in l.addresses
    requires NoneAfter(l.consent, (r: ConsentRow) => true, w.now) && NoneAfter(l.reach, (r: ReachRow) => true, w.now)
    requires NoneAfter(l.suppression, (r: SuppressionRow) => true, w.now)
    ensures var l', ch := Perform(l, w), l.addresses[w.address];
            var covered := w.sender.None? || w.sender == sender;
            ConsentReading(l', w.address, ch, q, t) == Withdrawn &&
            SuppressionReading(l', w.address, ch, sender) ==
              (if covered then ByOptOut else SuppressionReading(l, w.address, ch, sender)) &&
            ReachReading(l', w.address, ch, sender) == (if covered then Blocked else ReachReading(l, w.address, ch, sender)) &&
            l'.usability == l.usability
  {
    var ch := l.addresses[w.address];
    StopConsent(l, w, q, t);
    var s, r := NewSuppression(l, w)[0], NewReach(l, w)[0];
    assert Perform(l, w).suppression == l.suppression + [s] && Perform(l, w).reach == l.reach + [r];
    OneMoreRow(l.suppression, s, SuppressionKept(w.address, ch, sender));
    OneMoreRow(l.reach, r, ReachKept(w.address, ch, sender));
    hide Latest, ConsentReading;
  }

  lemma StopConsent(l: Ledgers, w: Write, q: Purpose, t: int)
    requires w.InboundStop? && w.address in l.addresses && NoneAfter(l.consent, (r: ConsentRow) => true, w.now)
    ensures ConsentReading(Perform(l, w), w.address, l.addresses[w.address], q, t) == Withdrawn
  {
    var c := StopRows(l, w, q);
    var l' := Perform(l, w);
    var extra := NewConsent(l, w);
    assert l'.consent == l.consent + extra && extra[c - |l.consent|] == l'.consent[c];
    hide Perform, Objection, NewConsent;
    NewestIsWithdrawn(l, l', extra, w.address, l.addresses[w.address], q, w.now, t, l'.consent[c]);
  }

  /** The message is kept on every row of its STOP, to the end of its time to live and not beyond. */
  lemma StopBodyMeans(l: Ledgers, w: Write, i: nat)
    requires w.InboundStop? && w.address in l.addresses && |l.consent| <= i < |Perform(l, w).consent|
    ensures var row := Perform(l, w).consent[i].row;
            row.body == w.body && row.purgedAt == None &&
            row.contentExpires == if w.body.Some? && w.body.value != "" then Some(w.now + w.ttl) else None
  {
  }

  /** A purge takes a body exactly when it is there, has an end, the end has come and nothing was purged before. */
  lemma PurgeMeans(l: Ledgers, now: int, i: nat)
    requires i < |l.consent|
    ensures var before, after := l.consent[i].row, Perform(l, Purge(now)).consent[i].row;
            if before.purgedAt.None? && before.body.Some? && before.contentExpires.Some? && before.contentExpires.value <= now
            then after == before.(body := None, purgedAt := Some(now)) else after == before
  {
  }

  // ----- evidence ----------------------------------------------------------

  predicate IsForm(captureMethod: Option<string>) {
    captureMethod == Some("web_form") || captureMethod == Some("embedded_form") || captureMethod == Some("import_form")
  }

  /** Which fields a refusal names. */
  lemma MissingMeans(e: Evidence, f: Field)
    ensures f in MissingFields(e) <==>
              match f
              case CaptureMethod => e.captureMethod.None? || e.captureMethod.value == ""
              case CapturedAt => e.capturedAt.None?
              case CapturedLocal => e.capturedLocal.None? || e.capturedLocal.value == ""
              case Jurisdiction => e.jurisdiction.None? || e.jurisdiction.value == ""
              case DisclosureText => e.disclosure.None? || e.disclosure.value == ""
              case LegalBasis => e.legalBasis.None? || e.legalBasis.value == ""
              case DefaultUnchecked =>
                e.defaultUnchecked == Some(false) ||
                (e.defaultUnchecked.None? && IsForm(e.captureMethod))
  {
    hide Require, FormCapture, IsForm;
    FormMeans(e.captureMethod);
    RequireMeans(Present(e.captureMethod), CaptureMethod, f);
    RequireMeans(e.capturedAt.Some?, CapturedAt, f);
    RequireMeans(Present(e.capturedLocal), CapturedLocal, f);
    RequireMeans(Present(e.jurisdiction), Jurisdiction, f);
    RequireMeans(Present(e.disclosure), DisclosureText, f);
    RequireMeans(Present(e.legalBasis), LegalBasis, f);
    RequireMeans(e.defaultUnchecked != Some(false) && (FormCapture(e.captureMethod) ==> e.defaultUnchecked == Some(true)),
                 DefaultUnchecked, f);
    assert e.defaultUnchecked.Some? ==> e.defaultUnchecked == Some(true) || e.defaultUnchecked == Some(false) by {
      if e.defaultUnchecked.Some? { assert e.defaultUnchecked.value || !e.defaultUnchecked.value; }
    }
  }

  lemma FormMeans(captureMethod: Option<string>)
    ensures FormCapture(captureMethod) <==> IsForm(captureMethod)
  {
  }

  lemma RequireMeans(present: bool, field: Field, f: Field)
    ensures f in Require(present, field) <==> !present && f == field
  {
  }

  // ----- the decision ------------------------------------------------------

  /** One reason per state of affairs: the address first, then suppression, then the carrier, then consent. */
  lemma DecisionMeans(l: Ledgers, a: string, ch: Channel, p: Purpose, sender: Option<string>, now: int)
    ensures var why := Decision(l, a, ch, p, sender, now);
            var usable, clear := UsabilityReading(l, a), SuppressionReading(l, a, ch, sender);
            var open, consent := ReachReading(l, a, ch, sender), ConsentReading(l, a, ch, p, now);
            (why == AddressRetired <==> usable == Retired) && (why == AddressNotUsable <==> usable == Proposed) &&
            (why.Suppressed? <==> usable == Active && clear != Unsuppressed) && (why.Suppressed? ==> why.state == clear) &&
            (why == ProviderUnreachable <==> usable == Active && clear == Unsuppressed && open == Blocked) &&
            (usable == Active && clear == Unsuppressed && open == Reachable ==>
              (why == IsEligible <==> consent == Granted) && (why == ConsentExpired <==> consent == Expired) &&
              (why == ConsentWithdrawn <==> consent == Withdrawn) &&
              (why == ConsentMissing <==> consent == Unknown || consent == PendingEvidence))
  {
    hide UsabilityReading, SuppressionReading, ReachReading, ConsentReading;
  }
}
