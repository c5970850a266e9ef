/** What introducing one imported address does to the ledgers, and to nobody else's eligibility. */
module ImportLedgers {
  import opened Prelude
  import opened ConsentLedgers
  import opened ConsentRuns
  import opened ContactImport

  // ----- writes about one address ------------------------------------------

  /** A write that concerns `a` alone. */
  predicate About(w: Write, a: string) { !w.Purge? && w.address == a }

  lemma NewRowsAreAbout(l: Ledgers, w: Write, a: string)
    requires About(w, a) && Objection(l, w).None?
    ensures forall i :: 0 <= i < |NewConsent(l, w)| ==> NewConsent(l, w)[i].row.address == a
    ensures forall i :: 0 <= i < |NewSuppression(l, w)| ==> NewSuppression(l, w)[i].row.address == a
    ensures forall i :: 0 <= i < |NewUsability(l, w)| ==> NewUsability(l, w)[i].row.address == a
    ensures forall i :: 0 <= i < |NewReach(l, w)| ==> NewReach(l, w)[i].row.address == a
  {
  }

  /** A write about one address changes no other address's decision or reason. */
  lemma OthersUndisturbed(
    l: Ledgers, w: Write, a: string, b: string, ch: Channel, p: Purpose, sender: Option<string>, t: int)
    requires About(w, a) && a != b
    ensures Decision(Perform(l, w), b, ch, p, sender, t) == Decision(l, b, ch, p, sender, t)
  {
    hide Decision;
    if Objection(l, w).None? && !w.AddAddress? {
      NewRowsAreAbout(l, w, a);
      var l', nc, ns, nu, nr := Perform(l, w), NewConsent(l, w), NewSuppression(l, w), NewUsability(l, w), NewReach(l, w);
      assert l'.consent == l.consent + nc && l'.suppression == l.suppression + ns;
      assert l'.usability == l.usability + nu && l'.reach == l.reach + nr;
      hide *;
      GrownElsewhere(l, l', nc, ns, nu, nr, b, ch, p, sender, t);
    } else {
      SameLedgers(l, Perform(l, w), b, ch, p, sender, t);
    }
  }

  lemma SameLedgers(l: Ledgers, l': Ledgers, b: string, ch: Channel, p: Purpose, sender: Option<string>, t: int)
    requires l'.consent == l.consent && l'.suppression == l.suppression && l'.usability == l.usability && l'.reach == l.reach
    ensures Decision(l', b, ch, p, sender, t) == Decision(l, b, ch, p, sender, t)
  {
    hide Latest;
  }

  lemma GrownElsewhere(
    l: Ledgers, l': Ledgers, nc: seq<Entry<ConsentRow>>, ns: seq<Entry<SuppressionRow>>, nu: seq<Entry<UsabilityRow>>,
    nr: seq<Entry<ReachRow>>, b: string, ch: Channel, p: Purpose, sender: Option<string>, t: int)
    requires l'.consent == l.consent + nc && forall i :: 0 <= i < |nc| ==> nc[i].row.address != b
    requires l'.suppression == l.suppression + ns && forall i :: 0 <= i < |ns| ==> ns[i].row.address != b
    requires l'.usability == l.usability + nu && forall i :: 0 <= i < |nu| ==> nu[i].row.address != b
    requires l'.reach == l.reach + nr && forall i :: 0 <= i < |nr| ==> nr[i].row.address != b
    ensures Decision(l', b, ch, p, sender, t) == Decision(l, b, ch, p, sender, t)
  {
    hide Latest, Decision;
    LatestIgnores(l.consent, nc, ConsentKept(b, ch, p));
    LatestIgnores(l.suppression, ns, SuppressionKept(b, ch, sender));
    LatestIgnores(l.usability, nu, UsabilityKept(b));
    LatestIgnores(l.reach, nr, ReachKept(b, ch, sender));
    SameTail(l, l', b, ch, p, sender, t);
  }

  /** Decisions read four newest rows; ledgers that only grew past them decide the same. */
  lemma SameTail(l: Ledgers, l': Ledgers, b: string, ch: Channel, p: Purpose, sender: Option<string>, t: int)
    requires l.consent <= l'.consent && Latest(l'.consent, ConsentKept(b, ch, p)) == Latest(l.consent, ConsentKept(b, ch, p))
    requires l.suppression <= l'.suppression &&
             Latest(l'.suppression, SuppressionKept(b, ch, sender)) == Latest(l.suppression, SuppressionKept(b, ch, sender))
    requires l.usability <= l'.usability && Latest(l'.usability, UsabilityKept(b)) == Latest(l.usability, UsabilityKept(b))
    requires l.reach <= l'.reach && Latest(l'.reach, ReachKept(b, ch, sender)) == Latest(l.reach, ReachKept(b, ch, sender))
    ensures Decision(l', b, ch, p, sender, t) == Decision(l, b, ch, p, sender, t)
  {
    hide Latest;
  }

  lemma {:induction false} RunLeavesOthers(
    l: Ledgers, ws: seq<Write>, a: string, b: string, ch: Channel, p: Purpose, sender: Option<string>, t: int)
    requires (forall i :: 0 <= i < |ws| ==> About(ws[i], a)) && a != b
    ensures Decision(PerformAll(l, ws), b, ch, p, sender, t) == Decision(l, b, ch, p, sender, t)
    decreases |ws|
  {
    if ws != [] {
      var n := |ws| - 1;
      RunLeavesOthers(l, ws[..n], a, b, ch, p, sender, t);
      OthersUndisturbed(PerformAll(l, ws[..n]), ws[n], a, b, ch, p, sender, t);
    }
  }

  // ----- rows of known addresses only --------------------------------------

  /** Every row is about an address the account has. */
  predicate Known(l: Ledgers) {
    (forall i :: 0 <= i < |l.consent| ==> l.consent[i].row.address in l.addresses) &&
    (forall i :: 0 <= i < |l.suppression| ==> l.suppression[i].row.address in l.addresses) &&
    (forall i :: 0 <= i < |l.usability| ==> l.usability[i].row.address in l.addresses) &&
    (forall i :: 0 <= i < |l.reach| ==> l.reach[i].row.address in l.addresses)
  }

  lemma PerformKeepsKnown(l: Ledgers, w: Write)
    requires Known(l)
    ensures Known(Perform(l, w))
    ensures forall a :: a in Perform(l, w).addresses ==> a in l.addresses || (w.AddAddress? && a == w.address)
  {
    if Objection(l, w).None? && !w.Purge? && !w.AddAddress? {
      NewRowsAreAbout(l, w, w.address);
      hide NewConsent, NewSuppression, NewUsability, NewReach;
    }
  }

  lemma {:induction false} RunKeepsKnown(l: Ledgers, ws: seq<Write>, a: string)
    requires Known(l) && forall i :: 0 <= i < |ws| ==> About(ws[i], a)
    ensures Known(PerformAll(l, ws))
    ensures forall x :: x in PerformAll(l, ws).addresses ==> x in l.addresses || x == a
    decreases |ws|
  {
    if ws != [] {
      var n := |ws| - 1;
      RunKeepsKnown(l, ws[..n], a);
      PerformKeepsKnown(PerformAll(l, ws[..n]), ws[n]);
      assert About(ws[n], a);
    }
  }

  // ----- one introduction --------------------------------------------------

  function GrantRow(a: string, ch: Channel, p: Purpose, e: Evidence, who: Decider): ConsentRow {
    ConsentRow(a, ch, p, Granted, who.actor, Some(GrantingAuthority(who.actor)), Some(e), e.expiresAt,
               RevocationScope(who.now, who.configured), None, None, None)
  }

  function GrantRows(ps: seq<Purpose>, a: string, ch: Channel, e: Evidence, who: Decider): seq<Entry<ConsentRow>> {
    seq(|ps|, i requires 0 <= i < |ps| => Entry(who.now, GrantRow(a, ch, ps[i], e, who)))
  }

  lemma {:induction false} GrantsAppend(l: Ledgers, ps: seq<Purpose>, a: string, e: Evidence, who: Decider)
    requires a in l.addresses && MayDecide(who) && Complete(e)
    ensures PerformAll(l, Grants(ps, a, e, who)) ==
            l.(consent := l.consent + GrantRows(ps, a, l.addresses[a], e, who))
    decreases |ps|
  {
    hide Complete, MayDecide, GrantRow, Perform;
    var ch := l.addresses[a];
    if ps == [] {
      assert l.consent + [] == l.consent;
    } else {
      var n := |ps| - 1;
      var ws := Grants(ps, a, e, who);
      assert ws[..|ws| - 1] == Grants(ps[..n], a, e, who);
      GrantsAppend(l, ps[..n], a, e, who);
      OneGrant(l.(consent := l.consent + GrantRows(ps[..n], a, ch, e, who)), ps[n], a, e, who);
      var last := [Entry(who.now, GrantRow(a, ch, ps[n], e, who))];
      assert GrantRows(ps, a, ch, e, who) == GrantRows(ps[..n], a, ch, e, who) + last;
    }
  }

  lemma OneGrant(l: Ledgers, p: Purpose, a: string, e: Evidence, who: Decider)
    requires a in l.addresses && MayDecide(who) && Complete(e)
    ensures Perform(l, GrantConsent(a, p, e, who.actor, who.configured, who.now)) ==
            l.(consent := l.consent + [Entry(who.now, GrantRow(a, l.addresses[a], p, e, who))])
  {
    assert l.suppression + [] == l.suppression && l.usability + [] == l.usability && l.reach + [] == l.reach;
  }

  /** The ledgers right after an introduction: one usability row, and one grant per claimed purpose. */
  lemma IntroductionRows(l: Ledgers, a: string, ch: Channel, claim: Option<Claim>, who: Decider)
    requires a !in l.addresses && (claim.Some? ==> MayDecide(who) && Complete(claim.value.evidence))
    ensures var l' := PerformAll(l, Introduction(a, ch, claim, who));
            l'.addresses == l.addresses[a := ch] && l'.suppression == l.suppression && l'.reach == l.reach &&
            |l'.usability| == |l.usability| + 1 && l.usability <= l'.usability &&
            l'.usability[|l.usability|].row.address == a &&
            l'.usability[|l.usability|].row.state == (if claim.Some? then Active else Proposed) &&
            l'.consent == l.consent +
              (if claim.Some? then GrantRows(claim.value.purposes, a, ch, claim.value.evidence, who) else [])
  {
    var first := AddAddress(a, ch);
    var second := if claim.Some? then Activate(a, who.actor, who.now) else ProposeAddress(a, who.actor, who.now);
    var l1 := Perform(l, first);
    var l2 := Perform(l1, second);
    TwoWrites(l, first, second);
    assert l1.consent + [] == l1.consent && l1.suppression + [] == l1.suppression && l1.reach + [] == l1.reach;
    if claim.Some? {
      RunsCompose(l, [first, second], Grants(claim.value.purposes, a, claim.value.evidence, who));
      GrantsAppend(l2, claim.value.purposes, a, claim.value.evidence, who);
    } else {
      assert l.consent + [] == l.consent;
    }
  }

  lemma TwoWrites(l: Ledgers, v: Write, w: Write)
    ensures PerformAll(l, [v, w]) == Perform(Perform(l, v), w)
  {
    assert [v, w][..1] == [v] && [v][..0] == [];
    assert PerformAll(l, [v]) == Perform(PerformAll(l, []), v);
  }

  predicate LiveAt(claim: Option<Claim>, p: Purpose, t: int) {
    claim.Some? && p in claim.value.purposes &&
    (claim.value.evidence.expiresAt.Some? ==> t < claim.value.evidence.expiresAt.value)
  }

  /**
   * A newly introduced address is eligible for exactly the purposes its row
   * claimed, on any sender, until that evidence expires; with no claim, for none.
   */
  lemma IntroducedEligibility(
    l: Ledgers, a: string, ch: Channel, claim: Option<Claim>, who: Decider,
    p: Purpose, sender: Option<string>, t: int)
    requires Known(l) && a !in l.addresses && (claim.Some? ==> MayDecide(who) && Complete(claim.value.evidence))
    ensures var l' := PerformAll(l, Introduction(a, ch, claim, who));
            Decision(l', a, ch, p, sender, t) == IsEligible <==> LiveAt(claim, p, t)
  {
    hide UsabilityReading, SuppressionReading, ReachReading, ConsentReading, Known, PerformAll, Introduction, Complete, GrantRows;
    var l' := PerformAll(l, Introduction(a, ch, claim, who));
    IntroductionRows(l, a, ch, claim, who);
    SoleUsabilityRow(l, l', a);
    NoRestrictionsYet(l, l', a, ch, sender);
    NoConsentYet(l, a, ch, p, t);
    if claim.Some? { GrantedReading(l, l', a, ch, claim.value, who, p, t); }
  }

  lemma SoleUsabilityRow(l: Ledgers, l': Ledgers, a: string)
    requires Known(l) && a !in l.addresses && |l'.usability| == |l.usability| + 1 && l.usability <= l'.usability
    requires l'.usability[|l.usability|].row.address == a
    ensures UsabilityReading(l', a) == l'.usability[|l.usability|].row.state
  {
    LatestIsNewest(l'.usability, UsabilityKept(a));
    hide Latest;
  }

  lemma NoRestrictionsYet(l: Ledgers, l': Ledgers, a: string, ch: Channel, sender: Option<string>)
    requires Known(l) && a !in l.addresses && l'.suppression == l.suppression && l'.reach == l.reach
    ensures SuppressionReading(l', a, ch, sender) == Unsuppressed && ReachReading(l', a, ch, sender) == Reachable
  {
    LatestIsNewest(l'.suppression, SuppressionKept(a, ch, sender));
    LatestIsNewest(l'.reach, ReachKept(a, ch, sender));
    hide Latest;
  }

  /** No consent row on file for this address and purpose is dated after `t`. */
  predicate NoneLater(l: Ledgers, a: string, ch: Channel, p: Purpose, t: int) {
    forall i :: 0 <= i < |l.consent| && ConsentKept(a, ch, p)(l.consent[i].row) ==> l.consent[i].at <= t
  }

  /** Grants dated no earlier than what is on file decide the purposes they name, and no others. */
  lemma GrantedReading(
    l: Ledgers, l': Ledgers, a: string, ch: Channel, claim: Claim, who: Decider, p: Purpose, t: int)
    requires NoneLater(l, a, ch, p, who.now)
    requires l'.consent == l.consent + GrantRows(claim.purposes, a, ch, claim.evidence, who)
    ensures if p in claim.purposes then ConsentReading(l', a, ch, p, t) == Granted <==> LiveAt(Some(claim), p, t)
            else ConsentReading(l', a, ch, p, t) == ConsentReading(l, a, ch, p, t)
  {
    hide Latest, NoneLater, GrantRows;
    if p in claim.purposes {
      NewestIsAGrant(l, l'.consent, a, ch, claim, who, p);
    } else {
      GrantsOfOthers(a, ch, claim, who, p);
      LatestIgnores(l.consent, GrantRows(claim.purposes, a, ch, claim.evidence, who), ConsentKept(a, ch, p));
    }
  }

  lemma GrantsOfOthers(a: string, ch: Channel, claim: Claim, who: Decider, p: Purpose)
    requires p !in claim.purposes
    ensures var rows := GrantRows(claim.purposes, a, ch, claim.evidence, who);
            forall i :: 0 <= i < |rows| ==> !ConsentKept(a, ch, p)(rows[i].row)
  {
  }

  lemma NewestIsAGrant(
    l: Ledgers, grown: seq<Entry<ConsentRow>>, a: string, ch: Channel, claim: Claim, who: Decider, p: Purpose)
    requires NoneLater(l, a, ch, p, who.now) && p in claim.purposes
    requires grown == l.consent + GrantRows(claim.purposes, a, ch, claim.evidence, who)
    ensures var best := Latest(grown, ConsentKept(a, ch, p));
            best.Some? && grown[best.value].row == GrantRow(a, ch, p, claim.evidence, who)
  {
    hide Latest;
    var keep, rows := ConsentKept(a, ch, p), GrantRows(claim.purposes, a, ch, claim.evidence, who);
    var i :| 0 <= i < |claim.purposes| && claim.purposes[i] == p;
    assert grown[|l.consent| + i] == rows[i] && keep(rows[i].row);
    LatestIsNewest(grown, keep);
    var best := Latest(grown, keep).value;
    assert best >= |l.consent|;
    assert grown[best] == rows[best - |l.consent|];
  }

  lemma NoConsentYet(l: Ledgers, a: string, ch: Channel, p: Purpose, t: int)
    requires Known(l) && a !in l.addresses
    ensures ConsentReading(l, a, ch, p, t) == Unknown && forall s :: NoneLater(l, a, ch, p, s)
  {
    LatestIsNewest(l.consent, ConsentKept(a, ch, p));
    hide Latest;
  }
}
