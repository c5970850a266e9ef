/**
 * What must have happened before an address may be contacted, over every
 * sequence of ledger writes.
 */
module ConsentRuns {
  import opened Prelude
  import opened ConsentLedgers

  // ----- the newest row ----------------------------------------------------

  /** Ledgers that agree on times and on what is kept agree on the newest row. */
  lemma {:induction false} LatestAgrees<T>(one: seq<Entry<T>>, two: seq<Entry<T>>, keep: T -> bool)
    requires |one| == |two|
    requires forall i :: 0 <= i < |one| ==> one[i].at == two[i].at && keep(one[i].row) == keep(two[i].row)
    ensures Latest(one, keep) == Latest(two, keep)
    decreases |one|
  {
    if one != [] {
      LatestAgrees(one[..|one| - 1], two[..|one| - 1], keep);
    }
  }

  /** Rows nobody asks about do not change the newest one. */
  lemma {:induction false} LatestIgnores<T>(ledger: seq<Entry<T>>, extra: seq<Entry<T>>, keep: T -> bool)
    requires forall i :: 0 <= i < |extra| ==> !keep(extra[i].row)
    ensures Latest(ledger + extra, keep) == Latest(ledger, keep)
    decreases |extra|
  {
    if extra == [] {
      assert ledger + extra == ledger;
    } else {
      var n := |extra| - 1;
      assert (ledger + extra)[..|ledger + extra| - 1] == ledger + extra[..n];
      LatestIgnores(ledger, extra[..n], keep);
    }
  }

  // ----- append-only -------------------------------------------------------

  /** A consent row without the one part retention may remove. */
  function Core(r: ConsentRow): ConsentRow { r.(body := None, purgedAt := None) }

  predicate SameCore(one: seq<Entry<ConsentRow>>, two: seq<Entry<ConsentRow>>) {
    |one| <= |two| && forall i :: 0 <= i < |one| ==> one[i].at == two[i].at && Core(one[i].row) == Core(two[i].row)
  }

  /** Nothing in `before` is lost or altered in `after`, message bodies aside. */
  predicate Extends(before: Ledgers, after: Ledgers) {
    (forall a :: a in before.addresses ==> a in after.addresses && after.addresses[a] == before.addresses[a]) &&
    SameCore(before.consent, after.consent) && before.suppression <= after.suppression &&
    before.usability <= after.usability && before.reach <= after.reach
  }

  lemma PerformExtends(l: Ledgers, w: Write)
    ensures Extends(l, Perform(l, w))
  {
  }

  lemma {:induction false} RunExtends(l: Ledgers, ws: seq<Write>)
    ensures Extends(l, PerformAll(l, ws))
  {
    if ws != [] {
      RunExtends(l, ws[..|ws| - 1]);
      PerformExtends(PerformAll(l, ws[..|ws| - 1]), ws[|ws| - 1]);
    }
  }

  lemma {:induction false} RunsCompose(l: Ledgers, one: seq<Write>, two: seq<Write>)
    ensures PerformAll(l, one + two) == PerformAll(PerformAll(l, one), two)
    decreases |two|
  {
    if two == [] {
      assert one + two == one;
    } else {
      assert (one + two)[..|one + two| - 1] == one + two[..|two| - 1];
      RunsCompose(l, one, two[..|two| - 1]);
    }
  }

  // ----- who stands behind a permissive row --------------------------------

  predicate GrantedBy(w: Write, e: Entry<ConsentRow>) {
    w.GrantConsent? && MayGrant(w.actor) && Named(w.actor) && Complete(w.evidence) && w.address == e.row.address &&
    w.purpose == e.row.purpose && w.now == e.at && e.row.evidence == Some(w.evidence) &&
    e.row.expiresAt == w.evidence.expiresAt && e.row.actor == w.actor && e.row.authority == Some(GrantingAuthority(w.actor))
  }

  predicate LiftedBy(w: Write, e: Entry<SuppressionRow>) {
    w.Lift? && MayLift(w.actor) && Named(w.actor) && w.address == e.row.address && w.sender == e.row.sender && w.now == e.at &&
    e.row.actor == w.actor && e.row.authority == Some(Administer)
  }

  predicate ActivatedBy(w: Write, e: Entry<UsabilityRow>) {
    w.Activate? && MayGrant(w.actor) && Named(w.actor) && w.address == e.row.address && w.now == e.at &&
    e.row.decidedBy == w.actor.principal && e.row.authority == Some(GrantingAuthority(w.actor))
  }

  predicate RestartedBy(w: Write, e: Entry<ReachRow>) {
    w.Restart? && w.address == e.row.address && w.sender == e.row.sender && w.now == e.at
  }

  ghost predicate ConsentBacked(ws: seq<Write>, ledger: seq<Entry<ConsentRow>>) {
    forall k :: 0 <= k < |ledger| && ledger[k].row.state.Granted? ==> exists w :: w in ws && GrantedBy(w, ledger[k])
  }

  ghost predicate SuppressionBacked(ws: seq<Write>, ledger: seq<Entry<SuppressionRow>>) {
    forall k :: 0 <= k < |ledger| && ledger[k].row.state.Unsuppressed? ==> exists w :: w in ws && LiftedBy(w, ledger[k])
  }

  ghost predicate UsabilityBacked(ws: seq<Write>, ledger: seq<Entry<UsabilityRow>>) {
    forall k :: 0 <= k < |ledger| && ledger[k].row.state.Active? ==> exists w :: w in ws && ActivatedBy(w, ledger[k])
  }

  ghost predicate ReachBacked(ws: seq<Write>, ledger: seq<Entry<ReachRow>>) {
    forall k :: 0 <= k < |ledger| && ledger[k].row.state.Reachable? ==> exists w :: w in ws && RestartedBy(w, ledger[k])
  }

  ghost predicate Backed(ws: seq<Write>, l: Ledgers) {
    ConsentBacked(ws, l.consent) && SuppressionBacked(ws, l.suppression) && UsabilityBacked(ws, l.usability) &&
    ReachBacked(ws, l.reach)
  }

  lemma NewRowsBacked(l: Ledgers, w: Write)
    requires Objection(l, w).None?
    ensures forall e :: e in NewConsent(l, w) && e.row.state.Granted? ==> GrantedBy(w, e)
    ensures forall e :: e in NewSuppression(l, w) && e.row.state.Unsuppressed? ==> LiftedBy(w, e)
    ensures forall e :: e in NewUsability(l, w) && e.row.state.Active? ==> ActivatedBy(w, e)
    ensures forall e :: e in NewReach(l, w) && e.row.state.Reachable? ==> RestartedBy(w, e)
  {
  }

  lemma ConsentStaysBacked(ws: seq<Write>, w: Write, l: Ledgers)
    requires ConsentBacked(ws, l.consent)
    ensures ConsentBacked(ws + [w], Perform(l, w).consent)
  {
    var after := Perform(l, w).consent;
    forall k | 0 <= k < |after| && after[k].row.state.Granted?
      ensures exists x :: x in ws + [w] && GrantedBy(x, after[k])
    {
      if k < |l.consent| {
        assert SameCore(l.consent, after) by { PerformExtends(l, w); }
        assert Core(after[k].row) == Core(l.consent[k].row);
        var x :| x in ws && GrantedBy(x, l.consent[k]);
        assert x in ws + [w] && GrantedBy(x, after[k]);
      } else {
        NewRowsBacked(l, w);
        assert after[k] in NewConsent(l, w);
        assert w in ws + [w];
      }
    }
  }

  lemma OthersStayBacked(ws: seq<Write>, w: Write, l: Ledgers)
    requires Backed(ws, l)
    ensures SuppressionBacked(ws + [w], Perform(l, w).suppression)
    ensures UsabilityBacked(ws + [w], Perform(l, w).usability)
    ensures ReachBacked(ws + [w], Perform(l, w).reach)
  {
    assert w in ws + [w] && forall x :: x in ws ==> x in ws + [w];
    if Objection(l, w).None? { NewRowsBacked(l, w); }
    hide NewSuppression, NewUsability, NewReach, NewConsent, Objection, LiftedBy, ActivatedBy, RestartedBy, ConsentBacked;
  }

  /** Every permissive row of every run has, in the run, the authorized human write that made it. */
  lemma {:induction false} RunIsBacked(ws: seq<Write>)
    ensures Backed(ws, PerformAll(EMPTY, ws))
  {
    if ws != [] {
      var n := |ws| - 1;
      RunIsBacked(ws[..n]);
      ConsentStaysBacked(ws[..n], ws[n], PerformAll(EMPTY, ws[..n]));
      OthersStayBacked(ws[..n], ws[n], PerformAll(EMPTY, ws[..n]));
      assert ws[..n] + [ws[n]] == ws;
    }
  }

  // ----- what eligibility implies ------------------------------------------

  /** A live grant for the purpose, made by an authorized human on complete evidence. */
  ghost predicate LiveGrant(ws: seq<Write>, l: Ledgers, k: nat, a: string, ch: Channel, p: Purpose, now: int) {
    k < |l.consent| && ConsentKept(a, ch, p)(l.consent[k].row) && l.consent[k].row.state.Granted? &&
    (l.consent[k].row.expiresAt.Some? ==> now < l.consent[k].row.expiresAt.value) &&
    exists w :: w in ws && GrantedBy(w, l.consent[k])
  }

  /** An administrator's lift that applies to the sender. */
  ghost predicate InScopeLift(ws: seq<Write>, l: Ledgers, k: nat, a: string, ch: Channel, sender: Option<string>) {
    k < |l.suppression| && SuppressionKept(a, ch, sender)(l.suppression[k].row) &&
    l.suppression[k].row.state.Unsuppressed? && exists w :: w in ws && LiftedBy(w, l.suppression[k])
  }

  ghost predicate InScopeRestart(ws: seq<Write>, l: Ledgers, k: nat, a: string, ch: Channel, sender: Option<string>) {
    k < |l.reach| && ReachKept(a, ch, sender)(l.reach[k].row) &&
    l.reach[k].row.state.Reachable? && exists w :: w in ws && RestartedBy(w, l.reach[k])
  }

  /** A human's activation that no later usability row of the address overrides. */
  ghost predicate StandingActivation(ws: seq<Write>, l: Ledgers, k: nat, a: string) {
    IsNewest(l.usability, UsabilityKept(a), k) && l.usability[k].row.state.Active? &&
    exists w :: w in ws && ActivatedBy(w, l.usability[k])
  }

  /**
   * Eligible means: a human with authority activated the address and nothing
   * since has overridden that, a human with authority granted this purpose on complete, unexpired evidence, and any
   * suppression in scope is older than a human administrator's lift.
   */
  lemma {:induction false} EligibleIsAuthorized(
    ws: seq<Write>, a: string, ch: Channel, p: Purpose, sender: Option<string>, now: int)
    requires Decision(PerformAll(EMPTY, ws), a, ch, p, sender, now) == IsEligible
    ensures exists k :: StandingActivation(ws, PerformAll(EMPTY, ws), k, a)
    ensures exists k :: LiveGrant(ws, PerformAll(EMPTY, ws), k, a, ch, p, now)
    ensures var l := PerformAll(EMPTY, ws);
            forall i :: 0 <= i < |l.suppression| && SuppressionKept(a, ch, sender)(l.suppression[i].row) &&
                        !l.suppression[i].row.state.Unsuppressed? ==>
              exists k :: InScopeLift(ws, l, k, a, ch, sender) && Newer(l.suppression, k, i)
  {
    RunIsBacked(ws);
    var l := PerformAll(EMPTY, ws);
    hide PerformAll, GrantedBy, LiftedBy;
    LatestIsNewest(l.suppression, SuppressionKept(a, ch, sender));
    var u := Latest(l.usability, UsabilityKept(a)).value;
    assert l.usability[u].row.state.Active?;
    LatestIsNewest(l.usability, UsabilityKept(a));
    assert StandingActivation(ws, l, u, a);
    var c := Latest(l.consent, ConsentKept(a, ch, p)).value;
    assert LiveGrant(ws, l, c, a, ch, p, now);
    var s := Latest(l.suppression, SuppressionKept(a, ch, sender));
    forall i | 0 <= i < |l.suppression| && SuppressionKept(a, ch, sender)(l.suppression[i].row) &&
               !l.suppression[i].row.state.Unsuppressed?
      ensures exists k :: InScopeLift(ws, l, k, a, ch, sender) && Newer(l.suppression, k, i)
    {
      assert s.Some? && InScopeLift(ws, l, s.value, a, ch, sender) && Newer(l.suppression, s.value, i);
    }
  }

  /** With the ledgers fixed, eligibility only ever runs out: eligible now means eligible at any earlier time. */
  lemma EligibleEarlierToo(l: Ledgers, a: string, ch: Channel, p: Purpose, sender: Option<string>, now: int, earlier: int)
    requires Decision(l, a, ch, p, sender, now) == IsEligible && earlier <= now
    ensures Decision(l, a, ch, p, sender, earlier) == IsEligible
  {
  }

  // ----- after STOP --------------------------------------------------------

  /** Where each of the STOP's rows landed. */
  lemma StopRows(l: Ledgers, stop: Write, p: Purpose) returns (c: nat)
    requires stop.InboundStop? && Objection(l, stop).None?
    ensures var after := Perform(l, stop);
            var ch := l.addresses[stop.address];
            |l.consent| <= c < |after.consent| && after.consent[c].at == stop.now &&
            ConsentKept(stop.address, ch, p)(after.consent[c].row) && after.consent[c].row.state.Withdrawn? &&
            after.suppression == l.suppression + [Entry(stop.now, after.suppression[|l.suppression|].row)] &&
            after.suppression[|l.suppression|].row == SuppressionRow(stop.address, ch, stop.sender, ByOptOut, stop.actor, None) &&
            after.reach == l.reach + [Entry(stop.now, ReachRow(stop.address, ch, stop.sender, Blocked))]
  {
    AllPurposes();
    assert p in PURPOSES;
    var i :| 0 <= i < |PURPOSES| && PURPOSES[i] == p;
    c := |l.consent| + i;
    var ch := l.addresses[stop.address];
    assert Perform(l, stop).consent[c] == NewConsent(l, stop)[i];
    assert Perform(l, stop).suppression[|l.suppression|] == NewSuppression(l, stop)[0];
  }

  lemma GrantIsNewer(ws: seq<Write>, l: Ledgers, a: string, ch: Channel, p: Purpose, sender: Option<string>, now: int, c: nat)
    requires ConsentBacked(ws, l.consent) && Decision(l, a, ch, p, sender, now) == IsEligible
    requires c < |l.consent| && ConsentKept(a, ch, p)(l.consent[c].row) && l.consent[c].row.state.Withdrawn?
    ensures exists k :: LiveGrant(ws, l, k, a, ch, p, now) && Newer(l.consent, k, c)
  {
    hide GrantedBy;
    LatestIsNewest(l.consent, ConsentKept(a, ch, p));
    var k := Latest(l.consent, ConsentKept(a, ch, p)).value;
    assert LiveGrant(ws, l, k, a, ch, p, now) && Newer(l.consent, k, c);
  }

  lemma LiftIsNewer(ws: seq<Write>, l: Ledgers, a: string, ch: Channel, p: Purpose, sender: Option<string>, now: int, s: nat)
    requires SuppressionBacked(ws, l.suppression) && Decision(l, a, ch, p, sender, now) == IsEligible
    requires s < |l.suppression| && SuppressionKept(a, ch, sender)(l.suppression[s].row)
    requires !l.suppression[s].row.state.Unsuppressed?
    ensures exists k :: InScopeLift(ws, l, k, a, ch, sender) && Newer(l.suppression, k, s)
  {
    hide LiftedBy;
    LatestIsNewest(l.suppression, SuppressionKept(a, ch, sender));
    var k := Latest(l.suppression, SuppressionKept(a, ch, sender)).value;
    assert InScopeLift(ws, l, k, a, ch, sender) && Newer(l.suppression, k, s);
  }

  lemma RestartIsNewer(ws: seq<Write>, l: Ledgers, a: string, ch: Channel, p: Purpose, sender: Option<string>, now: int, r: nat)
    requires ReachBacked(ws, l.reach) && Decision(l, a, ch, p, sender, now) == IsEligible
    requires r < |l.reach| && ReachKept(a, ch, sender)(l.reach[r].row) && l.reach[r].row.state.Blocked?
    ensures exists k :: InScopeRestart(ws, l, k, a, ch, sender) && Newer(l.reach, k, r)
  {
    hide RestartedBy;
    LatestIsNewest(l.reach, ReachKept(a, ch, sender));
    var k := Latest(l.reach, ReachKept(a, ch, sender)).value;
    assert InScopeRestart(ws, l, k, a, ch, sender) && Newer(l.reach, k, r);
  }

  /** The STOP's three rows are still where they were written, at these positions. */
  ghost predicate StopStands(l0: Ledgers, l: Ledgers, stop: Write, p: Purpose, c: nat)
    requires stop.InboundStop? && stop.address in l0.addresses
  {
    var a, ch, s, r := stop.address, l0.addresses[stop.address], |l0.suppression|, |l0.reach|;
    |l0.consent| <= c < |l.consent| && l.consent[c].at == stop.now &&
    ConsentKept(a, ch, p)(l.consent[c].row) && l.consent[c].row.state.Withdrawn? &&
    s < |l.suppression| && l.suppression[s].at == stop.now &&
    l.suppression[s].row == SuppressionRow(a, ch, stop.sender, ByOptOut, stop.actor, None) &&
    r < |l.reach| && l.reach[r] == Entry(stop.now, ReachRow(a, ch, stop.sender, Blocked))
  }

  /** What eligibility on `sender` must rest on, with the STOP's rows at `c`, `s` and `r`. */
  ghost predicate RestsOnNewer(
    ws: seq<Write>, l: Ledgers, stop: Write, ch: Channel, p: Purpose, sender: Option<string>, now: int, c: nat, s: nat, r: nat)
    requires stop.InboundStop? && c < |l.consent| && s < |l.suppression| && r < |l.reach|
  {
    (exists k :: LiveGrant(ws, l, k, stop.address, ch, p, now) && Newer(l.consent, k, c)) &&
    (InScope(stop.sender, sender) ==>
      (exists k :: InScopeLift(ws, l, k, stop.address, ch, sender) && Newer(l.suppression, k, s)) &&
      (exists k :: InScopeRestart(ws, l, k, stop.address, ch, sender) && Newer(l.reach, k, r)))
  }

  /**
   * After an inbound STOP, whatever follows it, an eligible decision rests on a
   * grant for that purpose newer than the STOP; on the senders the STOP covers
   * it also rests on a newer administrator's lift and a newer carrier restart.
   */
  lemma {:induction false} EligibleAfterStop(
    before: seq<Write>, stop: Write, after: seq<Write>, p: Purpose, sender: Option<string>, now: int) returns (c: nat)
    requires stop.InboundStop? && Objection(PerformAll(EMPTY, before), stop).None?
    requires var ch := PerformAll(EMPTY, before).addresses[stop.address];
             Decision(PerformAll(EMPTY, before + [stop] + after), stop.address, ch, p, sender, now) == IsEligible
    ensures var l0, l := PerformAll(EMPTY, before), PerformAll(EMPTY, before + [stop] + after);
            stop.address in l0.addresses && StopStands(l0, l, stop, p, c) &&
            RestsOnNewer(before + [stop] + after, l, stop, l0.addresses[stop.address], p, sender, now,
                         c, |l0.suppression|, |l0.reach|)
  {
    var l0 := PerformAll(EMPTY, before);
    var ws := before + [stop] + after;
    var l := PerformAll(EMPTY, ws);
    StopIsFollowed(before, stop, after);
    RunIsBacked(ws);
    c := StopStillStands(l0, stop, l, p);
    hide PerformAll, Perform, Decision, StopStands, RestsOnNewer, Extends;
    NewerThanStop(ws, l0, stop, l, p, sender, now, c);
  }

  lemma StopStillStands(l0: Ledgers, stop: Write, l: Ledgers, p: Purpose) returns (c: nat)
    requires stop.InboundStop? && Objection(l0, stop).None? && Extends(Perform(l0, stop), l)
    ensures stop.address in l0.addresses && StopStands(l0, l, stop, p, c)
  {
    c := StopRows(l0, stop, p);
    var m := Perform(l0, stop);
    hide Perform, Objection;
    assert Core(l.consent[c].row) == Core(m.consent[c].row);
    assert l.suppression[|l0.suppression|] == m.suppression[|l0.suppression|];
    assert l.reach[|l0.reach|] == m.reach[|l0.reach|];
  }

  lemma NewerThanStop(
    ws: seq<Write>, l0: Ledgers, stop: Write, l: Ledgers, p: Purpose, sender: Option<string>, now: int, c: nat)
    requires Backed(ws, l) && stop.InboundStop? && stop.address in l0.addresses && StopStands(l0, l, stop, p, c)
    requires Decision(l, stop.address, l0.addresses[stop.address], p, sender, now) == IsEligible
    ensures RestsOnNewer(ws, l, stop, l0.addresses[stop.address], p, sender, now, c, |l0.suppression|, |l0.reach|)
  {
    var a, ch := stop.address, l0.addresses[stop.address];
    hide Decision, LiveGrant, InScopeLift, InScopeRestart, ConsentBacked, SuppressionBacked, ReachBacked, UsabilityBacked;
    GrantIsNewer(ws, l, a, ch, p, sender, now, c);
    if InScope(stop.sender, sender) {
      LiftIsNewer(ws, l, a, ch, p, sender, now, |l0.suppression|);
      RestartIsNewer(ws, l, a, ch, p, sender, now, |l0.reach|);
    }
  }

  lemma StopIsFollowed(before: seq<Write>, stop: Write, after: seq<Write>)
    ensures Extends(Perform(PerformAll(EMPTY, before), stop), PerformAll(EMPTY, before + [stop] + after))
  {
    RunsCompose(EMPTY, before + [stop], after);
    assert (before + [stop])[..|before + [stop]| - 1] == before;
    RunExtends(PerformAll(EMPTY, before + [stop]), after);
  }

  // ----- restart, purge, opt-out -------------------------------------------

  /** A carrier restart writes to one ledger and leaves the three axes' readings as they were. */
  lemma RestartTouchesNoAxis(
    l: Ledgers, w: Write, a: string, ch: Channel, p: Purpose, sender: Option<string>, now: int)
    requires w.Restart?
    ensures ConsentReading(Perform(l, w), a, ch, p, now) == ConsentReading(l, a, ch, p, now)
    ensures SuppressionReading(Perform(l, w), a, ch, sender) == SuppressionReading(l, a, ch, sender)
    ensures UsabilityReading(Perform(l, w), a) == UsabilityReading(l, a)
    ensures Decision(Perform(l, w), a, ch, p, sender, now) != Decision(l, a, ch, p, sender, now) ==>
              Decision(l, a, ch, p, sender, now) == ProviderUnreachable ||
              Decision(Perform(l, w), a, ch, p, sender, now) == ProviderUnreachable
  {
    hide Perform, ConsentReading, SuppressionReading, UsabilityReading, ReachReading;
    RestartRows(l, w);
    SameReadings(l, Perform(l, w), a, ch, p, sender, now);
  }

  lemma RestartRows(l: Ledgers, w: Write)
    requires w.Restart?
    ensures var after := Perform(l, w);
            after.consent == l.consent && after.suppression == l.suppression && after.usability == l.usability
  {
    assert l.consent + [] == l.consent && l.suppression + [] == l.suppression && l.usability + [] == l.usability;
  }

  lemma SameReadings(l: Ledgers, l': Ledgers, a: string, ch: Channel, p: Purpose, sender: Option<string>, now: int)
    requires l'.consent == l.consent && l'.suppression == l.suppression && l'.usability == l.usability
    ensures ConsentReading(l', a, ch, p, now) == ConsentReading(l, a, ch, p, now)
    ensures SuppressionReading(l', a, ch, sender) == SuppressionReading(l, a, ch, sender)
    ensures UsabilityReading(l', a) == UsabilityReading(l, a)
  {
    hide Latest, ConsentAt;
  }

  /** A purge changes exactly the due rows, and nothing in them but the body and its own stamp. */
  lemma PurgeTouchesOnlyDueRows(l: Ledgers, now: int)
    ensures var after := Perform(l, Purge(now));
            after.addresses == l.addresses && after.suppression == l.suppression && after.usability == l.usability &&
            after.reach == l.reach && |after.consent| == |l.consent| &&
            forall i :: 0 <= i < |l.consent| ==>
              after.consent[i].at == l.consent[i].at && Core(after.consent[i].row) == Core(l.consent[i].row) &&
              (after.consent[i] != l.consent[i] <==> Due(l.consent[i].row, now))
  {
  }

  /** The consent reading never looks at the parts retention may remove. */
  lemma ReadingIgnoresBodies(l: Ledgers, l': Ledgers, a: string, ch: Channel, p: Purpose, now: int)
    requires SameCore(l.consent, l'.consent) && |l.consent| == |l'.consent|
    ensures ConsentReading(l', a, ch, p, now) == ConsentReading(l, a, ch, p, now)
  {
    var keep := ConsentKept(a, ch, p);
    forall i | 0 <= i < |l.consent| ensures keep(l'.consent[i].row) == keep(l.consent[i].row) {
      CoreDecides(l.consent[i].row, l'.consent[i].row, a, ch, p);
    }
    hide Latest, ConsentKept;
    LatestAgrees(l'.consent, l.consent, keep);
    var best := Latest(l.consent, keep);
    if best.Some? { CoreDecides(l.consent[best.value].row, l'.consent[best.value].row, a, ch, p); }
  }

  lemma CoreDecides(r: ConsentRow, r': ConsentRow, a: string, ch: Channel, p: Purpose)
    requires Core(r) == Core(r')
    ensures ConsentKept(a, ch, p)(r) == ConsentKept(a, ch, p)(r') && r.state == r'.state && r.expiresAt == r'.expiresAt
  {
    assert Core(r).address == Core(r').address && Core(r).channel == Core(r').channel && Core(r).purpose == Core(r').purpose;
    assert Core(r).state == Core(r').state && Core(r).expiresAt == Core(r').expiresAt;
  }

  /** No eligibility decision or reason ever depends on whether a body was purged. */
  lemma PurgeChangesNoDecision(
    l: Ledgers, purge: int, a: string, ch: Channel, p: Purpose, sender: Option<string>, now: int)
    ensures Decision(Perform(l, Purge(purge)), a, ch, p, sender, now) == Decision(l, a, ch, p, sender, now)
  {
    var after := Perform(l, Purge(purge));
    PurgeTouchesOnlyDueRows(l, purge);
    hide Perform, Due, Latest, ConsentReading, ConsentKept, Core;
    ReadingIgnoresBodies(l, after, a, ch, p, now);
  }

  /** Rerun at the same or an earlier time, a purge finds nothing due. */
  lemma PurgeIsIdempotent(l: Ledgers, now: int, again: int)
    requires again <= now
    ensures Perform(Perform(l, Purge(now)), Purge(again)) == Perform(l, Purge(now))
  {
    var once := PurgedConsent(l.consent, now);
    assert forall i :: 0 <= i < |once| ==> !Due(once[i].row, again);
    assert PurgedConsent(once, again) == once;
  }

  /** A preference-centre opt-out leaves the other three axes as they were. */
  lemma OptOutTouchesConsentOnly(l: Ledgers, w: Write, a: string, ch: Channel, sender: Option<string>)
    requires w.OptOut?
    ensures UsabilityReading(Perform(l, w), a) == UsabilityReading(l, a)
    ensures SuppressionReading(Perform(l, w), a, ch, sender) == SuppressionReading(l, a, ch, sender)
    ensures ReachReading(Perform(l, w), a, ch, sender) == ReachReading(l, a, ch, sender)
  {
    assert l.suppression + [] == l.suppression && l.usability + [] == l.usability && l.reach + [] == l.reach;
  }

  lemma OptOutRows(l: Ledgers, w: Write) returns (extra: seq<Entry<ConsentRow>>)
    requires w.OptOut? && Objection(l, w).None?
    ensures Perform(l, w).consent == l.consent + extra
    ensures forall e :: e in extra ==>
      e.at == w.now && e.row.state.Withdrawn? && e.row.address == w.address &&
      e.row.channel == l.addresses[w.address] && Reaches(w.purpose, RevocationScope(w.now, w.scope), e.row.purpose)
    ensures forall p :: Reaches(w.purpose, RevocationScope(w.now, w.scope), p) ==> exists e :: e in extra && e.row.purpose == p
  {
    var ps := PurposesReachedBy(w.purpose, RevocationScope(w.now, w.scope));
    extra := NewConsent(l, w);
    forall p | p in ps ensures exists e :: e in extra && e.row.purpose == p {
      var i :| 0 <= i < |ps| && ps[i] == p;
      assert extra[i] in extra && extra[i].row.purpose == p;
    }
  }

  /**
   * It withdraws the purposes its scope reaches, unless a row dated later
   * already speaks for them, and leaves every other purpose as it was.
   */
  lemma OptOutReachesExactly(l: Ledgers, w: Write, p: Purpose, now: int)
    requires w.OptOut? && Objection(l, w).None?
    ensures var ch := l.addresses[w.address];
            if Reaches(w.purpose, RevocationScope(w.now, w.scope), p) then
              (forall i :: 0 <= i < |l.consent| && ConsentKept(w.address, ch, p)(l.consent[i].row) ==> l.consent[i].at <= w.now) ==>
                ConsentReading(Perform(l, w), w.address, ch, p, now) == Withdrawn
            else ConsentReading(Perform(l, w), w.address, ch, p, now) == ConsentReading(l, w.address, ch, p, now)
  {
    var ch := l.addresses[w.address];
    var extra := OptOutRows(l, w);
    var l' := Perform(l, w);
    hide Perform, Objection, Reaches, RevocationScope;
    if Reaches(w.purpose, RevocationScope(w.now, w.scope), p) {
      var e :| e in extra && e.row.purpose == p;
      NewestIsWithdrawn(l, l', extra, w.address, ch, p, w.now, now, e);
    } else {
      hide ConsentReading;
      NoNewRowKept(l, l', extra, w.address, ch, p, now);
    }
  }

  lemma NoNewRowKept(
    l: Ledgers, l': Ledgers, extra: seq<Entry<ConsentRow>>, a: string, ch: Channel, p: Purpose, now: int)
    requires l'.consent == l.consent + extra && forall e :: e in extra ==> e.row.purpose != p || e.row.address != a
    ensures ConsentReading(l', a, ch, p, now) == ConsentReading(l, a, ch, p, now)
  {
    LatestIgnores(l.consent, extra, ConsentKept(a, ch, p));
  }

  lemma NewestIsWithdrawn(
    l: Ledgers, l': Ledgers, extra: seq<Entry<ConsentRow>>, a: string, ch: Channel, p: Purpose, at: int, now: int,
    e: Entry<ConsentRow>)
    requires l'.consent == l.consent + extra && e in extra && ConsentKept(a, ch, p)(e.row)
    requires forall x :: x in extra ==> x.at == at && x.row.state.Withdrawn?
    ensures (forall i :: 0 <= i < |l.consent| && ConsentKept(a, ch, p)(l.consent[i].row) ==> l.consent[i].at <= at) ==>
              ConsentReading(l', a, ch, p, now) == Withdrawn
  {
    var i :| 0 <= i < |extra| && extra[i] == e;
    assert l'.consent[|l.consent| + i] == e;
    LatestIsNewest(l'.consent, ConsentKept(a, ch, p));
    var best := Latest(l'.consent, ConsentKept(a, ch, p)).value;
    if best >= |l.consent| { assert l'.consent[best] == extra[best - |l.consent|] && extra[best - |l.consent|] in extra; }
    else { assert Newer(l'.consent, best, |l.consent| + i); }
  }
}
