/**
 * The four append-only contact ledgers: who may write which row, how the
 * newest row is read, and when an address may be contacted.
 */
module ConsentLedgers {
  import opened Prelude

  datatype Channel = Sms | WhatsApp | Voice | Email
  datatype Purpose = Marketing | Utility | Authentication | Transactional | Service
  datatype Topic = Promotional | Operational | Security
  datatype Scope = Program | OneTopic | CrossTopic

  datatype ActorKind = Human | Agent | Machine | Carrier | Subject
  datatype Authority = ManageContacts | Administer
  datatype Actor = Actor(kind: ActorKind, principal: Option<string>, authorities: set<Authority>)

  datatype Consent = Unknown | PendingEvidence | Granted | Expired | Withdrawn
  datatype Suppression = Unsuppressed | ByOptOut | ByBounce | ByAdmin | ByProvider
  datatype Usability = Proposed | Active | Retired
  datatype Reach = Reachable | Blocked

  const PURPOSES: seq<Purpose> := [Marketing, Utility, Authentication, Transactional, Service]

  /** 31 January 2027, 00:00 UTC. */
  const CROSS_TOPIC_REVOCATION_EFFECTIVE := 1801353600

  // ----- evidence ----------------------------------------------------------

  datatype Evidence = Evidence(
    captureMethod: Option<string>, capturedAt: Option<int>, capturedLocal: Option<string>, timezone: Option<string>,
    jurisdiction: Option<string>, disclosure: Option<string>, legalBasis: Option<string>, source: Option<string>,
    defaultUnchecked: Option<bool>, expiresAt: Option<int>)

  datatype Field =
    | CaptureMethod | CapturedAt | CapturedLocal | Jurisdiction | DisclosureText | LegalBasis | DefaultUnchecked

  predicate Present(text: Option<string>) { text.Some? && text.value != "" }

  predicate FormCapture(captureMethod: Option<string>) {
    captureMethod.Some? && captureMethod.value in {"web_form", "embedded_form", "import_form"}
  }

  function Require(present: bool, field: Field): seq<Field> { if present then [] else [field] }

  /** The required fields that are lacking; a pre-ticked box, or an unproven one on a form, lacks its field. */
  function MissingFields(e: Evidence): seq<Field> {
    Require(Present(e.captureMethod), CaptureMethod) + Require(e.capturedAt.Some?, CapturedAt) +
    Require(Present(e.capturedLocal), CapturedLocal) + Require(Present(e.jurisdiction), Jurisdiction) +
    Require(Present(e.disclosure), DisclosureText) + Require(Present(e.legalBasis), LegalBasis) +
    Require(e.defaultUnchecked != Some(false) && (FormCapture(e.captureMethod) ==> e.defaultUnchecked == Some(true)),
            DefaultUnchecked)
  }

  predicate Complete(e: Evidence) { MissingFields(e) == [] }

  lemma CompleteMeans(e: Evidence)
    ensures Complete(e) <==>
      Present(e.captureMethod) && e.capturedAt.Some? && Present(e.capturedLocal) && Present(e.jurisdiction) &&
      Present(e.disclosure) && Present(e.legalBasis) && e.defaultUnchecked != Some(false) &&
      (FormCapture(e.captureMethod) ==> e.defaultUnchecked == Some(true))
  {
    if Complete(e) { assert |MissingFields(e)| == 0; }
  }

  // ----- ledgers -----------------------------------------------------------

  /** A ledger row at its `recorded_at`; its position in the ledger is its `ledger_sequence`. */
  datatype Entry<T> = Entry(at: int, row: T)

  datatype ConsentRow = ConsentRow(
    address: string, channel: Channel, purpose: Purpose, state: Consent, actor: Actor, authority: Option<Authority>,
    evidence: Option<Evidence>, expiresAt: Option<int>, scope: Scope,
    body: Option<string>, contentExpires: Option<int>, purgedAt: Option<int>)

  datatype SuppressionRow = SuppressionRow(
    address: string, channel: Channel, sender: Option<string>, state: Suppression, actor: Actor, authority: Option<Authority>)

  datatype UsabilityRow = UsabilityRow(
    address: string, state: Usability, proposedBy: Option<Actor>, decidedBy: Option<string>, authority: Option<Authority>)

  datatype ReachRow = ReachRow(address: string, channel: Channel, sender: Option<string>, state: Reach)

  datatype Ledgers = Ledgers(
    addresses: map<string, Channel>,
    consent: seq<Entry<ConsentRow>>,
    suppression: seq<Entry<SuppressionRow>>,
    usability: seq<Entry<UsabilityRow>>,
    reach: seq<Entry<ReachRow>>)

  const EMPTY := Ledgers(map[], [], [], [], [])

  /** Row `j` is newer than row `i`: recorded later, or at the same instant and written later. */
  predicate Newer<T>(ledger: seq<Entry<T>>, j: nat, i: nat)
    requires i < |ledger| && j < |ledger|
  {
    ledger[i].at < ledger[j].at || (ledger[i].at == ledger[j].at && i < j)
  }

  /** `_latest`: the position of the newest kept row. */
  function Latest<T>(ledger: seq<Entry<T>>, keep: T -> bool): (best: Option<nat>)
    ensures best.Some? ==> best.value < |ledger| && keep(ledger[best.value].row)
  {
    if ledger == [] then None
    else
      var n := |ledger| - 1;
      var before := Latest(ledger[..n], keep);
      if keep(ledger[n].row) && (before.None? || ledger[before.value].at <= ledger[n].at) then Some(n)
      else before
  }

  /** It is a kept row newer than every other kept row, and absent only when none is kept. */
  lemma {:induction false} LatestIsNewest<T>(ledger: seq<Entry<T>>, keep: T -> bool)
    ensures var best := Latest(ledger, keep);
            (best.None? <==> forall i :: 0 <= i < |ledger| ==> !keep(ledger[i].row)) &&
            (best.Some? ==>
              forall i :: 0 <= i < |ledger| && keep(ledger[i].row) && i != best.value ==> Newer(ledger, best.value, i))
    decreases |ledger|
  {
    if ledger != [] {
      LatestIsNewest(ledger[..|ledger| - 1], keep);
    }
  }

  /** `k` is the newest of the kept rows. */
  ghost predicate IsNewest<T>(ledger: seq<Entry<T>>, keep: T -> bool, k: nat) {
    k < |ledger| && keep(ledger[k].row) &&
    forall i :: 0 <= i < |ledger| && keep(ledger[i].row) && i != k ==> Newer(ledger, k, i)
  }

  /** A reading in terms of the rows: the newest kept one decides, and without any the default holds. */
  ghost predicate ReadsNewest<T, S>(ledger: seq<Entry<T>>, keep: T -> bool, read: T -> S, absent: S, state: S) {
    if forall i :: 0 <= i < |ledger| ==> !keep(ledger[i].row) then state == absent
    else exists k: nat :: IsNewest(ledger, keep, k) && state == read(ledger[k].row)
  }

  /** The rows leave a reading no choice. */
  lemma LatestReads<T, S>(ledger: seq<Entry<T>>, keep: T -> bool, read: T -> S, absent: S, state: S)
    requires ReadsNewest(ledger, keep, read, absent, state)
    ensures var best := Latest(ledger, keep);
            state == if best.None? then absent else read(ledger[best.value].row)
  {
    LatestIsNewest(ledger, keep);
    hide Latest;
    if exists i :: 0 <= i < |ledger| && keep(ledger[i].row) {
      var k: nat :| IsNewest(ledger, keep, k) && state == read(ledger[k].row);
      assert k == Latest(ledger, keep).value;
    }
  }

  predicate InScope(rowSender: Option<string>, sender: Option<string>) { rowSender.None? || rowSender == sender }

  function ConsentKept(a: string, ch: Channel, p: Purpose): ConsentRow -> bool {
    (r: ConsentRow) => r.address == a && r.channel == ch && r.purpose == p
  }

  function SuppressionKept(a: string, ch: Channel, sender: Option<string>): SuppressionRow -> bool {
    (r: SuppressionRow) => r.address == a && r.channel == ch && InScope(r.sender, sender)
  }

  function UsabilityKept(a: string): UsabilityRow -> bool { (r: UsabilityRow) => r.address == a }

  function ReachKept(a: string, ch: Channel, sender: Option<string>): ReachRow -> bool {
    (r: ReachRow) => r.address == a && r.channel == ch && InScope(r.sender, sender)
  }

  /** A grant past its expiry reads expired from that moment on. */
  function ConsentAt(r: ConsentRow, now: int): Consent {
    if r.state.Granted? && r.expiresAt.Some? && r.expiresAt.value <= now then Expired else r.state
  }

  function ConsentReading(l: Ledgers, a: string, ch: Channel, p: Purpose, now: int): Consent {
    var i := Latest(l.consent, ConsentKept(a, ch, p));
    if i.None? then Unknown else ConsentAt(l.consent[i.value].row, now)
  }

  function SuppressionReading(l: Ledgers, a: string, ch: Channel, sender: Option<string>): Suppression {
    var i := Latest(l.suppression, SuppressionKept(a, ch, sender));
    if i.None? then Unsuppressed else l.suppression[i.value].row.state
  }

  function UsabilityReading(l: Ledgers, a: string): Usability {
    var i := Latest(l.usability, UsabilityKept(a));
    if i.None? then Proposed else l.usability[i.value].row.state
  }

  function ReachReading(l: Ledgers, a: string, ch: Channel, sender: Option<string>): Reach {
    var i := Latest(l.reach, ReachKept(a, ch, sender));
    if i.None? then Reachable else l.reach[i.value].row.state
  }

  datatype Reason =
    | AddressRetired | AddressNotUsable | Suppressed(state: Suppression) | ProviderUnreachable
    | ConsentExpired | ConsentWithdrawn | ConsentMissing | IsEligible

  /** Usability, suppression, reachability and consent are asked in that order; the first objection is the reason. */
  function Decision(l: Ledgers, a: string, ch: Channel, p: Purpose, sender: Option<string>, now: int): Reason {
    var usability := UsabilityReading(l, a);
    var suppression := SuppressionReading(l, a, ch, sender);
    var consent := ConsentReading(l, a, ch, p, now);
    if usability != Active then (if usability.Retired? then AddressRetired else AddressNotUsable)
    else if suppression != Unsuppressed then Suppressed(suppression)
    else if ReachReading(l, a, ch, sender) != Reachable then ProviderUnreachable
    else if consent != Granted then
      (match consent case Expired => ConsentExpired case Withdrawn => ConsentWithdrawn case _ => ConsentMissing)
    else IsEligible
  }

  // ----- writes ------------------------------------------------------------

  datatype Write =
    | AddAddress(address: string, channel: Channel)
    | GrantConsent(address: string, purpose: Purpose, evidence: Evidence, actor: Actor, scope: Option<Scope>, now: int)
    | ProposeConsent(address: string, purpose: Purpose, actor: Actor, scope: Option<Scope>, now: int)
    | OptOut(address: string, purpose: Purpose, actor: Actor, scope: Option<Scope>, now: int)
    | InboundStop(address: string, sender: Option<string>, body: Option<string>, actor: Actor, ttl: int, now: int)
    | Suppress(address: string, state: Suppression, actor: Actor, sender: Option<string>, now: int)
    | Lift(address: string, actor: Actor, sender: Option<string>, now: int)
    | ProposeAddress(address: string, actor: Actor, now: int)
    | Activate(address: string, actor: Actor, now: int)
    | Retire(address: string, retiredBy: Option<Actor>, now: int)
    | Restart(address: string, sender: Option<string>, now: int)
    | Purge(now: int)

  datatype Refusal =
    | AddressNotFound | AddressTaken | HumanDecisionRequired | AdministratorRequired | NotSuppressing
    | EvidenceRequired(missing: seq<Field>) | DeciderUnnamed

  predicate MayGrant(actor: Actor) {
    actor.kind.Human? && (ManageContacts in actor.authorities || Administer in actor.authorities)
  }

  /** The schema files no permissive row without the principal who decided it. */
  predicate Named(actor: Actor) { actor.principal.Some? }

  predicate MayLift(actor: Actor) { actor.kind.Human? && Administer in actor.authorities }

  function GrantingAuthority(actor: Actor): Authority {
    if Administer in actor.authorities then Administer else ManageContacts
  }

  /** The scope of a revocation: as configured until the duty's date, every topic from then on. */
  function RevocationScope(now: int, configured: Option<Scope>): Scope {
    if now >= CROSS_TOPIC_REVOCATION_EFFECTIVE then CrossTopic
    else if configured.Some? then configured.value else Program
  }

  function TopicOf(p: Purpose): Topic {
    match p
    case Marketing => Promotional
    case Utility => Operational
    case Transactional => Operational
    case Service => Operational
    case Authentication => Security
  }

  predicate Reaches(p: Purpose, scope: Scope, other: Purpose) {
    match scope
    case CrossTopic => true
    case OneTopic => TopicOf(other) == TopicOf(p)
    case Program => other == p
  }

  function Filtered(ps: seq<Purpose>, p: Purpose, scope: Scope): (kept: seq<Purpose>)
    ensures forall x :: x in kept <==> x in ps && Reaches(p, scope, x)
  {
    if ps == [] then []
    else (if Reaches(p, scope, ps[0]) then [ps[0]] else []) + Filtered(ps[1..], p, scope)
  }

  lemma AllPurposes()
    ensures forall p: Purpose :: p in PURPOSES
  {
    forall p: Purpose ensures p in PURPOSES {
      match p {
        case Marketing => assert PURPOSES[0] == p;
        case Utility => assert PURPOSES[1] == p;
        case Authentication => assert PURPOSES[2] == p;
        case Transactional => assert PURPOSES[3] == p;
        case Service => assert PURPOSES[4] == p;
      }
    }
  }

  function PurposesReachedBy(p: Purpose, scope: Scope): (ps: seq<Purpose>)
    ensures forall x :: x in ps <==> Reaches(p, scope, x)
  {
    AllPurposes();
    if scope.Program? then [p] else Filtered(PURPOSES, p, scope)
  }

  /** Who may make a write, and over what; the permissive ones need a named human authority. */
  function Objection(l: Ledgers, w: Write): Option<Refusal> {
    match w
    case AddAddress(a, _) => if a in l.addresses then Some(AddressTaken) else None
    case Purge(_) => None
    case GrantConsent(a, _, e, actor, _, _) =>
      if !MayGrant(actor) then Some(HumanDecisionRequired)
      else if !Complete(e) then Some(EvidenceRequired(MissingFields(e)))
      else if a !in l.addresses then Some(AddressNotFound)
      else if !Named(actor) then Some(DeciderUnnamed) else None
    case Suppress(a, state, _, _, _) =>
      if state.Unsuppressed? then Some(NotSuppressing)
      else if a !in l.addresses then Some(AddressNotFound) else None
    case Lift(a, actor, _, _) =>
      if !MayLift(actor) then Some(AdministratorRequired)
      else if a !in l.addresses then Some(AddressNotFound)
      else if !Named(actor) then Some(DeciderUnnamed) else None
    case Activate(a, actor, _) =>
      if !MayGrant(actor) then Some(HumanDecisionRequired)
      else if a !in l.addresses then Some(AddressNotFound)
      else if !Named(actor) then Some(DeciderUnnamed) else None
    case _ => if w.address !in l.addresses then Some(AddressNotFound) else None
  }

  function WithdrawnRow(a: string, ch: Channel, p: Purpose, actor: Actor, scope: Scope, body: Option<string>, expires: Option<int>)
    : ConsentRow
  {
    ConsentRow(a, ch, p, Withdrawn, actor, None, None, None, scope, body, expires, None)
  }

  function WithdrawEach(ps: seq<Purpose>, a: string, ch: Channel, actor: Actor, scope: Scope,
                        body: Option<string>, expires: Option<int>, now: int): seq<Entry<ConsentRow>>
  {
    seq(|ps|, i requires 0 <= i < |ps| => Entry(now, WithdrawnRow(a, ch, ps[i], actor, scope, body, expires)))
  }

  function NewConsent(l: Ledgers, w: Write): seq<Entry<ConsentRow>>
    requires Objection(l, w).None?
  {
    match w
    case GrantConsent(a, p, e, actor, scope, now) =>
      [Entry(now, ConsentRow(a, l.addresses[a], p, Granted, actor, Some(GrantingAuthority(actor)), Some(e), e.expiresAt,
                             RevocationScope(now, scope), None, None, None))]
    case ProposeConsent(a, p, actor, scope, now) =>
      [Entry(now, ConsentRow(a, l.addresses[a], p, PendingEvidence, actor, None, None, None,
                             RevocationScope(now, scope), None, None, None))]
    case OptOut(a, p, actor, configured, now) =>
      var scope := RevocationScope(now, configured);
      WithdrawEach(PurposesReachedBy(p, scope), a, l.addresses[a], actor, scope, None, None, now)
    case InboundStop(a, _, body, actor, ttl, now) =>
      WithdrawEach(PURPOSES, a, l.addresses[a], actor, CrossTopic, body,
                   if Present(body) then Some(now + ttl) else None, now)
    case _ => []
  }

  function NewSuppression(l: Ledgers, w: Write): seq<Entry<SuppressionRow>>
    requires Objection(l, w).None?
  {
    match w
    case InboundStop(a, sender, _, actor, _, now) =>
      [Entry(now, SuppressionRow(a, l.addresses[a], sender, ByOptOut, actor, None))]
    case Suppress(a, state, actor, sender, now) =>
      [Entry(now, SuppressionRow(a, l.addresses[a], sender, state, actor, None))]
    case Lift(a, actor, sender, now) =>
      [Entry(now, SuppressionRow(a, l.addresses[a], sender, Unsuppressed, actor, Some(Administer)))]
    case _ => []
  }

  function NewUsability(l: Ledgers, w: Write): seq<Entry<UsabilityRow>>
    requires Objection(l, w).None?
  {
    match w
    case ProposeAddress(a, actor, now) => [Entry(now, UsabilityRow(a, Proposed, Some(actor), None, None))]
    case Activate(a, actor, now) =>
      [Entry(now, UsabilityRow(a, Active, None, actor.principal, Some(GrantingAuthority(actor))))]
    case Retire(a, retiredBy, now) =>
      [Entry(now, UsabilityRow(a, Retired, None, if retiredBy.Some? then retiredBy.value.principal else None, None))]
    case _ => []
  }

  function NewReach(l: Ledgers, w: Write): seq<Entry<ReachRow>>
    requires Objection(l, w).None?
  {
    match w
    case InboundStop(a, sender, _, _, _, now) => [Entry(now, ReachRow(a, l.addresses[a], sender, Blocked))]
    case Restart(a, sender, now) => [Entry(now, ReachRow(a, l.addresses[a], sender, Reachable))]
    case _ => []
  }

  predicate Due(r: ConsentRow, now: int) {
    r.purgedAt.None? && r.body.Some? && r.contentExpires.Some? && r.contentExpires.value <= now
  }

  function Redacted(r: ConsentRow, now: int): ConsentRow { r.(body := None, purgedAt := Some(now)) }

  function PurgedConsent(ledger: seq<Entry<ConsentRow>>, now: int): seq<Entry<ConsentRow>> {
    seq(|ledger|, i requires 0 <= i < |ledger| =>
      if Due(ledger[i].row, now) then ledger[i].(row := Redacted(ledger[i].row, now)) else ledger[i])
  }

  /** One call as one transaction; a refused one writes nothing. */
  function Perform(l: Ledgers, w: Write): Ledgers {
    if Objection(l, w).Some? then l
    else
      match w
      case AddAddress(a, ch) => l.(addresses := l.addresses[a := ch])
      case Purge(now) => l.(consent := PurgedConsent(l.consent, now))
      case _ => Ledgers(l.addresses, l.consent + NewConsent(l, w), l.suppression + NewSuppression(l, w),
                        l.usability + NewUsability(l, w), l.reach + NewReach(l, w))
  }

  function PerformAll(l: Ledgers, ws: seq<Write>): Ledgers {
    if ws == [] then l else Perform(PerformAll(l, ws[..|ws| - 1]), ws[|ws| - 1])
  }
}
