/**
 * Listings and audiences, each bounded by the branches the asking principal
 * effectively holds view or campaign use on.
 */
module ContactsAccess {
  import opened Prelude
  import opened BranchTree
  import opened BranchMoves
  import opened BranchRepository
  import opened BranchPermissions
  import opened ContactListings
  import ConsentLedgers
  import ConsentRepository

  type Channel = ConsentLedgers.Channel
  type Purpose = ConsentLedgers.Purpose

  /** A segment's stored rule; pattern matching and the locale, channel and tag terms are one predicate each. */
  datatype Segment = Segment(scope: Id, root: Option<Id>, subtree: bool, status: string)

  datatype Listing = Contacts(rows: seq<Contact>) | GroupingNotFound | SegmentRuleInvalid

  datatype Audience = OneBranch(branch: Id) | OneList(members: set<string>) | OneSegment(segment: Option<Segment>)

  /** One address of a contact, in the order the address table lists them. */
  datatype Address = Address(id: string, channel: Channel, primary: bool)

  /** Why a contact falls out of an audience: nowhere to reach them, or the consent ledgers say no. */
  datatype Exclusion = NoAddress | Ineligible(why: ConsentLedgers.Reason)

  /** What an audience is assembled for. */
  datatype Send = Send(channel: Channel, purpose: Purpose, now: int)

  /** `name` is present only where the principal holds view; its absence is the redaction. */
  datatype Entry = Entry(id: string, reason: Option<Exclusion>, name: Option<string>)

  datatype Preview =
    | Denied
    | Failed(listing: Listing)
    | Preview(total: nat, eligible: nat, excluded: nat, reasons: map<Exclusion, nat>, entries: seq<Entry>, redacted: bool)

  const SEGMENT_SEARCH_LIMIT := 200

  /** The branches a rule covers: its root, and on request everything below. */
  function ScopeOf(t: Tree, root: Id, subtree: bool): set<Id>
    requires root in t
  {
    if subtree then Subtree(t, root) else {root}
  }

  /**
   * What a resolvable rule lists: the search inside scope and bound is cut off
   * at its limit first, and the rule's other terms filter what is left.
   */
  function Resolved(
    t: Tree, table: seq<Contact>, segment: Segment, bound: set<Id>, matches: string -> bool, rule: Contact -> bool)
    : seq<Contact>
  {
    if segment.scope in t && RootOf(segment) in t then
      Select(Found(table, ScopeOf(t, RootOf(segment), segment.subtree) * bound, segment.status, matches, SEGMENT_SEARCH_LIMIT), rule)
    else []
  }

  function RootOf(segment: Segment): Id { if segment.root.Some? then segment.root.value else segment.scope }

  /** Address `i` is on the channel, is its primary one unless the channel has none, and is the first such. */
  predicate Preferred(addresses: seq<Address>, channel: Channel, i: nat)
    requires i < |addresses|
  {
    addresses[i].channel == channel &&
    (!addresses[i].primary ==>
      forall j :: 0 <= j < |addresses| && addresses[j].channel == channel ==> !addresses[j].primary) &&
    forall j :: 0 <= j < i && addresses[j].channel == channel ==> addresses[i].primary && !addresses[j].primary
  }

  /** The address a send would use. */
  function Destination(addresses: seq<Address>, channel: Channel): (d: Option<string>)
    ensures d.None? <==> forall i :: 0 <= i < |addresses| ==> addresses[i].channel != channel
    ensures d.Some? ==> exists i :: 0 <= i < |addresses| && Preferred(addresses, channel, i) && addresses[i].id == d.value
  {
    var primary := FirstOn(addresses, (a: Address) => a.channel == channel && a.primary, 0);
    var any := FirstOn(addresses, (a: Address) => a.channel == channel, 0);
    if primary.Some? then
      assert Preferred(addresses, channel, primary.value);
      Some(addresses[primary.value].id)
    else if any.Some? then
      assert Preferred(addresses, channel, any.value);
      Some(addresses[any.value].id)
    else None
  }

  function FirstOn(addresses: seq<Address>, keep: Address -> bool, from: nat): (first: Option<nat>)
    requires from <= |addresses|
    ensures first.None? <==> forall i :: from <= i < |addresses| ==> !keep(addresses[i])
    ensures first.Some? ==> from <= first.value < |addresses| && keep(addresses[first.value])
    ensures first.Some? ==> forall i :: from <= i < first.value ==> !keep(addresses[i])
    decreases |addresses| - from
  {
    if from == |addresses| then None
    else if keep(addresses[from]) then Some(from)
    else FirstOn(addresses, keep, from + 1)
  }

  /** How many entries fell out for one reason. */
  function Tally(entries: seq<Entry>, reason: Exclusion): nat {
    if entries == [] then 0
    else Tally(entries[..|entries| - 1], reason) + (if entries[|entries| - 1].reason == Some(reason) then 1 else 0)
  }

  function Eligible(entries: seq<Entry>): nat {
    if entries == [] then 0
    else Eligible(entries[..|entries| - 1]) + (if entries[|entries| - 1].reason.None? then 1 else 0)
  }

  function Counts(reasons: map<Exclusion, nat>): map<Exclusion, int> { map r | r in reasons :: reasons[r] as int }

  /** Counters, histogram and entries tell one story. */
  ghost predicate Tallied(entries: seq<Entry>, eligible: nat, reasons: map<Exclusion, nat>) {
    eligible == Eligible(entries) && eligible <= |entries| &&
    (forall r :: r in reasons ==> reasons[r] == Tally(entries, r) && reasons[r] > 0) &&
    (forall r :: r !in reasons ==> Tally(entries, r) == 0) &&
    Total(Counts(reasons)) == |entries| - eligible
  }

  lemma TallyOfOneMore(entries: seq<Entry>, e: Entry)
    ensures Eligible(entries + [e]) == Eligible(entries) + (if e.reason.None? then 1 else 0)
    ensures forall r :: Tally(entries + [e], r) == Tally(entries, r) + (if e.reason == Some(r) then 1 else 0)
  {
    assert (entries + [e])[..|entries|] == entries;
  }

  lemma TalliedEligible(entries: seq<Entry>, eligible: nat, reasons: map<Exclusion, nat>, e: Entry)
    requires Tallied(entries, eligible, reasons) && e.reason.None?
    ensures Tallied(entries + [e], eligible + 1, reasons)
  {
    TallyOfOneMore(entries, e);
    hide Tally, Eligible;
  }

  lemma TalliedExcluded(entries: seq<Entry>, eligible: nat, reasons: map<Exclusion, nat>, e: Entry)
    requires Tallied(entries, eligible, reasons) && e.reason.Some?
    ensures var r := e.reason.value;
            Tallied(entries + [e], eligible, reasons[r := (if r in reasons then reasons[r] else 0) + 1])
  {
    TallyOfOneMore(entries, e);
    var r := e.reason.value;
    var n := (if r in reasons then reasons[r] else 0) + 1;
    hide Tally, Eligible;
    assert Counts(reasons[r := n]) == Counts(reasons)[r := n as int];
    TotalWrite(Counts(reasons), r, n as int);
  }

  lemma NothingTallied()
    ensures Tallied([], 0, map[])
  {
  }

  lemma TalliedTotals(entries: seq<Entry>, eligible: nat, reasons: map<Exclusion, nat>)
    requires Tallied(entries, eligible, reasons)
    ensures eligible <= |entries| && Total(Counts(reasons)) == |entries| - eligible
  {
  }

  class Access {
    const permissions: BranchPermissionsRepository
    /** Absent where no ledger is attached; nobody is then excluded on consent. */
    const consent: ConsentRepository.ContactsConsentRepository?
    /** The contacts table in display-name order. */
    var table: seq<Contact>
    var addresses: map<string, seq<Address>>

    constructor (
      permissions: BranchPermissionsRepository, consent: ConsentRepository.ContactsConsentRepository?,
      table: seq<Contact>, addresses: map<string, seq<Address>>)
      ensures this.permissions == permissions && this.consent == consent
      ensures this.table == table && this.addresses == addresses
    {
      this.permissions, this.consent, this.table, this.addresses := permissions, consent, table, addresses;
    }

    ghost function AddressesOf(c: Contact): seq<Address>
      reads this
    {
      if c.id in addresses then addresses[c.id] else []
    }

    /** Excluded for want of an address, or for the reason the four ledgers give; `None` is eligible. */
    ghost function ExclusionOf(c: Contact, send: Send): Option<Exclusion>
      reads this, consent
    {
      var d := Destination(AddressesOf(c), send.channel);
      if d.None? then Some(NoAddress)
      else if consent == null then None
      else
        var why := ConsentLedgers.Decision(consent.State(), d.value, send.channel, send.purpose, None, send.now);
        if why == ConsentLedgers.IsEligible then None else Some(Ineligible(why))
    }

    /**
     * A contact is eligible exactly when it has an address on the channel and the
     * ledgers, if any are attached, find that address eligible on no sender in
     * particular; otherwise the exclusion says which of the two failed and why.
     */
    lemma ExclusionMeans(c: Contact, send: Send)
      ensures var rows := if c.id in addresses then addresses[c.id] else [];
              var none := forall i :: 0 <= i < |rows| ==> rows[i].channel != send.channel;
              var out := ExclusionOf(c, send);
              (out == Some(NoAddress) <==> none) &&
              (!none && consent == null ==> out == None) &&
              (!none && consent != null ==>
                exists i :: 0 <= i < |rows| && Preferred(rows, send.channel, i) &&
                  var why := ConsentLedgers.Decision(consent.State(), rows[i].id, send.channel, send.purpose, None, send.now);
                  (out == None <==> why == ConsentLedgers.IsEligible) &&
                  (why != ConsentLedgers.IsEligible ==> out == Some(Ineligible(why))))
    {
      var rows := AddressesOf(c);
      var d := Destination(rows, send.channel);
      hide Preferred, Destination;
    }

    ghost predicate Ready()
      reads this, permissions, permissions.contacts
    {
      Valid(permissions.contacts.branches)
    }

    ghost predicate MayOn(principal: string, branch: Id, d: Dimension)
      requires Ready()
      reads this, permissions, permissions.contacts
    {
      Holds(permissions.contacts.branches, permissions.perms, principal, branch, d)
    }

    /** Positions of the active contacts that match a query and sit where the principal holds view. */
    ghost function Searched(principal: string, matches: string -> bool): set<nat>
      requires Ready()
      reads this, permissions, permissions.contacts
    {
      set k: nat | k < |table| && table[k].status == "active" && matches(table[k].name) && MayOn(principal, table[k].branch, View)
    }

    /** The first matches under view in the table's order; nothing else is returned, and nothing dropped but by the limit. */
    method Search(principal: string, matches: string -> bool, limit: nat) returns (rows: seq<Contact>)
      requires Ready()
      ensures FirstOf(table, Searched(principal, matches), limit, rows)
      ensures forall c :: c in rows ==>
        c in table && c.status == "active" && matches(c.name) && MayOn(principal, c.branch, View)
      ensures |rows| < limit ==>
        forall c :: c in table && c.status == "active" && matches(c.name) && MayOn(principal, c.branch, View) ==> c in rows
    {
      hide Holds, Valid;
      var visible := permissions.AuthorizedBranches(principal, View);
      ghost var wanted :=
        set k: nat | k < |table| && table[k].status == "active" && matches(table[k].name) && table[k].branch in visible;
      assert wanted == Searched(principal, matches);
      hide Searched;
      if visible == {} {
        assert StandAt(table, wanted, [], []);
        return [];
      }
      rows := Found(table, visible, "active", matches, limit);
      FoundIsFirst(table, visible, "active", matches, limit);
      hide FirstOf;
    }

    /** `list_members` and `tagged_contacts`: of the named people, those in branches under view. */
    method Members(principal: string, ids: set<string>) returns (rows: seq<Contact>)
      requires Ready()
      ensures forall c :: c in rows <==> c in table && c.id in ids && MayOn(principal, c.branch, View)
      ensures AllOf(table, Listed(ids, Where(principal, View)), rows)
    {
      hide Holds, Valid;
      var visible := permissions.AuthorizedBranches(principal, View);
      AuthorizedIsWhere(principal, View, visible);
      rows := Select(table, (c: Contact) => c.id in ids && c.branch in visible);
      SelectIsAll(table, (c: Contact) => c.id in ids && c.branch in visible);
      assert Kept(table, (c: Contact) => c.id in ids && c.branch in visible) == Listed(ids, visible);
      hide AllOf;
    }

    /** The branches on which the principal holds a dimension. */
    ghost function Where(principal: string, d: Dimension): set<Id>
      requires Ready()
      reads this, permissions, permissions.contacts
    {
      set b | b in permissions.contacts.branches && MayOn(principal, b, d)
    }

    lemma AuthorizedIsWhere(principal: string, d: Dimension, allowed: set<Id>)
      requires Ready()
      requires forall b :: b in allowed <==> Holds(permissions.contacts.branches, permissions.perms, principal, b, d)
      ensures allowed == Where(principal, d)
      ensures forall b :: b in allowed <==> MayOn(principal, b, d)
    {
      hide Valid, Nearest, DecisionsFor;
    }

    /** Positions of the named people inside a bound. */
    ghost function Listed(ids: set<string>, bound: set<Id>): set<nat>
      reads this
    {
      set k: nat | k < |table| && table[k].id in ids && table[k].branch in bound
    }

    /** Positions a segment's search runs over: inside its bound, at its root or on request below it. */
    ghost function SegmentRange(segment: Segment, bound: set<Id>, matches: string -> bool): set<nat>
      requires Ready()
      reads this, permissions, permissions.contacts
    {
      var t := permissions.contacts.branches;
      var root := if segment.root.Some? then segment.root.value else segment.scope;
      set k: nat | k < |table| && table[k].status == segment.status && matches(table[k].name) && table[k].branch in bound &&
                   table[k].branch in t &&
                   (table[k].branch == root || (segment.subtree && AtOrAbove(t, table[k].branch, root)))
    }

    /** What a segment lists: of the first 200 in its range those that meet its other terms; nobody where a branch is missing. */
    ghost predicate SegmentRows(
      segment: Segment, bound: set<Id>, matches: string -> bool, rule: Contact -> bool, rows: seq<Contact>)
      requires Ready()
      reads this, permissions, permissions.contacts
    {
      var t := permissions.contacts.branches;
      if segment.scope !in t || (segment.root.Some? && segment.root.value !in t) then rows == []
      else exists found ::
        FirstOf(table, SegmentRange(segment, bound, matches), 200, found) &&
        AllOf(found, (set k: nat | k < |found| && rule(found[k])), rows)
    }

    lemma ResolvedMeans(segment: Segment, bound: set<Id>, matches: string -> bool, rule: Contact -> bool)
      requires Ready()
      ensures SegmentRows(
                segment, bound, matches, rule, Resolved(permissions.contacts.branches, table, segment, bound, matches, rule))
    {
      var t := permissions.contacts.branches;
      var root := RootOf(segment);
      if segment.scope in t && root in t {
        var scoped := ScopeOf(t, root, segment.subtree) * bound;
        forall x | x in t ensures x in Subtree(t, root) <==> AtOrAbove(t, x, root) { PrefixScanIsDescendants(t, x, root); }
        hide Valid, InSubtree;
        RangeMeans(segment, bound, matches, scoped);
        hide FirstOf, SegmentRange, AllOf, ScopeOf;
        var found := Found(table, scoped, segment.status, matches, SEGMENT_SEARCH_LIMIT);
        FoundIsFirst(table, scoped, segment.status, matches, SEGMENT_SEARCH_LIMIT);
        SelectIsAll(found, rule);
        assert Kept(found, rule) == set k: nat | k < |found| && rule(found[k]);
      }
    }

    lemma RangeMeans(segment: Segment, bound: set<Id>, matches: string -> bool, scoped: set<Id>)
      requires Ready() && RootOf(segment) in permissions.contacts.branches
      requires scoped == ScopeOf(permissions.contacts.branches, RootOf(segment), segment.subtree) * bound
      requires forall x :: x in permissions.contacts.branches ==>
                 (x in Subtree(permissions.contacts.branches, RootOf(segment)) <==>
                  AtOrAbove(permissions.contacts.branches, x, RootOf(segment)))
      ensures SegmentRange(segment, bound, matches) ==
              set k: nat | k < |table| && table[k].status == segment.status && matches(table[k].name) && table[k].branch in scoped
    {
      hide Valid, InSubtree, Below;
    }

    method ResolveSegment(principal: string, segment: Option<Segment>, matches: string -> bool, rule: Contact -> bool)
      returns (listing: Listing)
      requires Ready()
      ensures listing.GroupingNotFound? <==> segment.None?
      ensures listing.Contacts? ==> forall c :: c in listing.rows ==>
        c in table && MayOn(principal, c.branch, View) && rule(c) && matches(c.name) && c.status == segment.value.status
      ensures listing.Contacts? && listing.rows != [] ==>
        var t := permissions.contacts.branches;
        segment.value.scope in t && forall c :: c in listing.rows ==> c.branch in t && AtOrAbove(t, c.branch, segment.value.scope)
      ensures listing.Contacts? ==> SegmentRows(segment.value, Where(principal, View), matches, rule, listing.rows)
      ensures listing.SegmentRuleInvalid? <==> OutsideScope(segment)
    {
      var visible := permissions.AuthorizedBranches(principal, View);
      AuthorizedIsWhere(principal, View, visible);
      hide Valid, SegmentRows, OutsideScope, Where;
      listing := ResolveWithin(segment, visible, matches, rule);
    }

    /** The rule's root is on file and not at or below the segment's own branch. */
    ghost predicate OutsideScope(segment: Option<Segment>)
      requires Ready()
      reads this, permissions, permissions.contacts
    {
      var t := permissions.contacts.branches;
      segment.Some? && segment.value.scope in t && segment.value.root.Some? && segment.value.root.value in t &&
      !AtOrAbove(t, segment.value.root.value, segment.value.scope)
    }

    /** The rule's root must lie at or below the segment's own branch; what lies elsewhere is refused or not there. */
    method ResolveWithin(segment: Option<Segment>, bound: set<Id>, matches: string -> bool, rule: Contact -> bool)
      returns (listing: Listing)
      requires Ready()
      ensures listing.GroupingNotFound? <==> segment.None?
      ensures listing.SegmentRuleInvalid? <==> OutsideScope(segment)
      ensures listing.Contacts? ==> SegmentRows(segment.value, bound, matches, rule, listing.rows)
      ensures listing.Contacts? ==> forall c :: c in listing.rows ==>
        c in table && c.branch in bound && rule(c) && matches(c.name) && c.status == segment.value.status
      ensures listing.Contacts? && listing.rows != [] ==>
        var t := permissions.contacts.branches;
        segment.value.scope in t && forall c :: c in listing.rows ==> c.branch in t && AtOrAbove(t, c.branch, segment.value.scope)
    {
      if segment.None? { return GroupingNotFound; }
      ResolvedMeans(segment.value, bound, matches, rule);
      hide SegmentRows;
      var t := permissions.contacts.branches;
      var root, scope := RootOf(segment.value), segment.value.scope;
      if root !in t || scope !in t { return Contacts([]); }
      PrefixScanIsDescendants(t, root, scope);
      if t[root].path != t[scope].path && !Within(t[root].path, t[scope].path) { return SegmentRuleInvalid; }
      forall x | x in ScopeOf(t, root, segment.value.subtree) ensures AtOrAbove(t, x, scope) {
        PrefixScanIsDescendants(t, x, root);
        StaysBelow(t, x, root, scope);
      }
      var scoped := ScopeOf(t, root, segment.value.subtree) * bound;
      var rows := Found(table, scoped, segment.value.status, matches, SEGMENT_SEARCH_LIMIT);
      listing := Contacts(Select(rows, rule));
    }

    /** The contact belongs to the audience that was named. */
    ghost predicate InAudience(c: Contact, audience: Audience, matches: string -> bool, rule: Contact -> bool)
      requires Ready()
      reads this, permissions, permissions.contacts
    {
      var t := permissions.contacts.branches;
      c in table &&
      match audience
      case OneList(members) => c.id in members
      case OneBranch(branch) => branch in t && c.branch in t && AtOrAbove(t, c.branch, branch)
      case OneSegment(segment) =>
        segment.Some? && segment.value.scope in t && c.branch in t && AtOrAbove(t, c.branch, segment.value.scope) &&
        rule(c) && matches(c.name) && c.status == segment.value.status
    }

    method AudiencePreview(
      principal: string, audience: Audience, matches: string -> bool, rule: Contact -> bool, send: Send, limit: nat)
      returns (preview: Preview)
      requires Ready()
      ensures preview.Denied? <==>
        (forall b :: !MayOn(principal, b, CampaignUse)) ||
        (audience.OneBranch? && !MayOn(principal, audience.branch, CampaignUse))
      ensures preview.Preview? ==>
        preview.total == |preview.entries| && preview.excluded == preview.total - preview.eligible &&
        Tallied(preview.entries, preview.eligible, preview.reasons) &&
        Total(Counts(preview.reasons)) == preview.excluded
      ensures preview.Preview? ==>
        forall e :: e in preview.entries ==> Faithful(e, principal, audience, matches, rule, send)
      ensures preview.Preview? ==> (preview.redacted <==> exists e :: e in preview.entries && e.name.None?)
      ensures preview.Preview? ==> exists members ::
        AudienceRows(Where(principal, CampaignUse), audience, matches, rule, limit, members) &&
        EntriesOf(preview.entries, members, Where(principal, View), send)
      ensures preview.Failed? ==> audience.OneSegment?
      ensures preview.Failed? ==> preview.listing == if audience.segment.None? then GroupingNotFound else SegmentRuleInvalid
    {
      hide Valid, Holds, Tallied, ExclusionOf, InAudience, AudienceRows, EntryFor, Below, Faithful, EntriesOf, Where;
      var targetable := permissions.AuthorizedBranches(principal, CampaignUse);
      AuthorizedIsWhere(principal, CampaignUse, targetable);
      if targetable == {} || (audience.OneBranch? && audience.branch !in targetable) { return Denied; }
      ghost var held :| held in targetable;
      var viewable := permissions.AuthorizedBranches(principal, View);
      AuthorizedIsWhere(principal, View, viewable);
      var listing := AudienceMembers(targetable, audience, matches, rule, limit);
      assert MayOn(principal, held, CampaignUse);
      assert audience.OneBranch? ==> MayOn(principal, audience.branch, CampaignUse);
      if !listing.Contacts? { return Failed(listing); }
      var entries, eligible, reasons := Project(listing.rows, viewable, send);
      assert EntriesOf(entries, listing.rows, viewable, send) by { EachIsEntry(entries, listing.rows, viewable, send); }
      EntriesAreFaithful(entries, listing.rows, viewable, principal, audience, matches, rule, send);
      TalliedTotals(entries, eligible, reasons);
      assert AudienceRows(Where(principal, CampaignUse), audience, matches, rule, limit, listing.rows);
      assert MayOn(principal, held, CampaignUse);
      assert audience.OneBranch? ==> MayOn(principal, audience.branch, CampaignUse);
      preview := Preview(|entries|, eligible, |entries| - eligible, reasons, entries, exists e :: e in entries && e.name.None?);
    }

    lemma EachIsEntry(entries: seq<Entry>, members: seq<Contact>, viewable: set<Id>, send: Send)
      requires |entries| == |members| && forall i :: 0 <= i < |members| ==> entries[i] == EntryFor(members[i], viewable, send)
      ensures EntriesOf(entries, members, viewable, send)
    {
    }

    lemma EntriesAreFaithful(
      entries: seq<Entry>, members: seq<Contact>, viewable: set<Id>, principal: string, audience: Audience,
      matches: string -> bool, rule: Contact -> bool, send: Send)
      requires Ready() && EntriesOf(entries, members, viewable, send)
      requires forall b :: b in viewable <==> MayOn(principal, b, View)
      requires forall c :: c in members ==> InAudience(c, audience, matches, rule) && MayOn(principal, c.branch, CampaignUse)
      ensures forall e :: e in entries ==> Faithful(e, principal, audience, matches, rule, send)
    {
      hide Valid, Holds, ExclusionOf, InAudience;
      forall e | e in entries ensures Faithful(e, principal, audience, matches, rule, send) {
        var i :| 0 <= i < |entries| && entries[i] == e;
        assert members[i] in members;
      }
    }

    /**
     * An entry speaks of a contact of the named audience in a campaign-use branch,
     * excludes it exactly as the ledgers decide, and names it only under view.
     */
    ghost predicate Faithful(
      e: Entry, principal: string, audience: Audience, matches: string -> bool, rule: Contact -> bool, send: Send)
      requires Ready()
      reads this, permissions, permissions.contacts, consent
    {
      exists c :: InAudience(c, audience, matches, rule) && c.id == e.id && MayOn(principal, c.branch, CampaignUse) &&
                  e.reason == ExclusionOf(c, send) &&
                  e.name == if MayOn(principal, c.branch, View) then Some(c.name) else None
    }

    /** Who an audience lists: all of a list, a segment's rows, or the first active ones at or below a branch. */
    ghost predicate AudienceRows(
      targetable: set<Id>, audience: Audience, matches: string -> bool, rule: Contact -> bool, limit: nat, rows: seq<Contact>)
      requires Ready()
      reads this, permissions, permissions.contacts
    {
      match audience
      case OneList(members) => AllOf(table, Listed(members, targetable), rows)
      case OneSegment(segment) => segment.Some? && SegmentRows(segment.value, targetable, matches, rule, rows)
      case OneBranch(branch) => FirstOf(table, BranchRange(branch, targetable), limit, rows)
    }

    /** Positions of the active contacts at or below a branch, inside a bound. */
    ghost function BranchRange(branch: Id, bound: set<Id>): set<nat>
      requires Ready()
      reads this, permissions, permissions.contacts
    {
      var t := permissions.contacts.branches;
      set k: nat | k < |table| && table[k].status == "active" && table[k].branch in bound && branch in t &&
                   table[k].branch in t && AtOrAbove(t, table[k].branch, branch)
    }

    /** One line per member, in their order. */
    ghost predicate EntriesOf(entries: seq<Entry>, members: seq<Contact>, viewable: set<Id>, send: Send)
      reads this, consent
    {
      |entries| == |members| && forall i :: 0 <= i < |members| ==> entries[i] == EntryFor(members[i], viewable, send)
    }

    /** Everyone named by the list, segment or branch subtree, as far as the targetable branches reach. */
    method AudienceMembers(
      targetable: set<Id>, audience: Audience, matches: string -> bool, rule: Contact -> bool, limit: nat)
      returns (listing: Listing)
      requires Ready()
      ensures listing.Contacts? ==>
        forall c :: c in listing.rows ==> InAudience(c, audience, matches, rule) && c.branch in targetable
      ensures listing.Contacts? ==> AudienceRows(targetable, audience, matches, rule, limit, listing.rows)
      ensures audience.OneSegment? ==>
        (listing.GroupingNotFound? <==> audience.segment.None?) && (listing.SegmentRuleInvalid? <==> OutsideScope(audience.segment))
      ensures audience.OneList? ==> listing.Contacts?
      ensures audience.OneList? ==>
        forall c :: c in table && c.id in audience.members && c.branch in targetable ==> c in listing.rows
      ensures audience.OneBranch? ==> listing.Contacts?
      ensures audience.OneBranch? && |listing.rows| < limit ==>
        forall c :: InAudience(c, audience, matches, rule) && c.branch in targetable && c.status == "active" ==> c in listing.rows
    {
      match audience {
        case OneList(members) =>
          listing := Contacts(Select(table, (c: Contact) => c.id in members && c.branch in targetable));
          SelectIsAll(table, (c: Contact) => c.id in members && c.branch in targetable);
          assert Kept(table, (c: Contact) => c.id in members && c.branch in targetable) == Listed(members, targetable);
        case OneSegment(segment) =>
          listing := ResolveWithin(segment, targetable, matches, rule);
        case OneBranch(branch) =>
          var t := permissions.contacts.branches;
          if branch !in t {
            assert StandAt(table, BranchRange(branch, targetable), [], []);
            return Contacts([]);
          }
          forall x | x in t ensures x in Subtree(t, branch) <==> AtOrAbove(t, x, branch) {
            PrefixScanIsDescendants(t, x, branch);
          }
          hide Valid, InSubtree, Below;
          var scoped := Subtree(t, branch) * targetable;
          FoundIsFirst(table, scoped, "active", name => true, limit);
          assert BranchRange(branch, targetable) ==
                 set k: nat | k < |table| && table[k].status == "active" && (name => true)(table[k].name) && table[k].branch in scoped;
          listing := Contacts(Found(table, scoped, "active", name => true, limit));
      }
    }

    /** The address a contact would be reached at: filter by channel, then the first primary one, then the first. */
    method DestinationOf(c: Contact, channel: Channel) returns (found: Option<string>)
      ensures found == Destination(AddressesOf(c), channel)
    {
      if c.id !in addresses { return None; }
      var rows := addresses[c.id];
      var first: Option<nat> := None;
      var i := 0;
      while i < |rows|
        invariant 0 <= i <= |rows|
        invariant forall j :: 0 <= j < i ==> !(rows[j].channel == channel && rows[j].primary)
        invariant first.None? ==> forall j :: 0 <= j < i ==> rows[j].channel != channel
        invariant first.Some? ==> first.value < i && rows[first.value].channel == channel
        invariant first.Some? ==> forall j :: 0 <= j < first.value ==> rows[j].channel != channel
      {
        if rows[i].channel == channel {
          if rows[i].primary { return Some(rows[i].id); }
          if first.None? { first := Some(i); }
        }
        i := i + 1;
      }
      return if first.None? then None else Some(rows[first.value].id);
    }

    method ExclusionReason(c: Contact, send: Send) returns (reason: Option<Exclusion>)
      ensures reason == ExclusionOf(c, send)
    {
      var d := DestinationOf(c, send.channel);
      if d.None? { return Some(NoAddress); }
      if consent == null { return None; }
      var eligible, why := consent.EvaluateEligibility(d.value, send.channel, send.purpose, None, send.now);
      return if eligible then None else Some(Ineligible(why));
    }

    /** One line of a preview. */
    ghost function EntryFor(c: Contact, viewable: set<Id>, send: Send): Entry
      reads this, consent
    {
      Entry(c.id, ExclusionOf(c, send), if c.branch in viewable then Some(c.name) else None)
    }

    method OneEntry(c: Contact, viewable: set<Id>, send: Send) returns (e: Entry)
      ensures e == EntryFor(c, viewable, send)
    {
      hide ExclusionOf;
      var reason := ExclusionReason(c, send);
      e := Entry(c.id, reason, if c.branch in viewable then Some(c.name) else None);
    }

    /** The loop that counts and classifies each member, and withholds the names view does not cover. */
    method Project(members: seq<Contact>, viewable: set<Id>, send: Send)
      returns (entries: seq<Entry>, eligible: nat, reasons: map<Exclusion, nat>)
      ensures Tallied(entries, eligible, reasons) && |entries| == |members|
      ensures forall i :: 0 <= i < |members| ==> entries[i] == EntryFor(members[i], viewable, send)
    {
      hide Tallied, EntryFor;
      entries, eligible, reasons := [], 0, map[];
      NothingTallied();
      var i := 0;
      while i < |members|
        invariant 0 <= i <= |members| && |entries| == i
        invariant Tallied(entries, eligible, reasons)
        invariant forall j :: 0 <= j < i ==> entries[j] == EntryFor(members[j], viewable, send)
      {
        var e := OneEntry(members[i], viewable, send);
        if e.reason.None? {
          TalliedEligible(entries, eligible, reasons, e);
          eligible := eligible + 1;
        } else {
          TalliedExcluded(entries, eligible, reasons, e);
          var r := e.reason.value;
          reasons := reasons[r := (if r in reasons then reasons[r] else 0) + 1];
        }
        entries := entries + [e];
        i := i + 1;
      }
    }
  }

  lemma {:induction false} StaysBelow(t: Tree, x: Id, mid: Id, top: Id)
    requires Valid(t) && x in t && mid in t && AtOrAbove(t, x, mid) && AtOrAbove(t, mid, top)
    ensures AtOrAbove(t, x, top)
    decreases t[x].depth
  {
    if x != mid {
      AboveIsShallower(t, x);
      BelowThroughParent(t, x, mid);
      BelowThroughParent(t, x, top);
      StaysBelow(t, t[x].parent.value, mid, top);
    }
  }
}
