/**
 * Provider callbacks arrive out of order and more than once; the verdict kept
 * per effect must not depend on that.
 */
module TwilioEvents {
  import opened Prelude

  datatype Status =
    | Accepted | Queued | Sending | Sent | Ringing | Delivered | Read | Undelivered | Failed | Canceled
    | Completed | Busy | NoAnswer | Other(name: string)

  function Rank(s: Status): nat {
    match s
    case Accepted => 10
    case Queued => 20
    case Sending => 30
    case Sent => 40
    case Ringing => 40
    case Read => 110
    case Other(_) => 0
    case _ => 100
  }

  predicate Terminal(s: Status) { Rank(s) >= 100 }

  datatype Verdict = Verdict(status: Status, rank: nat, terminal: bool)

  datatype Delivery = Delivery(key: string, effect: Option<string>, status: Option<Status>)

  datatype Book = Book(events: map<string, Delivery>, verdicts: map<string, Verdict>)

  const EMPTY := Book(map[], map[])

  /** An empty effect id or status moves no verdict. */
  predicate Moves(d: Delivery) {
    d.effect.Some? && d.effect.value != "" && d.status.Some? && d.status.value != Other("")
  }

  function VerdictFor(s: Status): Verdict { Verdict(s, Rank(s), Terminal(s)) }

  /** `_advance_verdict`: a final fact stays, except that read may follow delivered; rank never falls. */
  function Advance(current: Option<Verdict>, s: Status): Verdict {
    if current.None? then VerdictFor(s)
    else if current.value.terminal then
      if current.value.status == Delivered && s == Read then VerdictFor(s) else current.value
    else if Rank(s) < current.value.rank then current.value
    else VerdictFor(s)
  }

  function At(verdicts: map<string, Verdict>, e: string): Option<Verdict> {
    if e in verdicts then Some(verdicts[e]) else None
  }

  function Recorded(b: Book, d: Delivery): Book {
    if d.key in b.events then b
    else
      Book(b.events[d.key := d],
           if Moves(d) then b.verdicts[d.effect.value := Advance(At(b.verdicts, d.effect.value), d.status.value)]
           else b.verdicts)
  }

  function RecordedAll(ds: seq<Delivery>): Book {
    if ds == [] then EMPTY else Recorded(RecordedAll(ds[..|ds| - 1]), ds[|ds| - 1])
  }

  /** Progress runs from accepted to sent or ringing, then to a final fact; read is beyond delivered, unknown words before all. */
  lemma RanksMean(s: Status)
    ensures Rank(Accepted) == 10 && Rank(Queued) == 20 && Rank(Sending) == 30 && Rank(Sent) == 40 && Rank(Ringing) == 40
    ensures Terminal(s) <==>
              s in {Delivered, Read, Undelivered, Failed, Canceled, Completed, Busy, NoAnswer}
    ensures Terminal(s) ==> Rank(s) == if s == Read then 110 else 100
    ensures s.Other? ==> Rank(s) == 0
  {
  }

  /** A first status stands; later ones replace a running one unless they lie behind it, and of the final ones only delivered moves on, to read. */
  lemma AdvanceMeans(v: Status, s: Status)
    ensures Advance(None, s).status == s
    ensures Advance(Some(VerdictFor(v)), s).status ==
              if v in {Read, Undelivered, Failed, Canceled, Completed, Busy, NoAnswer} then v
              else if v == Delivered then (if s == Read then Read else Delivered)
              else if Rank(s) < Rank(v) then v else s
    ensures Advance(Some(VerdictFor(v)), s) == VerdictFor(Advance(Some(VerdictFor(v)), s).status)
  {
    RanksMean(v);
  }

  /** Only an event with an effect and a status moves a verdict, and only that effect's. */
  lemma RecordedMeans(b: Book, d: Delivery, e: string)
    ensures var after := Recorded(b, d);
            d.key in after.events && (d.key in b.events ==> after == b) &&
            At(after.verdicts, e) ==
              if d.key !in b.events && e != "" && d.effect == Some(e) && d.status.Some? && d.status.value != Other("")
              then Some(Advance(At(b.verdicts, e), d.status.value)) else At(b.verdicts, e)
  {
  }

  class TwilioEventRepository {
    var events: map<string, Delivery>
    var verdicts: map<string, Verdict>

    ghost function State(): Book
      reads this
    {
      Book(events, verdicts)
    }

    constructor ()
      ensures State() == EMPTY
    {
      events, verdicts := map[], map[];
    }

    /** Insert-or-ignore by event key; only a fresh insert may move the verdict. */
    method Record(d: Delivery) returns (inserted: bool)
      modifies this
      ensures State() == Recorded(old(State()), d)
      ensures inserted <==> d.key !in old(events)
    {
      if d.key in events { return false; }
      events := events[d.key := d];
      if d.effect.Some? && d.effect.value != "" && d.status.Some? && d.status.value != Other("") {
        AdvanceVerdict(d.effect.value, d.status.value);
      }
      return true;
    }

    method AdvanceVerdict(e: string, s: Status)
      modifies this`verdicts
      ensures verdicts == old(verdicts)[e := Advance(At(old(verdicts), e), s)]
    {
      if e in verdicts {
        var current := verdicts[e];
        if current.terminal {
          if !(current.status == Delivered && s == Read) {
            assert verdicts == verdicts[e := current];
            return;
          }
        } else if Rank(s) < current.rank {
          assert verdicts == verdicts[e := current];
          return;
        }
      }
      verdicts := verdicts[e := Verdict(s, Rank(s), Terminal(s))];
    }
  }

  // ----- every run ---------------------------------------------------------

  /** From one verdict to a later one: rank never falls, and a final fact changes only from delivered to read. */
  predicate NonRegressing(before: Verdict, after: Verdict) {
    before.rank <= after.rank && (before.terminal && after != before ==> before.status == Delivered && after.status == Read)
  }

  predicate Sane(v: Verdict) { v == VerdictFor(v.status) }

  lemma {:induction false} VerdictsAreSane(ds: seq<Delivery>, e: string)
    ensures e in RecordedAll(ds).verdicts ==> Sane(RecordedAll(ds).verdicts[e])
  {
    if ds != [] { VerdictsAreSane(ds[..|ds| - 1], e); }
  }

  /** Whatever is delivered after a verdict exists, it only moves forward. */
  lemma {:induction false} VerdictsNeverRegress(ds: seq<Delivery>, n: nat, e: string)
    requires n <= |ds| && e in RecordedAll(ds[..n]).verdicts
    ensures e in RecordedAll(ds).verdicts
    ensures NonRegressing(RecordedAll(ds[..n]).verdicts[e], RecordedAll(ds).verdicts[e])
    decreases |ds|
  {
    if n == |ds| {
      assert ds[..n] == ds;
    } else {
      var before := ds[..|ds| - 1];
      assert before[..n] == ds[..n];
      VerdictsNeverRegress(before, n, e);
      VerdictsAreSane(before, e);
      VerdictsAreSane(ds[..n], e);
    }
  }

  // ----- order and duplication ---------------------------------------------

  /** A redelivery of a key repeats the same event. */
  predicate Consistent(ds: seq<Delivery>) {
    forall i, j :: 0 <= i < |ds| && 0 <= j < |ds| && ds[i].key == ds[j].key ==> ds[i] == ds[j]
  }

  function StatusesOf(ds: seq<Delivery>, e: string): set<Status> {
    set d | d in ds && Moves(d) && d.effect == Some(e) :: d.status.value
  }

  predicate HasTerminal(ss: set<Status>) { exists s :: s in ss && Terminal(s) }

  /** All terminal statuses equal, or only delivered and read among them. */
  predicate TerminalsAgree(ss: set<Status>) {
    (forall s, t :: s in ss && t in ss && Terminal(s) && Terminal(t) ==> s == t) ||
    (forall s :: s in ss && Terminal(s) ==> s == Delivered || s == Read)
  }

  /** The verdict a set of statuses settles on, whatever order they came in. */
  predicate Settles(ss: set<Status>, v: Option<Verdict>) {
    (v.None? <==> ss == {}) &&
    (v.Some? ==> v.value.status in ss && Sane(v.value)) &&
    (v.Some? && !HasTerminal(ss) ==> forall s :: s in ss ==> Rank(s) <= v.value.rank) &&
    (v.Some? && HasTerminal(ss) ==> v.value.terminal) &&
    (v.Some? && HasTerminal(ss) && TerminalsAgree(ss) && Read in ss ==> v.value.status == Read)
  }

  lemma OneMoreSettles(ss: set<Status>, v: Option<Verdict>, s: Status)
    requires Settles(ss, v)
    ensures Settles(ss + {s}, Some(Advance(v, s)))
  {
    var all := ss + {s};
    assert forall x :: x in all <==> x in ss || x == s;
    assert s in all;
    if TerminalsAgree(all) { assert TerminalsAgree(ss); }
    if HasTerminal(ss) { var x :| x in ss && Terminal(x); assert x in all; }
    assert HasTerminal(all) <==> HasTerminal(ss) || Terminal(s);
    if HasTerminal(all) && TerminalsAgree(all) && Read in all && v.Some? && v.value.terminal {
      assert v.value.status in all && Terminal(v.value.status);
      assert v.value.status == Read || v.value.status == Delivered;
    }
  }

  lemma {:induction false} RunSettles(ds: seq<Delivery>, e: string)
    requires Consistent(ds)
    ensures Settles(StatusesOf(ds, e), At(RecordedAll(ds).verdicts, e))
    ensures forall k :: k in RecordedAll(ds).events <==> exists d :: d in ds && d.key == k
    decreases |ds|
  {
    if ds != [] {
      var before, d := ds[..|ds| - 1], ds[|ds| - 1];
      RunSettles(before, e);
      assert ds == before + [d];
      var b := RecordedAll(before);
      if d.key in b.events {
        var x :| x in before && x.key == d.key;
        assert x == d;
        assert StatusesOf(ds, e) == StatusesOf(before, e);
      } else if Moves(d) && d.effect == Some(e) {
        assert StatusesOf(ds, e) == StatusesOf(before, e) + {d.status.value};
        OneMoreSettles(StatusesOf(before, e), At(b.verdicts, e), d.status.value);
      } else {
        assert StatusesOf(ds, e) == StatusesOf(before, e);
      }
    }
  }

  ghost predicate SameEvents(one: seq<Delivery>, two: seq<Delivery>) {
    forall d :: d in one <==> d in two
  }

  /** Two runs end alike for an effect: same rank, and the same status once it is final. */
  predicate EndAlike(one: seq<Delivery>, two: seq<Delivery>, e: string) {
    var v, w := At(RecordedAll(one).verdicts, e), At(RecordedAll(two).verdicts, e);
    (v.None? <==> w.None?) &&
    (v.Some? ==> v.value.rank == w.value.rank && v.value.terminal == w.value.terminal) &&
    (v.Some? && v.value.terminal ==> v.value == w.value)
  }

  /**
   * Any order and any duplication of the same events settle an effect the same
   * way when its terminal statuses agree: the same final status, or without a
   * final fact the same highest rank.
   */
  lemma OrderAndDuplicationDoNotMatter(one: seq<Delivery>, two: seq<Delivery>, e: string)
    requires Consistent(one) && Consistent(two) && SameEvents(one, two) && TerminalsAgree(StatusesOf(one, e))
    ensures EndAlike(one, two, e)
  {
    RunSettles(one, e);
    RunSettles(two, e);
    var ss := StatusesOf(one, e);
    assert StatusesOf(two, e) == ss;
    var v, w := At(RecordedAll(one).verdicts, e), At(RecordedAll(two).verdicts, e);
    hide RecordedAll, StatusesOf, Consistent;
    if v.Some? {
      assert v.value.status in ss && w.value.status in ss;
      assert v.value.terminal <==> HasTerminal(ss);
      assert w.value.terminal <==> HasTerminal(ss);
    }
  }

  /** A final fact delivered before everything else stays, unless it is delivered and read follows. */
  lemma FirstTerminalStays(x: Delivery, ds: seq<Delivery>, e: string)
    requires Moves(x) && x.effect == Some(e) && Terminal(x.status.value)
    ensures var v := At(RecordedAll([x] + ds).verdicts, e);
            v.Some? && (v.value == VerdictFor(x.status.value) || (x.status.value == Delivered && v.value.status == Read))
  {
    var all := [x] + ds;
    assert all[..1] == [x] && [x][..0] == [];
    assert RecordedAll([x]) == Recorded(EMPTY, x);
    hide RecordedAll;
    VerdictsNeverRegress(all, 1, e);
  }

  lemma SameWithOneFirst(x: Delivery, ds: seq<Delivery>)
    requires x in ds && Consistent(ds)
    ensures SameEvents([x] + ds, ds) && Consistent([x] + ds)
  {
    var all := [x] + ds;
    var k :| 0 <= k < |ds| && ds[k] == x;
    forall i, j | 0 <= i < |all| && 0 <= j < |all| && all[i].key == all[j].key ensures all[i] == all[j] {
      assert all[i] == ds[if i == 0 then k else i - 1] && all[j] == ds[if j == 0 then k else j - 1];
    }
  }

  /** The same events, whatever they are, with one of two conflicting final facts first: the runs end apart. */
  lemma ConflictingTerminalsKeepTheFirst(ds: seq<Delivery>, e: string) returns (one: seq<Delivery>, two: seq<Delivery>)
    requires Consistent(ds) && !TerminalsAgree(StatusesOf(ds, e))
    ensures Consistent(one) && Consistent(two) && SameEvents(one, ds) && SameEvents(two, ds) && !EndAlike(one, two, e)
  {
    var ss := StatusesOf(ds, e);
    var s :| s in ss && Terminal(s) && s != Delivered && s != Read;
    var t :| t in ss && Terminal(t) && t != s;
    var x :| x in ds && Moves(x) && x.effect == Some(e) && x.status.value == s;
    var y :| y in ds && Moves(y) && y.effect == Some(e) && y.status.value == t;
    hide RecordedAll, StatusesOf, Consistent, SameEvents;
    one, two := [x] + ds, [y] + ds;
    SameWithOneFirst(x, ds);
    SameWithOneFirst(y, ds);
    FirstTerminalStays(x, ds, e);
    FirstTerminalStays(y, ds, e);
  }

  /** So the outcome is a matter of the set of events alone exactly when the terminal statuses agree. */
  lemma OrderIrrelevantExactly(ds: seq<Delivery>, e: string)
    requires Consistent(ds)
    ensures TerminalsAgree(StatusesOf(ds, e)) <==>
              forall one, two :: Consistent(one) && Consistent(two) && SameEvents(one, ds) && SameEvents(two, ds) ==>
                EndAlike(one, two, e)
  {
    hide RecordedAll, Consistent, TerminalsAgree, EndAlike;
    if TerminalsAgree(StatusesOf(ds, e)) {
      forall one, two | Consistent(one) && Consistent(two) && SameEvents(one, ds) && SameEvents(two, ds)
        ensures EndAlike(one, two, e)
      {
        assert StatusesOf(one, e) == StatusesOf(ds, e) && SameEvents(one, two);
        OrderAndDuplicationDoNotMatter(one, two, e);
      }
    } else {
      var one, two := ConflictingTerminalsKeepTheFirst(ds, e);
    }
  }
}
