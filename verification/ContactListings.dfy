/** Queries over the contacts table, and what their results are in terms of its rows. */
module ContactListings {

  datatype Contact = Contact(id: string, branch: string, name: string, status: string)

  /** The rows of a query in the order the query returns them. */
  function Select(table: seq<Contact>, keep: Contact -> bool): (kept: seq<Contact>)
    ensures forall c :: c in kept <==> c in table && keep(c)
    ensures |kept| <= |table|
  {
    if table == [] then []
    else
      var n := |table| - 1;
      assert table == table[..n] + [table[n]];
      Select(table[..n], keep) + (if keep(table[n]) then [table[n]] else [])
  }

  function Take(rows: seq<Contact>, limit: nat): (first: seq<Contact>)
    ensures forall c :: c in first ==> c in rows
    ensures |first| <= limit && (|first| < limit ==> first == rows)
  {
    if limit < |rows| then rows[..limit] else rows
  }

  /** Searching inside a bound, then truncating, is what `search_contacts` returns. */
  function Found(table: seq<Contact>, bound: set<string>, status: string, matches: string -> bool, limit: nat): seq<Contact> {
    Take(Select(table, (c: Contact) => c.status == status && matches(c.name) && c.branch in bound), limit)
  }

  // ----- by position -------------------------------------------------------

  predicate Increasing(at: seq<nat>) { forall i, j :: 0 <= i < j < |at| ==> at[i] < at[j] }

  /** `rows` stand in the table at `at`, in its order, all of them at wanted positions. */
  predicate StandAt(table: seq<Contact>, wanted: set<nat>, rows: seq<Contact>, at: seq<nat>) {
    |at| == |rows| && Increasing(at) &&
    forall i :: 0 <= i < |at| ==> at[i] < |table| && at[i] in wanted && rows[i] == table[at[i]]
  }

  /** No wanted position was passed over: none at all below the limit, none before the last row at it. */
  predicate NoneSkipped(table: seq<Contact>, wanted: set<nat>, limit: nat, at: seq<nat>) {
    forall k :: k in wanted && k < |table| && (|at| < limit || (at != [] && k <= at[|at| - 1])) ==> k in at
  }

  /** The first `limit` rows of the table, in its order, among the positions that are wanted. */
  ghost predicate FirstOf(table: seq<Contact>, wanted: set<nat>, limit: nat, rows: seq<Contact>) {
    |rows| <= limit && exists at :: StandAt(table, wanted, rows, at) && NoneSkipped(table, wanted, limit, at)
  }

  /** All rows of the table at wanted positions, in its order. */
  ghost predicate AllOf(table: seq<Contact>, wanted: set<nat>, rows: seq<Contact>) {
    exists at :: StandAt(table, wanted, rows, at) && forall k :: k in wanted && k < |table| ==> k in at
  }

  function Kept(table: seq<Contact>, keep: Contact -> bool): set<nat> { set k: nat | k < |table| && keep(table[k]) }

  lemma StandsInLonger(table: seq<Contact>, n: nat, wanted: set<nat>, more: set<nat>, rows: seq<Contact>, at: seq<nat>)
    requires n <= |table| && wanted <= more && StandAt(table[..n], wanted, rows, at)
    ensures StandAt(table, more, rows, at) && forall i :: 0 <= i < |at| ==> at[i] < n
  {
    hide Increasing;
  }

  lemma StandsWithOneMore(table: seq<Contact>, wanted: set<nat>, rows: seq<Contact>, at: seq<nat>, k: nat)
    requires StandAt(table, wanted, rows, at) && k < |table| && k in wanted
    requires forall i :: 0 <= i < |at| ==> at[i] < k
    ensures StandAt(table, wanted, rows + [table[k]], at + [k])
  {
  }

  lemma {:induction false} SelectStands(table: seq<Contact>, keep: Contact -> bool) returns (at: seq<nat>)
    ensures StandAt(table, Kept(table, keep), Select(table, keep), at)
    ensures forall k :: k in Kept(table, keep) ==> k in at
    decreases |table|
  {
    if table == [] {
      at := [];
    } else {
      var n := |table| - 1;
      at := SelectStands(table[..n], keep);
      KeptOneMore(table, keep);
      hide Increasing, StandAt, Kept;
      StandsInLonger(table, n, Kept(table[..n], keep), Kept(table, keep), Select(table[..n], keep), at);
      if keep(table[n]) {
        StandsWithOneMore(table, Kept(table, keep), Select(table[..n], keep), at, n);
        at := at + [n];
      } else {
        assert Select(table, keep) == Select(table[..n], keep);
      }
    }
  }

  lemma KeptOneMore(table: seq<Contact>, keep: Contact -> bool)
    requires table != []
    ensures var n := |table| - 1;
            Kept(table, keep) == Kept(table[..n], keep) + (if keep(table[n]) then {n} else {})
  {
  }

  lemma SelectIsAll(table: seq<Contact>, keep: Contact -> bool)
    ensures AllOf(table, Kept(table, keep), Select(table, keep))
  {
    var at := SelectStands(table, keep);
  }

  lemma PrefixStands(table: seq<Contact>, wanted: set<nat>, rows: seq<Contact>, at: seq<nat>, n: nat)
    requires StandAt(table, wanted, rows, at) && n <= |at|
    ensures StandAt(table, wanted, rows[..n], at[..n])
  {
  }

  lemma PrefixSkipsNone(table: seq<Contact>, wanted: set<nat>, at: seq<nat>, n: nat)
    requires Increasing(at) && n < |at| && forall k :: k in wanted && k < |table| ==> k in at
    ensures NoneSkipped(table, wanted, n, at[..n])
  {
    forall k | k in wanted && k < |table| && n > 0 && k <= at[n - 1] ensures k in at[..n] {
      var i :| 0 <= i < |at| && at[i] == k;
      assert i < n;
      assert at[..n][i] == k;
    }
  }

  lemma TakeIsFirst(table: seq<Contact>, wanted: set<nat>, rows: seq<Contact>, limit: nat)
    requires AllOf(table, wanted, rows)
    ensures FirstOf(table, wanted, limit, Take(rows, limit))
  {
    var at :| StandAt(table, wanted, rows, at) && forall k :: k in wanted && k < |table| ==> k in at;
    assert Increasing(at);
    if limit < |rows| {
      PrefixStands(table, wanted, rows, at, limit);
      PrefixSkipsNone(table, wanted, at, limit);
      hide StandAt, NoneSkipped;
      assert StandAt(table, wanted, Take(rows, limit), at[..limit]);
    } else {
      assert NoneSkipped(table, wanted, limit, at);
      hide StandAt, NoneSkipped;
    }
  }

  /** What a search inside a bound returns. */
  lemma FoundIsFirst(table: seq<Contact>, bound: set<string>, status: string, matches: string -> bool, limit: nat)
    ensures var wanted := set k: nat | k < |table| && table[k].status == status && matches(table[k].name) && table[k].branch in bound;
            FirstOf(table, wanted, limit, Found(table, bound, status, matches, limit))
  {
    var keep := (c: Contact) => c.status == status && matches(c.name) && c.branch in bound;
    var wanted := set k: nat | k < |table| && table[k].status == status && matches(table[k].name) && table[k].branch in bound;
    assert wanted == Kept(table, keep);
    SelectIsAll(table, keep);
    TakeIsFirst(table, wanted, Select(table, keep), limit);
  }
}
