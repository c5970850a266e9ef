/** The fixed-window rate limiter, with its memory bound, against the one that never forgets. */
module RateLimiter {

  datatype Bucket = Bucket(start: real, count: nat)
  type Buckets = map<string, Bucket>

  datatype Limits = Limits(max: nat, window: real, threshold: nat)

  predicate Sensible(m: Limits) { m.max >= 1 && m.window > 0.0 }

  datatype Call = Call(key: string, now: real)

  predicate Elapsed(b: Bucket, now: real, window: real) { now - b.start >= window }

  /** The window a request falls into: the stored one, or a new one starting now. */
  function Current(bs: Buckets, c: Call, window: real): Bucket {
    if c.key in bs && !Elapsed(bs[c.key], c.now, window) then bs[c.key] else Bucket(c.now, 0)
  }

  predicate Allowed(bs: Buckets, c: Call, m: Limits) { Current(bs, c, m.window).count < m.max }

  /** Counting a request in, without ever evicting. */
  function Counted(bs: Buckets, c: Call, m: Limits): Buckets {
    var b := Current(bs, c, m.window);
    bs[c.key := Bucket(b.start, if b.count < m.max then b.count + 1 else b.count)]
  }

  function Pruned(bs: Buckets, now: real, window: real): Buckets {
    map k | k in bs && !Elapsed(bs[k], now, window) :: bs[k]
  }

  function CountedAndPruned(bs: Buckets, c: Call, m: Limits): Buckets {
    var next := Counted(bs, c, m);
    if |next| > m.threshold then Pruned(next, c.now, m.window) else next
  }

  class Limiter {
    const limits: Limits
    const enabled: bool
    var buckets: Buckets

    constructor (limits: Limits, enabled: bool)
      requires Sensible(limits)
      ensures this.limits == limits && this.enabled == enabled && buckets == map[]
    {
      this.limits, this.enabled, this.buckets := limits, enabled, map[];
    }

    method Allow(key: string, now: real) returns (allowed: bool)
      requires Sensible(limits)
      modifies this
      ensures !enabled ==> allowed && buckets == old(buckets)
      ensures enabled ==>
        (allowed <==> Allowed(old(buckets), Call(key, now), limits)) &&
        buckets == CountedAndPruned(old(buckets), Call(key, now), limits)
    {
      if !enabled { return true; }
      var start, count := now, 0;
      if key in buckets { start, count := buckets[key].start, buckets[key].count; }
      if now - start >= limits.window { start, count := now, 0; }
      allowed := count < limits.max;
      buckets := buckets[key := Bucket(start, if allowed then count + 1 else count)];
      if |buckets| > limits.threshold { Prune(now); }
    }

    method Prune(now: real)
      modifies this
      ensures buckets == Pruned(old(buckets), now, limits.window)
    {
      var stale := set k | k in buckets && now - buckets[k].start >= limits.window;
      var todo := stale;
      while todo != {}
        invariant todo <= stale
        invariant buckets == map k | k in old(buckets) && !(k in stale && k !in todo) :: old(buckets)[k]
        decreases todo
      {
        var k :| k in todo;
        buckets := buckets - {k};
        todo := todo - {k};
      }
    }
  }

  // ----- pruning never shows -----------------------------------------------

  function Run(cs: seq<Call>, m: Limits): Buckets {
    if cs == [] then map[] else CountedAndPruned(Run(cs[..|cs| - 1], m), cs[|cs| - 1], m)
  }

  function Reference(cs: seq<Call>, m: Limits): Buckets {
    if cs == [] then map[] else Counted(Reference(cs[..|cs| - 1], m), cs[|cs| - 1], m)
  }

  predicate Clocked(cs: seq<Call>) { forall i, j :: 0 <= i < j < |cs| ==> cs[i].now <= cs[j].now }

  /** The pruned map lacks only buckets whose window is over. */
  predicate Forgets(bs: Buckets, full: Buckets, now: real, window: real) {
    (forall k :: k in bs ==> k in full && bs[k] == full[k]) &&
    (forall k :: k in full && k !in bs ==> Elapsed(full[k], now, window))
  }

  lemma {:induction false} PruningOnlyForgets(cs: seq<Call>, m: Limits)
    requires Sensible(m) && Clocked(cs) && cs != []
    ensures Forgets(Run(cs, m), Reference(cs, m), cs[|cs| - 1].now, m.window)
    decreases |cs|
  {
    var n := |cs| - 1;
    if n > 0 {
      PruningOnlyForgets(cs[..n], m);
      assert cs[..n][n - 1].now <= cs[n].now;
    }
  }

  /** With a clock that never runs backwards, pruning changes no answer. */
  lemma PruningChangesNoAnswer(cs: seq<Call>, i: nat, m: Limits)
    requires Sensible(m) && Clocked(cs) && i < |cs|
    ensures Allowed(Run(cs[..i], m), cs[i], m) <==> Allowed(Reference(cs[..i], m), cs[i], m)
  {
    if i > 0 {
      PruningOnlyForgets(cs[..i], m);
      assert cs[..i][i - 1].now <= cs[i].now;
    }
  }

  // ----- how many get through ----------------------------------------------

  predicate InInterval(c: Call, key: string, from: real, window: real) {
    c.key == key && from <= c.now < from + window
  }

  /** Requests of `key` admitted by the real limiter in the half-open interval of one window from `from`. */
  function Admitted(cs: seq<Call>, key: string, from: real, m: Limits): nat {
    if cs == [] then 0
    else
      var before, c := cs[..|cs| - 1], cs[|cs| - 1];
      Admitted(before, key, from, m) +
      (if InInterval(c, key, from, m.window) && Allowed(Run(before, m), c, m) then 1 else 0)
  }

  /** Inside the interval at most one window can begin, so the count is split over two. */
  predicate Budgeted(bs: Buckets, admitted: nat, key: string, from: real, m: Limits) {
    if key !in bs then admitted == 0
    else bs[key].count <= m.max && admitted <= bs[key].count + (if bs[key].start < from then 0 else m.max)
  }

  lemma BudgetStep(bs: Buckets, admitted: nat, c: Call, key: string, from: real, m: Limits)
    requires Sensible(m) && Budgeted(bs, admitted, key, from, m) && c.now < from + m.window
    requires c.now < from ==> admitted == 0
    ensures var gained := if InInterval(c, key, from, m.window) && Allowed(bs, c, m) then 1 else 0;
            Budgeted(Counted(bs, c, m), admitted + gained, key, from, m)
  {
  }

  lemma {:induction false} BudgetHolds(cs: seq<Call>, key: string, from: real, m: Limits)
    requires Sensible(m) && Clocked(cs)
    ensures Admitted(cs, key, from, m) <= 2 * m.max
    ensures cs == [] || cs[|cs| - 1].now < from + m.window ==>
              Budgeted(Reference(cs, m), Admitted(cs, key, from, m), key, from, m)
    ensures cs == [] || cs[|cs| - 1].now < from ==> Admitted(cs, key, from, m) == 0
    decreases |cs|
  {
    if cs != [] {
      var n := |cs| - 1;
      var before, c := cs[..n], cs[n];
      BudgetHolds(before, key, from, m);
      PruningChangesNoAnswer(cs, n, m);
      if n > 0 { assert before[n - 1].now <= c.now; }
      hide Allowed, Counted, Budgeted;
      if c.now < from + m.window {
        BudgetStep(Reference(before, m), Admitted(before, key, from, m), c, key, from, m);
        BudgetBounds(Reference(cs, m), Admitted(cs, key, from, m), key, from, m);
      }
    } else {
      EmptyBudget(key, from, m);
    }
  }

  lemma BudgetBounds(bs: Buckets, admitted: nat, key: string, from: real, m: Limits)
    requires Budgeted(bs, admitted, key, from, m)
    ensures admitted <= 2 * m.max
  {
  }

  lemma EmptyBudget(key: string, from: real, m: Limits)
    ensures Budgeted(map[], 0, key, from, m)
  {
  }

  /** Every half-open interval of one window length admits at most twice the cap per key. */
  lemma AtMostTwiceTheCap(cs: seq<Call>, key: string, from: real, m: Limits)
    requires Sensible(m) && Clocked(cs)
    ensures Admitted(cs, key, from, m) <= 2 * m.max
  {
    BudgetHolds(cs, key, from, m);
  }

  // ----- when a request is refused -----------------------------------------

  /** Requests of `key` admitted later than `after`. */
  function AdmittedSince(cs: seq<Call>, key: string, after: real, m: Limits): nat {
    if cs == [] then 0
    else
      var before, c := cs[..|cs| - 1], cs[|cs| - 1];
      AdmittedSince(before, key, after, m) +
      (if c.key == key && c.now > after && Allowed(Run(before, m), c, m) then 1 else 0)
  }

  /** A bucket counts nothing but requests admitted since its window began. */
  predicate CountsAdmitted(bs: Buckets, key: string, after: real, admitted: nat, now: real) {
    key in bs ==> bs[key].start <= now && (after < bs[key].start ==> bs[key].count <= admitted)
  }

  lemma {:induction false} BucketsCountAdmitted(cs: seq<Call>, key: string, after: real, m: Limits)
    requires Sensible(m) && Clocked(cs)
    ensures cs != [] ==> CountsAdmitted(Reference(cs, m), key, after, AdmittedSince(cs, key, after, m), cs[|cs| - 1].now)
    ensures cs == [] ==> key !in Reference(cs, m)
    decreases |cs|
  {
    if cs != [] {
      var n := |cs| - 1;
      BucketsCountAdmitted(cs[..n], key, after, m);
      PruningChangesNoAnswer(cs, n, m);
      if n > 0 { assert cs[..n][n - 1].now <= cs[n].now; }
    }
  }

  /** A request is refused only when the cap was used up within the last window: under the cap everyone gets through. */
  lemma {:induction false} RefusedOnlyAtTheCap(cs: seq<Call>, i: nat, m: Limits)
    requires Sensible(m) && Clocked(cs) && i < |cs| && !Allowed(Run(cs[..i], m), cs[i], m)
    ensures AdmittedSince(cs[..i], cs[i].key, cs[i].now - m.window, m) >= m.max
  {
    PruningChangesNoAnswer(cs, i, m);
    BucketsCountAdmitted(cs[..i], cs[i].key, cs[i].now - m.window, m);
    hide Run, Reference, AdmittedSince;
  }
}
