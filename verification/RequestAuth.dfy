/**
 * Request authentication: the nonce cache, the public-key cache, and the order
 * in which `authenticate` consults them.  Signature checks are a function of
 * the principal key they are made against; a session also ends at its expiry.
 */
module RequestAuth {
  import opened Prelude

  datatype Error =
    | MissingHeaders | InvalidTimestamp | InvalidAssertion | RegistryUnreachable | UnknownPrincipal
    | SessionExpired | SessionInvalid | SignatureInvalid | Stale | Replayed

  /** What the registry would answer if asked now. */
  datatype Answer = Raises | NoKey | Key(key: string)

  /**
   * One inbound request at one moment.  `session` judges the assertion against a
   * principal key, `expires` is the assertion's expiry if it names a number, and
   * `signed` tells whether the request's own signature is the session key's.
   */
  datatype Call = Call(
    headers: bool, principal: string, timestamp: Option<int>, assertion: bool, nonce: string,
    session: string -> bool, expires: Option<real>, signed: bool, answer: Answer, now: real)

  datatype Cached = Cached(key: string, at: real)

  datatype Gate = Gate(seen: map<string, real>, keys: map<string, Cached>)

  datatype Outcome = Accepted(principal: string) | Refused(error: Error) | Unchecked

  const FRESH_GATE := Gate(map[], map[])

  // ----- the nonce cache ---------------------------------------------------

  function Evicted(seen: map<string, real>, now: real, skew: real): map<string, real> {
    map n | n in seen && !(seen[n] < now - skew) :: seen[n]
  }

  class NonceCache {
    const skew: real
    var seen: map<string, real>

    constructor (skew: real)
      ensures this.skew == skew && seen == map[]
    {
      this.skew := skew;
      seen := map[];
    }

    /** Forgets what is older than the window, then accepts and remembers a nonce it does not know. */
    method CheckAndAdd(nonce: string, now: real) returns (isFresh: bool)
      modifies this
      ensures isFresh <==> nonce !in Evicted(old(seen), now, skew)
      ensures seen == if isFresh then Evicted(old(seen), now, skew)[nonce := now] else Evicted(old(seen), now, skew)
    {
      Evict(now);
      if nonce in seen { return false; }
      seen := seen[nonce := now];
      return true;
    }

    method Evict(now: real)
      modifies this
      ensures seen == Evicted(old(seen), now, skew)
    {
      var cutoff := now - skew;
      var stale := set n | n in seen && seen[n] < cutoff;
      var todo := stale;
      while todo != {}
        invariant todo <= stale
        invariant seen == map n | n in old(seen) && !(n in stale && n !in todo) :: old(seen)[n]
        decreases todo
      {
        var n :| n in todo;
        seen := seen - {n};
        todo := todo - {n};
      }
    }
  }

  // ----- one call ----------------------------------------------------------

  predicate TimestampFresh(timestamp: int, now: real, skew: real) {
    var delta := now - timestamp as real;
    (if delta < 0.0 then -delta else delta) <= skew
  }

  predicate CacheHit(g: Gate, c: Call, ttl: real) {
    c.principal in g.keys && c.now - g.keys[c.principal].at < ttl
  }

  /** The key the call is judged against, if the cache or the registry yields one. */
  function Resolved(g: Gate, c: Call, ttl: real): Answer {
    if CacheHit(g, c, ttl) then Key(g.keys[c.principal].key) else c.answer
  }

  /** Only a fresh, non-empty answer is remembered. */
  function KeysAfter(g: Gate, c: Call, ttl: real): map<string, Cached> {
    if !CacheHit(g, c, ttl) && c.answer.Key? && c.answer.key != "" then g.keys[c.principal := Cached(c.answer.key, c.now)]
    else g.keys
  }

  predicate WellFormed(c: Call) { c.headers && c.principal != "" && c.nonce != "" && c.timestamp.Some? && c.assertion }

  predicate SessionLives(c: Call) { c.expires.Some? && c.now <= c.expires.value }

  /** The call gets as far as the nonce cache. */
  predicate ReachesNonce(g: Gate, c: Call, skew: real, ttl: real) {
    WellFormed(c) && Resolved(g, c, ttl).Key? && Resolved(g, c, ttl).key != "" &&
    c.session(Resolved(g, c, ttl).key) && SessionLives(c) && c.signed && TimestampFresh(c.timestamp.value, c.now, skew)
  }

  /** The first step that refuses, if one does. */
  function Verdict(g: Gate, c: Call, skew: real, ttl: real): (outcome: Outcome)
    ensures outcome == Accepted(c.principal) <==> Accepts(g, c, skew, ttl)
    ensures outcome == Accepted(c.principal) || outcome.Refused?
  {
    if !c.headers || c.principal == "" || c.nonce == "" then Refused(MissingHeaders)
    else if c.timestamp.None? then Refused(InvalidTimestamp)
    else if !c.assertion then Refused(InvalidAssertion)
    else
      var resolved := Resolved(g, c, ttl);
      if resolved.Raises? then Refused(RegistryUnreachable)
      else if resolved.NoKey? || resolved.key == "" then Refused(UnknownPrincipal)
      else if !c.session(resolved.key) then Refused(SessionInvalid)
      else if !SessionLives(c) then Refused(SessionExpired)
      else if !c.signed then Refused(SignatureInvalid)
      else if !TimestampFresh(c.timestamp.value, c.now, skew) then Refused(Stale)
      else if c.nonce in Evicted(g.seen, c.now, skew) then Refused(Replayed)
      else Accepted(c.principal)
  }

  predicate Accepts(g: Gate, c: Call, skew: real, ttl: real) {
    ReachesNonce(g, c, skew, ttl) && c.nonce !in Evicted(g.seen, c.now, skew)
  }

  function After(g: Gate, c: Call, skew: real, ttl: real): Gate {
    if !WellFormed(c) then g
    else if !ReachesNonce(g, c, skew, ttl) then g.(keys := KeysAfter(g, c, ttl))
    else
      var kept := Evicted(g.seen, c.now, skew);
      Gate(if c.nonce in kept then kept else kept[c.nonce := c.now], KeysAfter(g, c, ttl))
  }

  /** Each refusal is raised exactly when its own step fails and all before it passed. */
  lemma RefusalsMean(g: Gate, c: Call, skew: real, ttl: real)
    ensures var v, answer := Verdict(g, c, skew, ttl), Resolved(g, c, ttl);
            var named := c.headers && c.principal != "" && c.nonce != "";
            var parsed := named && c.timestamp.Some? && c.assertion;
            var known := parsed && answer.Key? && answer.key != "";
            var bound := known && c.session(answer.key);
            var alive := bound && c.expires.Some? && c.now <= c.expires.value;
            var inTime := alive && c.signed && TimestampFresh(c.timestamp.value, c.now, skew);
            (v == Refused(MissingHeaders) <==> !named) &&
            (v == Refused(InvalidTimestamp) <==> named && c.timestamp.None?) &&
            (v == Refused(InvalidAssertion) <==> named && c.timestamp.Some? && !c.assertion) &&
            (v == Refused(RegistryUnreachable) <==> parsed && answer.Raises?) &&
            (v == Refused(UnknownPrincipal) <==> parsed && !answer.Raises? && !known) &&
            (v == Refused(SessionInvalid) <==> known && !bound) && (v == Refused(SessionExpired) <==> bound && !alive) &&
            (v == Refused(SignatureInvalid) <==> alive && !c.signed) &&
            (v == Refused(Stale) <==> alive && c.signed && !inTime) &&
            (v == Refused(Replayed) <==> inTime && c.nonce in g.seen && g.seen[c.nonce] >= c.now - skew)
  {
    hide TimestampFresh, Resolved;
  }

  class RequestAuthenticator {
    const required: bool
    const skew: real
    const ttl: real
    const nonces: NonceCache
    var keys: map<string, Cached>

    constructor (required: bool, skew: real, ttl: real)
      ensures this.required == required && this.skew == skew && this.ttl == ttl
      ensures nonces.skew == skew && fresh(nonces) && nonces.seen == map[] && keys == map[]
    {
      this.required, this.skew, this.ttl := required, skew, ttl;
      this.nonces := new NonceCache(skew);
      this.keys := map[];
    }

    ghost function State(): Gate
      reads this, nonces
    {
      Gate(nonces.seen, keys)
    }

    /** Steps in order; every failure is a refusal, and with the flag off nothing is looked at. */
    method Authenticate(c: Call) returns (outcome: Outcome)
      requires nonces.skew == skew
      modifies this, nonces
      ensures !required ==> outcome == Unchecked && State() == old(State())
      ensures required ==>
        outcome == Verdict(old(State()), c, skew, ttl) && State() == After(old(State()), c, skew, ttl)
    {
      if !required { return Unchecked; }
      if !c.headers || c.principal == "" || c.nonce == "" { return Refused(MissingHeaders); }
      if c.timestamp.None? { return Refused(InvalidTimestamp); }
      if !c.assertion { return Refused(InvalidAssertion); }
      var resolved := ResolvePublicKey(c);
      if resolved.Raises? { return Refused(RegistryUnreachable); }
      if resolved.NoKey? || resolved.key == "" { return Refused(UnknownPrincipal); }
      if !c.session(resolved.key) { return Refused(SessionInvalid); }
      if c.expires.None? || c.now > c.expires.value { return Refused(SessionExpired); }
      if !c.signed { return Refused(SignatureInvalid); }
      if !TimestampFresh(c.timestamp.value, c.now, skew) { return Refused(Stale); }
      var isFresh := nonces.CheckAndAdd(c.nonce, c.now);
      if !isFresh { return Refused(Replayed); }
      return Accepted(c.principal);
    }

    method ResolvePublicKey(c: Call) returns (resolved: Answer)
      modifies this`keys
      ensures resolved == Resolved(old(State()), c, ttl)
      ensures keys == KeysAfter(old(State()), c, ttl)
    {
      if c.principal in keys {
        var cached := keys[c.principal];
        if c.now - cached.at < ttl { return Key(cached.key); }
      }
      if c.answer.Key? && c.answer.key != "" { keys := keys[c.principal := Cached(c.answer.key, c.now)]; }
      return c.answer;
    }
  }

  // ----- whole runs --------------------------------------------------------

  function AfterAll(cs: seq<Call>, skew: real, ttl: real): Gate {
    if cs == [] then FRESH_GATE else After(AfterAll(cs[..|cs| - 1], skew, ttl), cs[|cs| - 1], skew, ttl)
  }

  predicate AcceptedAt(cs: seq<Call>, i: nat, skew: real, ttl: real)
    requires i < |cs|
  {
    Accepts(AfterAll(cs[..i], skew, ttl), cs[i], skew, ttl)
  }

  /** The clock handed to successive calls never runs backwards. */
  predicate Clocked(cs: seq<Call>) { forall i, j :: 0 <= i < j < |cs| ==> cs[i].now <= cs[j].now }

  /** An acceptance is either still remembered or already more than a window old. */
  lemma {:induction false} AcceptanceIsRemembered(cs: seq<Call>, i: nat, skew: real, ttl: real)
    requires Clocked(cs) && i < |cs| && AcceptedAt(cs, i, skew, ttl)
    ensures var seen := AfterAll(cs, skew, ttl).seen;
            cs[i].now < cs[|cs| - 1].now - skew || (cs[i].nonce in seen && seen[cs[i].nonce] >= cs[i].now)
    decreases |cs|
  {
    var n := |cs| - 1;
    if i == n {
    } else {
      var before := cs[..n];
      assert before[..i] == cs[..i];
      AcceptanceIsRemembered(before, i, skew, ttl);
    }
  }

  /** Any two acceptances of one nonce are more than the skew apart. */
  lemma AcceptancesAreFarApart(cs: seq<Call>, i: nat, j: nat, skew: real, ttl: real)
    requires Clocked(cs) && i < j < |cs| && cs[i].nonce == cs[j].nonce
    requires AcceptedAt(cs, i, skew, ttl) && AcceptedAt(cs, j, skew, ttl)
    ensures cs[j].now - cs[i].now > skew
  {
    var before := cs[..j];
    assert before[..i] == cs[..i];
    AcceptanceIsRemembered(before, i, skew, ttl);
  }

  // ----- when a call is accepted -------------------------------------------

  /** The timestamp may lie behind the verifier or ahead of it, by the skew at most. */
  lemma TimestampMeans(timestamp: int, now: real, skew: real)
    ensures TimestampFresh(timestamp, now, skew) <==> timestamp as real - skew <= now <= timestamp as real + skew
  {
  }

  /** A remembered nonce is a call that was accepted, at the time it is remembered with. */
  lemma {:induction false} RememberedWasAccepted(cs: seq<Call>, nonce: string, skew: real, ttl: real) returns (j: nat)
    requires nonce in AfterAll(cs, skew, ttl).seen
    ensures j < |cs| && AcceptedAt(cs, j, skew, ttl) && cs[j].nonce == nonce && cs[j].now == AfterAll(cs, skew, ttl).seen[nonce]
    decreases |cs|
  {
    var n := |cs| - 1;
    var g := AfterAll(cs[..n], skew, ttl);
    if nonce in g.seen && g.seen[nonce] == AfterAll(cs, skew, ttl).seen[nonce] {
      j := RememberedWasAccepted(cs[..n], nonce, skew, ttl);
      assert cs[..n][..j] == cs[..j];
    } else {
      j := n;
    }
  }

  /** Everything that is asked of a call except that its nonce be new. */
  predicate Passes(cs: seq<Call>, i: nat, skew: real, ttl: real)
    requires i < |cs|
  {
    var c := cs[i];
    var answer := Resolved(AfterAll(cs[..i], skew, ttl), c, ttl);
    c.headers && c.principal != "" && c.nonce != "" && c.timestamp.Some? && c.assertion &&
    answer.Key? && answer.key != "" && c.session(answer.key) && c.expires.Some? && c.now <= c.expires.value && c.signed &&
    c.timestamp.value as real - skew <= c.now <= c.timestamp.value as real + skew
  }

  /**
   * In any run a call is accepted if and only if it passes every check and no
   * call with its nonce was accepted within the last skew.
   */
  lemma {:induction false} AcceptedExactly(cs: seq<Call>, i: nat, skew: real, ttl: real)
    requires Clocked(cs) && i < |cs|
    ensures AcceptedAt(cs, i, skew, ttl) <==>
              Passes(cs, i, skew, ttl) &&
              forall j :: 0 <= j < i && cs[j].nonce == cs[i].nonce && AcceptedAt(cs, j, skew, ttl) ==>
                cs[j].now < cs[i].now - skew
  {
    var before, g := cs[..i], AfterAll(cs[..i], skew, ttl);
    NonceFree(cs, i, skew, ttl);
    if cs[i].timestamp.Some? { TimestampMeans(cs[i].timestamp.value, cs[i].now, skew); }
    hide AfterAll, TimestampFresh, Evicted, Resolved, Clocked;
  }

  lemma {:induction false} NonceFree(cs: seq<Call>, i: nat, skew: real, ttl: real)
    requires Clocked(cs) && i < |cs|
    ensures cs[i].nonce !in Evicted(AfterAll(cs[..i], skew, ttl).seen, cs[i].now, skew) <==>
              forall j :: 0 <= j < i && cs[j].nonce == cs[i].nonce && AcceptedAt(cs, j, skew, ttl) ==>
                cs[j].now < cs[i].now - skew
  {
    var before, seen, nonce := cs[..i], AfterAll(cs[..i], skew, ttl).seen, cs[i].nonce;
    hide AfterAll, Accepts;
    if nonce in Evicted(seen, cs[i].now, skew) {
      var j := RememberedWasAccepted(before, nonce, skew, ttl);
      assert before[..j] == cs[..j];
    } else {
      forall j | 0 <= j < i && cs[j].nonce == nonce && AcceptedAt(cs, j, skew, ttl) ensures cs[j].now < cs[i].now - skew {
        assert before[..j] == cs[..j];
        AcceptanceIsRemembered(before, j, skew, ttl);
      }
    }
  }

  /** A key is taken from the cache exactly while it is younger than the TTL; only a well-formed call's positive answer goes in. */
  lemma CacheMeans(g: Gate, c: Call, skew: real, ttl: real)
    ensures Resolved(g, c, ttl) ==
              if c.principal in g.keys && c.now - g.keys[c.principal].at < ttl then Key(g.keys[c.principal].key) else c.answer
    ensures var asked := WellFormed(c) && !(c.principal in g.keys && c.now - g.keys[c.principal].at < ttl);
            After(g, c, skew, ttl).keys ==
              if asked && c.answer.Key? && c.answer.key != "" then g.keys[c.principal := Cached(c.answer.key, c.now)] else g.keys
  {
  }

  /** The same signed request: whatever the clock and the registry say, its own content is unchanged. */
  ghost predicate SameRequest(c: Call, d: Call) { d == c.(answer := d.answer, now := d.now) }

  /** Times at which a request accepted at `c.now` may pass again: its nonce forgotten, its stamp and session still good. */
  predicate ReplayWindow(c: Call, skew: real, t: real) {
    c.timestamp.Some? && c.expires.Some? &&
    c.now + skew < t <= c.timestamp.value as real + skew && t <= c.expires.value
  }

  /** In any run, a request is accepted a second time only inside that window. */
  lemma ReplaysFallInTheWindow(cs: seq<Call>, i: nat, j: nat, skew: real, ttl: real)
    requires Clocked(cs) && i < j < |cs| && SameRequest(cs[i], cs[j])
    requires AcceptedAt(cs, i, skew, ttl) && AcceptedAt(cs, j, skew, ttl)
    ensures ReplayWindow(cs[i], skew, cs[j].now)
  {
    AcceptancesAreFarApart(cs, i, j, skew, ttl);
  }

  /** The window is open for some time exactly when the stamp is ahead of the verifier and the session outlives one skew. */
  predicate Replayable(c: Call, skew: real) {
    c.timestamp.Some? && c.timestamp.value as real > c.now && c.expires.Some? && c.expires.value > c.now + skew
  }

  /**
   * A request accepted when its timestamp is not ahead of the verifier, or whose
   * session ends within one skew, is accepted at most once.
   */
  lemma AcceptedAtMostOnce(cs: seq<Call>, i: nat, j: nat, skew: real, ttl: real)
    requires Clocked(cs) && i < j < |cs| && SameRequest(cs[i], cs[j])
    requires AcceptedAt(cs, i, skew, ttl) && !Replayable(cs[i], skew)
    ensures !AcceptedAt(cs, j, skew, ttl)
  {
    if AcceptedAt(cs, j, skew, ttl) {
      ReplaysFallInTheWindow(cs, i, j, skew, ttl);
    }
  }

  lemma AfterSnoc(cs: seq<Call>, c: Call, skew: real, ttl: real)
    ensures AfterAll(cs + [c], skew, ttl) == After(AfterAll(cs, skew, ttl), c, skew, ttl)
  {
    assert (cs + [c])[..|cs|] == cs;
  }

  /**
   * After any run, a request just accepted and presented again while its key
   * still resolves to the same answer passes exactly inside its window.
   */
  lemma ReplayedExactlyInTheWindow(cs: seq<Call>, c: Call, t: real, skew: real, ttl: real)
    requires Accepts(AfterAll(cs, skew, ttl), c, skew, ttl) && t >= c.now
    ensures var again := c.(now := t, answer := Resolved(AfterAll(cs, skew, ttl), c, ttl));
            Accepts(AfterAll(cs + [c], skew, ttl), again, skew, ttl) <==> ReplayWindow(c, skew, t)
  {
    var g := AfterAll(cs, skew, ttl);
    AfterSnoc(cs, c, skew, ttl);
    hide AfterAll;
    var again := c.(now := t, answer := Resolved(g, c, ttl));
    var g' := After(g, c, skew, ttl);
    assert g'.seen[c.nonce] == c.now;
    assert Resolved(g', again, ttl) == Resolved(g, c, ttl);
  }

  /** So a second acceptance is possible after any run exactly when the request is replayable. */
  lemma AheadTimestampsReplay(cs: seq<Call>, c: Call, skew: real, ttl: real)
    requires Accepts(AfterAll(cs, skew, ttl), c, skew, ttl)
    ensures Replayable(c, skew) <==>
              exists t :: t >= c.now &&
                Accepts(AfterAll(cs + [c], skew, ttl), c.(now := t, answer := Resolved(AfterAll(cs, skew, ttl), c, ttl)), skew, ttl)
  {
    var key := Resolved(AfterAll(cs, skew, ttl), c, ttl);
    var g := AfterAll(cs + [c], skew, ttl);
    assert skew >= 0.0;
    forall t | t >= c.now
      ensures Accepts(g, c.(now := t, answer := key), skew, ttl) <==> ReplayWindow(c, skew, t)
    {
      ReplayedExactlyInTheWindow(cs, c, t, skew, ttl);
    }
    hide AfterAll, Accepts, Resolved;
    if Replayable(c, skew) {
      var stamp := c.timestamp.value as real + skew;
      var t := if stamp <= c.expires.value then stamp else c.expires.value;
      assert Accepts(g, c.(now := t, answer := key), skew, ttl);
    }
  }

  /** Every key in the cache is what the registry answered for that principal at the time it is stamped with. */
  lemma {:induction false} CachedKeysWereResolved(cs: seq<Call>, principal: string, skew: real, ttl: real)
    requires principal in AfterAll(cs, skew, ttl).keys
    ensures var cached := AfterAll(cs, skew, ttl).keys[principal];
            exists j :: 0 <= j < |cs| && cs[j].principal == principal && cs[j].answer == Key(cached.key) && cs[j].now == cached.at
    decreases |cs|
  {
    var n := |cs| - 1;
    var g := AfterAll(cs[..n], skew, ttl);
    var cached := AfterAll(cs, skew, ttl).keys[principal];
    if principal in g.keys && g.keys[principal] == cached {
      CachedKeysWereResolved(cs[..n], principal, skew, ttl);
      var j :| 0 <= j < n && cs[..n][j].principal == principal && cs[..n][j].answer == Key(cached.key) && cs[..n][j].now == cached.at;
      assert cs[j] == cs[..n][j];
    } else {
      assert cs[n].principal == principal && cs[n].answer == Key(cached.key) && cs[n].now == cached.at;
    }
  }

  /** Every principal key a call is judged against was the registry's answer at that call or less than the TTL earlier. */
  lemma KeysAreYoungerThanTtl(cs: seq<Call>, i: nat, skew: real, ttl: real)
    requires i < |cs| && Resolved(AfterAll(cs[..i], skew, ttl), cs[i], ttl).Key?
    ensures exists j :: 0 <= j <= i && cs[j].principal == cs[i].principal &&
              cs[j].answer == Resolved(AfterAll(cs[..i], skew, ttl), cs[i], ttl) &&
              (j == i || cs[i].now - cs[j].now < ttl)
  {
    var g := AfterAll(cs[..i], skew, ttl);
    if CacheHit(g, cs[i], ttl) {
      CachedKeysWereResolved(cs[..i], cs[i].principal, skew, ttl);
      var j :| 0 <= j < i && cs[..i][j].principal == cs[i].principal && cs[..i][j].answer == Key(g.keys[cs[i].principal].key) &&
               cs[..i][j].now == g.keys[cs[i].principal].at;
      assert cs[j] == cs[..i][j];
    }
  }
}
