/**
 * When applying a staged file can fail: exactly when two of its new rows come
 * to one stored key or one external reference, or one names a reference the
 * directory already holds; and which calling codes leave only the references.
 */
module ImportFailures {
  import opened Prelude
  import opened ConsentLedgers
  import opened PhoneAddresses
  import opened ContactImport
  import opened ImportProofs

  // ----- files -------------------------------------------------------------

  predicate SameReference(p: Prepared, q: Prepared) { p.reference.Some? && p.reference == q.reference }

  /** Two new rows that the directory cannot both hold. */
  predicate Clashing(dir: Directory, scope: set<string>, ps: seq<Prepared>, i: nat, j: nat) {
    IsNew(dir, scope, ps, i) && IsNew(dir, scope, ps, j) &&
    (Key(ps[i].dest) == Key(ps[j].dest) || SameReference(ps[i], ps[j]))
  }

  /** A new row the directory refuses: its reference is held, or an earlier new row is in its way. */
  predicate BlockedAt(dir: Directory, scope: set<string>, ps: seq<Prepared>, j: nat) {
    IsNew(dir, scope, ps, j) &&
    (!ReferenceFree(dir, ps[j].reference) || exists i: nat :: i < j && Clashing(dir, scope, ps, i, j))
  }

  predicate Blocked(dir: Directory, scope: set<string>, ps: seq<Prepared>, n: nat) {
    exists j: nat :: j < n && BlockedAt(dir, scope, ps, j)
  }

  /** A new row among the first `n` is stored under `key`. */
  predicate Claims(dir: Directory, scope: set<string>, ps: seq<Prepared>, n: nat, key: Dest) {
    exists i: nat :: i < n && IsNew(dir, scope, ps, i) && Key(ps[i].dest) == key
  }

  /** A new row among the first `n` carries `reference`. */
  predicate Refers(dir: Directory, scope: set<string>, ps: seq<Prepared>, n: nat, reference: string) {
    exists i: nat :: i < n && IsNew(dir, scope, ps, i) && ps[i].reference == Some(reference)
  }

  /** Both unique indexes, while nothing has failed. */
  ghost predicate IndexesMatch(dir: Directory, scope: set<string>, ps: seq<Prepared>, n: nat, now: Directory) {
    (forall k :: k in now.addresses <==> k in dir.addresses || Claims(dir, scope, ps, n, k)) &&
    (forall r :: r in now.references <==> r in dir.references || Refers(dir, scope, ps, n, r))
  }

  ghost predicate KeysInv(dir: Directory, scope: set<string>, ps: seq<Prepared>, n: nat, s: Progress) {
    (s.failed <==> Blocked(dir, scope, ps, n)) && (!s.failed ==> IndexesMatch(dir, scope, ps, n, s.dir))
  }

  lemma NewKeyIsAbsent(dir: Directory, scope: set<string>, ps: seq<Prepared>, n: nat)
    requires DirectoryOk(dir) && AllSound(ps) && IsNew(dir, scope, ps, n)
    ensures Key(ps[n].dest) !in dir.addresses && Key(ps[n].dest).address != ""
  {
    assert Sound(ps[n]);
  }

  lemma BlockedGrows(dir: Directory, scope: set<string>, ps: seq<Prepared>, n: nat)
    ensures Blocked(dir, scope, ps, n + 1) <==> Blocked(dir, scope, ps, n) || BlockedAt(dir, scope, ps, n)
  {
    hide BlockedAt;
  }

  /** Being in the way of row `n` is what the two indexes record. */
  lemma BlockedByIndexes(dir: Directory, scope: set<string>, ps: seq<Prepared>, n: nat)
    requires n < |ps| && IsNew(dir, scope, ps, n)
    ensures BlockedAt(dir, scope, ps, n) <==>
              Claims(dir, scope, ps, n, Key(ps[n].dest)) ||
              (ps[n].reference.Some? &&
               (ps[n].reference.value in dir.references || Refers(dir, scope, ps, n, ps[n].reference.value)))
  {
    hide IsNew, Key;
    if Claims(dir, scope, ps, n, Key(ps[n].dest)) {
      var i: nat :| i < n && IsNew(dir, scope, ps, i) && Key(ps[i].dest) == Key(ps[n].dest);
      assert Clashing(dir, scope, ps, i, n);
    }
    if ps[n].reference.Some? && Refers(dir, scope, ps, n, ps[n].reference.value) {
      var i: nat :| i < n && IsNew(dir, scope, ps, i) && ps[i].reference == ps[n].reference;
      assert Clashing(dir, scope, ps, i, n);
    }
  }

  lemma IndexesGrow(dir: Directory, scope: set<string>, ps: seq<Prepared>, n: nat, now: Directory, after: Directory)
    requires n < |ps| && IndexesMatch(dir, scope, ps, n, now)
    requires if IsNew(dir, scope, ps, n) then
               after.addresses.Keys == now.addresses.Keys + {Key(ps[n].dest)} &&
               after.references == Filed(now.references, ps[n].reference)
             else after.addresses == now.addresses && after.references == now.references
    ensures IndexesMatch(dir, scope, ps, n + 1, after)
  {
    hide IsNew, Key;
    forall k ensures Claims(dir, scope, ps, n + 1, k) <==>
                     Claims(dir, scope, ps, n, k) || (IsNew(dir, scope, ps, n) && Key(ps[n].dest) == k)
    {
    }
    forall r ensures Refers(dir, scope, ps, n + 1, r) <==>
                     Refers(dir, scope, ps, n, r) || (IsNew(dir, scope, ps, n) && ps[n].reference == Some(r))
    {
    }
    hide Claims, Refers;
  }

  /** What one row does to the two indexes. */
  lemma RowTouches(dir: Directory, scope: set<string>, ps: seq<Prepared>, n: nat, s: Progress, ctx: Context)
    requires DirectoryOk(dir) && AllSound(ps) && n < |ps|
    ensures var s' := ApplyRow(s, StagedRow(dir, scope, ps, n), ctx);
            if s.failed || !IsNew(dir, scope, ps, n) then s'.failed == s.failed && s'.dir == s.dir
            else s'.failed == (!ReferenceFree(s.dir, ps[n].reference) || Key(ps[n].dest) in s.dir.addresses) &&
                 (!s'.failed ==> s'.dir.addresses.Keys == s.dir.addresses.Keys + {Key(ps[n].dest)} &&
                                 s'.dir.references == Filed(s.dir.references, ps[n].reference))
  {
    hide Normalize, First, Introduction, DirectoryOk, AllSound, Filed;
    if IsNew(dir, scope, ps, n) { NewKeyIsAbsent(dir, scope, ps, n); }
  }

  lemma KeysStep(dir: Directory, scope: set<string>, ps: seq<Prepared>, n: nat, s: Progress, s': Progress, ctx: Context)
    requires DirectoryOk(dir) && AllSound(ps) && n < |ps| && KeysInv(dir, scope, ps, n, s)
    requires s' == ApplyRow(s, StagedRow(dir, scope, ps, n), ctx)
    ensures KeysInv(dir, scope, ps, n + 1, s')
  {
    hide IsNew, Key, Blocked, BlockedAt, Claims, Refers, DirectoryOk, AllSound, ApplyRow, StagedRow, Filed;
    RowTouches(dir, scope, ps, n, s, ctx);
    BlockedGrows(dir, scope, ps, n);
    if IsNew(dir, scope, ps, n) {
      BlockedByIndexes(dir, scope, ps, n);
      NewKeyIsAbsent(dir, scope, ps, n);
    } else {
      assert !BlockedAt(dir, scope, ps, n) by { NotNewNotBlocked(dir, scope, ps, n); }
    }
    if !s'.failed { IndexesGrow(dir, scope, ps, n, s.dir, s'.dir); }
    hide IndexesMatch;
  }

  lemma NotNewNotBlocked(dir: Directory, scope: set<string>, ps: seq<Prepared>, n: nat)
    requires !IsNew(dir, scope, ps, n)
    ensures !BlockedAt(dir, scope, ps, n)
  {
  }

  lemma KeysStart(dir: Directory, scope: set<string>, ps: seq<Prepared>, ctx: Context)
    ensures KeysInv(dir, scope, ps, 0, ApplyRows(dir, StagedRows(dir, scope, ps)[..0], ctx))
  {
    hide StagedRow, IsNew, ApplyRow;
    assert StagedRows(dir, scope, ps)[..0] == [];
  }

  lemma {:induction false} KeysKept(dir: Directory, scope: set<string>, ps: seq<Prepared>, n: nat, ctx: Context)
    requires DirectoryOk(dir) && AllSound(ps) && n <= |ps|
    ensures KeysInv(dir, scope, ps, n, ApplyRows(dir, StagedRows(dir, scope, ps)[..n], ctx))
  {
    hide *;
    KeysStart(dir, scope, ps, ctx);
    if n > 0 {
      KeysKept(dir, scope, ps, n - 1, ctx);
      ApplyUnfolds(dir, scope, ps, n - 1, ctx);
      var s := ApplyRows(dir, StagedRows(dir, scope, ps)[..n - 1], ctx);
      KeysStep(dir, scope, ps, n - 1, s, ApplyRow(s, StagedRow(dir, scope, ps, n - 1), ctx), ctx);
    }
  }

  /** Applying a staged file to the unchanged directory fails exactly when one of its new rows is blocked. */
  lemma {:induction false} ApplyFailsExactly(dir: Directory, scope: set<string>, ps: seq<Prepared>, ctx: Context)
    requires DirectoryOk(dir) && AllSound(ps)
    ensures ApplyRows(dir, StagedRows(dir, scope, ps), ctx).failed <==> Blocked(dir, scope, ps, |ps|)
  {
    hide StagedRows, ApplyRows, Blocked;
    WholeFile(dir, scope, ps);
    KeysKept(dir, scope, ps, |ps|, ctx);
  }

  // ----- calling codes -----------------------------------------------------

  /** Every character of the code is kept by normalisation, or one kept character is not a digit. */
  predicate SafeCode(code: Option<string>) { CodeIsDialable(code) || '+' in CallingCode(code) }

  /** Two destinations the batch tells apart and the directory does not. */
  predicate Splits(one: Prepared, two: Prepared) { one.dest != two.dest && Key(one.dest) == Key(two.dest) }

  lemma {:induction false} KeepConcat(a: string, b: string, p: char -> bool)
    ensures Keep(a + b, p) == Keep(a, p) + Keep(b, p)
  {
    if a == "" {
      assert a + b == b;
    } else {
      assert (a + b)[1..] == a[1..] + b;
      KeepConcat(a[1..], b, p);
    }
  }

  lemma KeepFinds(s: string, c: char, p: char -> bool)
    requires c in s && p(c)
    ensures c in Keep(s, p)
  {
  }

  /** What is stored for a canonical phone. */
  lemma StoredShape(cc: string, d: string)
    requires AllDigits(d)
    ensures Keep("+" + (cc + d), Dialable) == "+" + (Keep(cc, Dialable) + d)
  {
    KeepConcat("+", cc + d, Dialable);
    KeepConcat(cc, d, Dialable);
    assert Keep("+", Dialable) == "+";
    assert Keep(d, Dialable) == d;
  }

  lemma SameHeadSameTail(x: string, a: string, b: string)
    requires "+" + (x + a) == "+" + (x + b)
    ensures a == b
  {
    assert ("+" + (x + a))[1 + |x|..] == a && ("+" + (x + b))[1 + |x|..] == b;
  }

  /** Canonical phones under one safe code are told apart by their stored keys. */
  lemma SafePhonesDiffer(one: string, two: string, code: Option<string>)
    requires SafeCode(code) && ToE164(one, code).Canonical? && ToE164(one, code).address != ""
    requires ToE164(two, code).Canonical? && ToE164(two, code).address != ""
    requires Keep(ToE164(one, code).address, Dialable) == Keep(ToE164(two, code).address, Dialable)
    ensures ToE164(one, code) == ToE164(two, code)
  {
    hide ToE164, TakesCode;
    var c1, d1 := CanonicalShape(one, code);
    var c2, d2 := CanonicalShape(two, code);
    StoredShape(c1, d1);
    StoredShape(c2, d2);
    var k1, k2 := Keep(c1, Dialable), Keep(c2, Dialable);
    hide Keep, SafeCode;
    if c1 == c2 {
      SameHeadSameTail(k1, d1, d2);
    } else if c2 == "" {
      MixedCase(code, d1, d2);
    } else {
      MixedCase(code, d2, d1);
    }
  }

  lemma InnerPlus(k: string, d: string, e: string)
    requires AllDigits(e) && '+' in k
    ensures "+" + (k + d) != "+" + ("" + e)
  {
    var i :| 0 <= i < |k| && k[i] == '+';
    assert ("+" + (k + d))[1 + i] == '+';
    assert forall j :: 0 < j < |"+" + ("" + e)| ==> ("+" + ("" + e))[j] == e[j - 1];
  }

  /** A stored key with a safe code in it equals one without only if they are the same text. */
  lemma MixedCase(code: Option<string>, d: string, e: string)
    requires SafeCode(code) && AllDigits(e)
    requires "+" + (Keep(CallingCode(code), Dialable) + d) == "+" + (Keep("", Dialable) + e)
    ensures "+" + (CallingCode(code) + d) == "+" + ("" + e)
  {
    hide CallingCode, AllDigits;
    if '+' in CallingCode(code) {
      KeepFinds(CallingCode(code), '+', Dialable);
      InnerPlus(Keep(CallingCode(code), Dialable), d, e);
    }
  }

  /** With a safe code no two prepared rows are told apart only by the batch. */
  lemma SafeCodeNeverSplits(raw: RawRow, other: RawRow, code: Option<string>)
    requires SafeCode(code) && PrepareRow(raw, code).Ready? && PrepareRow(other, code).Ready?
    ensures !Splits(PrepareRow(raw, code).row, PrepareRow(other, code).row)
  {
    hide ToE164, SafeCode, Complete, Strip;
    var d, e := PrepareRow(raw, code).row.dest, PrepareRow(other, code).row.dest;
    if Key(d) == Key(e) {
      if d.channel.Email? {
        NormalizedEmailIsFixed(raw.address);
        NormalizedEmailIsFixed(other.address);
      } else {
        SafePhonesDiffer(raw.address, other.address, code);
      }
    }
  }

  function Plain(address: string): RawRow { RawRow("A", Sms, address, None, None) }

  /** A national number: digits, no trunk zero. */
  predicate National(n: string) { AllDigits(n) && n != "" && n[0] != '0' }

  /** The same number written internationally, under the digits of the code. */
  function International(code: Option<string>, n: string): string { "+" + (Keep(CallingCode(code), Dialable) + n) }

  /** Under an unsafe code the two spellings of every national number are told apart by the batch alone. */
  lemma UnsafeCodeSplits(code: Option<string>, n: string)
    requires !SafeCode(code) && National(n)
    ensures PrepareRow(Plain(n), code).Ready? && PrepareRow(Plain(International(code, n)), code).Ready?
    ensures Splits(PrepareRow(Plain(n), code).row, PrepareRow(Plain(International(code, n)), code).row)
  {
    hide *;
    var one, two := "+" + (CallingCode(code) + n), International(code, n);
    UnsafeCanonicals(code, n, one, two);
    PlainPrepared(n, code, one);
    PlainPrepared(two, code, two);
    SplitBy(one, two);
  }

  lemma SplitBy(one: string, two: string)
    requires one != two && Keep(one, Dialable) == Keep(two, Dialable)
    ensures Splits(Prepared(Dest(Sms, one), None, None), Prepared(Dest(Sms, two), None, None))
  {
    hide Keep;
  }

  lemma UnsafeCanonicals(code: Option<string>, n: string, one: string, two: string)
    requires !SafeCode(code) && National(n) && one == "+" + (CallingCode(code) + n) && two == International(code, n)
    ensures ToE164(n, code) == Canonical(one) && ToE164(two, code) == Canonical(two)
    ensures one != two && one != "" && two != "" && Keep(one, Dialable) == Keep(two, Dialable)
  {
    hide Digits, ToE164, Keep, AllDigits, CallingCode;
    var cc := CallingCode(code);
    var k := Keep(cc, Dialable);
    UnsafeKeepsDigits(cc);
    ConcatDigits(k, n);
    PlusDigitsIsFixed(two, k + n, code);
    NationalTakesUnsafe(code, n);
    StoredShape(cc, n);
    Associates(cc, n);
    UnsafeShrinks(code);
    assert |two| < |one|;
  }

  lemma UnsafeShrinks(code: Option<string>)
    requires !SafeCode(code)
    ensures |Keep(CallingCode(code), Dialable)| < |CallingCode(code)|
  {
    hide CallingCode;
    KeepShorter(CallingCode(code), Dialable);
  }

  lemma KeepShorter(s: string, p: char -> bool)
    ensures Keep(s, p) == s || |Keep(s, p)| < |s|
  {
  }

  lemma PlainPrepared(address: string, code: Option<string>, canonical: string)
    requires ToE164(address, code) == Canonical(canonical) && canonical != ""
    ensures PrepareRow(Plain(address), code) == Ready(Prepared(Dest(Sms, canonical), None, None))
  {
    hide ToE164;
    assert Strip("A") == "A";
  }

  lemma UnsafeKeepsDigits(cc: string)
    requires '+' !in cc
    ensures AllDigits(Keep(cc, Dialable))
  {
  }

  lemma NationalTakesUnsafe(code: Option<string>, n: string)
    requires !SafeCode(code) && National(n)
    ensures ToE164(n, code) == Canonical("+" + CallingCode(code) + n)
  {
    var cc := CallingCode(code);
    hide CallingCode;
    assert Digits(n) == n && LStrip(n, '0') == n;
    hide Keep;
    var i :| 0 <= i < |cc| && !Dialable(cc[i]);
    assert !(cc <= n);
  }

  // ----- both together -----------------------------------------------------

  /** `ps` is what preparing `raws` under `code` gives. */
  predicate PreparedFrom(ps: seq<Prepared>, raws: seq<RawRow>, code: Option<string>) {
    |ps| == |raws| && forall i :: 0 <= i < |ps| ==> PrepareRow(raws[i], code) == Ready(ps[i])
  }

  lemma PreparedAreSound(ps: seq<Prepared>, raws: seq<RawRow>, code: Option<string>)
    requires PreparedFrom(ps, raws, code)
    ensures AllSound(ps)
  {
    hide PrepareRow, Sound;
    forall i | 0 <= i < |ps| ensures Sound(ps[i]) { PreparedIsSound(raws[i], code); }
  }

  /** Row `j` is new, and its reference is held already or carried by an earlier new row. */
  predicate ReferenceTaken(dir: Directory, scope: set<string>, ps: seq<Prepared>, j: nat) {
    IsNew(dir, scope, ps, j) && ps[j].reference.Some? &&
    (ps[j].reference.value in dir.references || Refers(dir, scope, ps, j, ps[j].reference.value))
  }

  /** Under a safe code an accepted file fails exactly when the external reference of a new row is taken. */
  lemma SafeCodeFailsByReferenceOnly(
    dir: Directory, scope: set<string>, raws: seq<RawRow>, ps: seq<Prepared>, code: Option<string>, ctx: Context)
    requires DirectoryOk(dir) && PreparedFrom(ps, raws, code) && SafeCode(code)
    ensures ApplyRows(dir, StagedRows(dir, scope, ps), ctx).failed <==>
              exists j: nat :: j < |ps| && ReferenceTaken(dir, scope, ps, j)
  {
    PreparedAreSound(ps, raws, code);
    ApplyFailsExactly(dir, scope, ps, ctx);
    hide PrepareRow, IsNew, Key, SafeCode, StagedRows, ApplyRows, BlockedAt, ReferenceTaken, DirectoryOk;
    forall j: nat | j < |ps| ensures BlockedAt(dir, scope, ps, j) <==> ReferenceTaken(dir, scope, ps, j) {
      SafelyBlocked(dir, scope, raws, ps, code, j);
    }
  }

  lemma SafelyBlocked(dir: Directory, scope: set<string>, raws: seq<RawRow>, ps: seq<Prepared>, code: Option<string>, j: nat)
    requires PreparedFrom(ps, raws, code) && SafeCode(code) && j < |ps|
    ensures BlockedAt(dir, scope, ps, j) <==> ReferenceTaken(dir, scope, ps, j)
  {
    hide PrepareRow, IsNew, Key, SafeCode, BlockedAt, Refers, Claims;
    if IsNew(dir, scope, ps, j) {
      BlockedByIndexes(dir, scope, ps, j);
      NoEarlierClaim(dir, scope, raws, ps, code, j);
    } else {
      NotNewNotBlocked(dir, scope, ps, j);
    }
  }

  lemma NoEarlierClaim(dir: Directory, scope: set<string>, raws: seq<RawRow>, ps: seq<Prepared>, code: Option<string>, j: nat)
    requires PreparedFrom(ps, raws, code) && SafeCode(code) && IsNew(dir, scope, ps, j)
    ensures !Claims(dir, scope, ps, j, Key(ps[j].dest))
  {
    assert j < |ps|;
    hide PrepareRow, IsNew, Key, SafeCode;
    forall i: nat | i < j ensures Key(ps[i].dest) != Key(ps[j].dest) {
      SafeCodeNeverSplits(raws[i], raws[j], code);
      NewIsFirst(dir, scope, ps, i, j);
    }
  }

  /** For one: two people in a file under one reference, at any two destinations nobody holds. */
  lemma SharedReferenceFails(dir: Directory, scope: set<string>, one: Dest, two: Dest, reference: string, ctx: Context)
    requires DirectoryOk(dir) && Key(one).address != "" && Key(two).address != "" && one != two
    requires Key(one) !in dir.addresses && Key(two) !in dir.addresses
    ensures var ps := [Prepared(one, None, Some(reference)), Prepared(two, None, Some(reference))];
            AllSound(ps) && ApplyRows(dir, StagedRows(dir, scope, ps), ctx).failed
  {
    var ps := [Prepared(one, None, Some(reference)), Prepared(two, None, Some(reference))];
    ApplyFailsExactly(dir, scope, ps, ctx);
    hide StagedRows, ApplyRows, Key;
    TwoNewRows(dir, scope, ps);
    assert Clashing(dir, scope, ps, 0, 1);
    assert BlockedAt(dir, scope, ps, 1);
  }

  /** Under an unsafe one, a file with the two spellings of any national number fails halfway on an empty directory. */
  lemma UnsafeCodeFails(code: Option<string>, n: string, scope: set<string>, ctx: Context)
    returns (raws: seq<RawRow>, ps: seq<Prepared>, dir: Directory)
    requires !SafeCode(code) && National(n)
    ensures DirectoryOk(dir) && PreparedFrom(ps, raws, code)
    ensures ApplyRows(dir, StagedRows(dir, scope, ps), ctx).failed
  {
    hide Keep, PrepareRow, Key, SafeCode, StagedRows, ApplyRows, International, Plain, National;
    dir := Directory(map[], map[], EMPTY, 0, {});
    raws := [Plain(n), Plain(International(code, n))];
    UnsafeCodeSplits(code, n);
    ps := [PrepareRow(raws[0], code).row, PrepareRow(raws[1], code).row];
    PreparedAreSound(ps, raws, code);
    ApplyFailsExactly(dir, scope, ps, ctx);
    TwoNewRows(dir, scope, ps);
    assert Clashing(dir, scope, ps, 0, 1);
    assert BlockedAt(dir, scope, ps, 1);
  }

  lemma TwoNewRows(dir: Directory, scope: set<string>, ps: seq<Prepared>)
    requires |ps| == 2 && ps[0].dest != ps[1].dest
    requires Key(ps[0].dest) !in dir.addresses && Key(ps[1].dest) !in dir.addresses
    ensures IsNew(dir, scope, ps, 0) && IsNew(dir, scope, ps, 1)
  {
    hide Key;
  }
}
