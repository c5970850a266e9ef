/** Destinations as written, as canonicalised on import, and as the unique index stores them. */
module PhoneAddresses {
  import opened Prelude
  import opened ConsentLedgers

  const MIN_NATIONAL_DIGITS := 7

  datatype Canonical = Canonical(address: string) | NeedsCallingCode

  predicate IsDigit(c: char) { '0' <= c <= '9' }

  predicate AllDigits(s: string) { forall i :: 0 <= i < |s| ==> IsDigit(s[i]) }

  predicate Dialable(c: char) { IsDigit(c) || c == '+' }

  function Keep(s: string, p: char -> bool): (kept: string)
    ensures forall i :: 0 <= i < |kept| ==> p(kept[i]) && kept[i] in s
    ensures (forall i :: 0 <= i < |s| ==> p(s[i])) <==> kept == s
    ensures |kept| <= |s|
  {
    if s == "" then ""
    else if p(s[0]) then
      var rest := Keep(s[1..], p);
      assert s == [s[0]] + s[1..];
      [s[0]] + rest
    else Keep(s[1..], p)
  }

  function Digits(s: string): string { Keep(s, IsDigit) }

  function LStrip(s: string, c: char): (t: string)
    ensures t == "" || t[0] != c
    ensures |t| <= |s| && t == s[|s| - |t|..]
    ensures forall i :: 0 <= i < |s| - |t| ==> s[i] == c
  {
    if s != "" && s[0] == c then LStrip(s[1..], c) else s
  }

  // ----- e-mail ------------------------------------------------------------

  /** The ASCII characters that count as white space. */
  predicate Blank(c: char) { c == ' ' || '\t' <= c <= '\r' || '\U{1C}' <= c <= '\U{1F}' }

  function Lower(c: char): char { if 'A' <= c <= 'Z' then c + ' ' else c }

  function LowerAll(s: string): (t: string)
    ensures |t| == |s| && forall i :: 0 <= i < |s| ==> t[i] == Lower(s[i])
  {
    seq(|s|, i requires 0 <= i < |s| => Lower(s[i]))
  }

  function Strip(s: string): (t: string)
    ensures t == "" || (!Blank(t[0]) && !Blank(t[|t| - 1]))
    ensures s == "" || (!Blank(s[0]) && !Blank(s[|s| - 1])) ==> t == s
  {
    if s == "" then ""
    else if Blank(s[0]) then Strip(s[1..])
    else if Blank(s[|s| - 1]) then Strip(s[..|s| - 1])
    else s
  }

  // ----- the two forms -----------------------------------------------------

  /** The stored key of an address: an e-mail trimmed and lower-cased, a phone reduced to digits and plus signs. */
  function Normalize(channel: Channel, address: string): string {
    if channel.Email? then LowerAll(Strip(address)) else Keep(address, Dialable)
  }

  lemma {:induction false} KeepDropsLast(s: string, p: char -> bool)
    requires s != "" && !p(s[|s| - 1])
    ensures Keep(s, p) == Keep(s[..|s| - 1], p)
    decreases |s|
  {
    var n := |s| - 1;
    if n == 0 {
      assert s[1..] == "" && s[..0] == "";
    } else {
      KeepDropsLast(s[1..], p);
      assert s[1..][..n - 1] == s[..n][1..];
    }
  }

  lemma {:induction false} KeepStrips(s: string)
    ensures Keep(Strip(s), Dialable) == Keep(s, Dialable)
    decreases |s|
  {
    if s != "" && Blank(s[0]) {
      KeepStrips(s[1..]);
    } else if s != "" && Blank(s[|s| - 1]) {
      KeepDropsLast(s, Dialable);
      KeepStrips(s[..|s| - 1]);
    }
  }

  /** Trimming what was typed does not change what it is looked up by. */
  lemma NormalizeStrips(channel: Channel, text: string)
    ensures Normalize(channel, Strip(text)) == Normalize(channel, text)
  {
    KeepStrips(text);
  }

  function CallingCode(code: Option<string>): string { if code.Some? then LStrip(code.value, '+') else "" }

  /** A calling code written in digits and plus signs, or none. */
  predicate CodeIsDialable(code: Option<string>) {
    forall i :: 0 <= i < |CallingCode(code)| ==> Dialable(CallingCode(code)[i])
  }

  predicate AlreadyInternational(digits: string, code: string) {
    code <= digits && |digits| - |code| >= MIN_NATIONAL_DIGITS
  }

  function ToE164(raw: string, code: Option<string>): Canonical {
    var digits := Digits(raw);
    var cc := CallingCode(code);
    if digits == "" then Canonical("")
    else if '+' in raw then Canonical("+" + digits)
    else if "00" <= digits then Canonical("+" + digits[2..])
    else if cc == "" then NeedsCallingCode
    else if AlreadyInternational(digits, cc) then Canonical("+" + digits)
    else Canonical("+" + cc + LStrip(digits, '0'))
  }

  /** The spelling is national, so the batch's calling code goes into the result. */
  predicate TakesCode(raw: string, code: Option<string>) {
    var digits := Digits(raw);
    digits != "" && '+' !in raw && !("00" <= digits) && CallingCode(code) != "" &&
    !AlreadyInternational(digits, CallingCode(code))
  }

  function CanonicalAddress(channel: Channel, raw: string, code: Option<string>): Canonical {
    if channel.Email? then Canonical(Normalize(Email, raw)) else ToE164(raw, code)
  }

  // ----- fixed points ------------------------------------------------------

  lemma NormalizedEmailIsFixed(raw: string)
    ensures Normalize(Email, Normalize(Email, raw)) == Normalize(Email, raw)
  {
    var s := Strip(raw);
    var t := LowerAll(s);
    assert Strip(t) == t;
    assert LowerAll(t) == t;
  }

  lemma PlusDigitsIsFixed(s: string, d: string, code: Option<string>)
    requires s == "+" + d && AllDigits(d)
    ensures Keep(s, Dialable) == s && Digits(s) == d
    ensures d != "" ==> ToE164(s, code) == Canonical(s)
  {
    assert s[0] == '+' && s[1..] == d;
    assert Keep(s, IsDigit) == Keep(d, IsDigit) == d;
    assert s[0] in s;
  }

  lemma DigitsAreDigits(raw: string)
    ensures AllDigits(Digits(raw))
  {
  }

  lemma Associates(a: string, b: string)
    ensures "+" + a + b == "+" + (a + b)
  {
  }

  lemma ConcatDigits(a: string, b: string)
    requires AllDigits(a) && AllDigits(b)
    ensures AllDigits(a + b)
  {
  }

  /** What a phone spelling canonicalises to: a plus, perhaps the code, and digits only. */
  lemma CanonicalShape(raw: string, code: Option<string>) returns (cc: string, d: string)
    requires ToE164(raw, code).Canonical? && ToE164(raw, code).address != ""
    ensures cc == if TakesCode(raw, code) then CallingCode(code) else ""
    ensures AllDigits(d) && ToE164(raw, code).address == "+" + (cc + d)
  {
    hide Digits, CallingCode, AlreadyInternational;
    DigitsAreDigits(raw);
    var digits := Digits(raw);
    if TakesCode(raw, code) {
      cc, d := CallingCode(code), LStrip(digits, '0');
      Associates(cc, d);
    } else {
      cc, d := "", if '+' !in raw && "00" <= digits then digits[2..] else digits;
      assert cc + d == d;
    }
  }

  /** Every canonical phone keeps at least its plus sign when normalised. */
  lemma CanonicalHasKey(channel: Channel, raw: string, code: Option<string>)
    requires !channel.Email? && ToE164(raw, code).Canonical? && ToE164(raw, code).address != ""
    ensures Normalize(channel, ToE164(raw, code).address) != ""
  {
    assert ToE164(raw, code).address[0] == '+';
  }

  lemma DialableParts(s: string, cc: string, d: string)
    requires s == "+" + (cc + d) && AllDigits(d)
    ensures Keep(s, Dialable) == s <==> forall i :: 0 <= i < |cc| ==> Dialable(cc[i])
  {
    if forall i :: 0 <= i < |cc| ==> Dialable(cc[i]) {
      forall i | 0 <= i < |s| ensures Dialable(s[i]) {}
    } else {
      var i :| 0 <= i < |cc| && !Dialable(cc[i]);
      assert s[i + 1] == cc[i];
    }
  }

  /**
   * The batch's dedupe key is the stored unique key: a non-empty canonical phone
   * is a fixed point of normalisation exactly when any calling code that went
   * into it is written in digits and plus signs.
   */
  lemma DedupeKeyIsStoredKey(channel: Channel, raw: string, code: Option<string>)
    requires !channel.Email? && ToE164(raw, code).Canonical? && ToE164(raw, code).address != ""
    ensures var s := ToE164(raw, code).address;
            Normalize(channel, s) == s <==>
              (TakesCode(raw, code) ==> forall i :: 0 <= i < |CallingCode(code)| ==> Dialable(CallingCode(code)[i]))
  {
    var cc, d := CanonicalShape(raw, code);
    hide ToE164, TakesCode, CallingCode, Keep;
    DialableParts(ToE164(raw, code).address, cc, d);
  }

  /**
   * A canonical phone that has a digit is a fixed point of both forms exactly
   * when any calling code that went into it is written in digits.
   */
  lemma CanonicalIsFixed(channel: Channel, raw: string, code: Option<string>, again: Option<string>)
    requires !channel.Email?
    requires ToE164(raw, code).Canonical? && ToE164(raw, code).address != "" && ToE164(raw, code).address != "+"
    ensures var s := ToE164(raw, code).address;
            CanonicalAddress(channel, s, again) == Canonical(s) && Normalize(channel, s) == s <==>
              (TakesCode(raw, code) ==> AllDigits(CallingCode(code)))
  {
    var cc, d := CanonicalShape(raw, code);
    var s := ToE164(raw, code).address;
    hide TakesCode, CallingCode, Keep;
    if AllDigits(cc) {
      ConcatDigits(cc, d);
      hide ToE164, AllDigits;
      PlusDigitsIsFixed(s, cc + d, again);
    } else {
      NotFixedUnlessDigits(s, cc, d, again);
      hide ToE164, AllDigits;
    }
  }

  lemma NotFixedUnlessDigits(s: string, cc: string, d: string, again: Option<string>)
    requires s == "+" + (cc + d) && !AllDigits(cc)
    ensures ToE164(s, again) != Canonical(s)
  {
    hide CallingCode, Keep;
    assert s[0] == '+' && s[0] in s;
    DigitsAreDigits(s);
    var i :| 0 <= i < |cc| && !IsDigit(cc[i]);
    assert s[1 + i] == cc[i];
    assert ("+" + Digits(s))[1..] == Digits(s);
  }

  /** Why a digit is asked for: the bare trunk "00" canonicalises to a lone plus, which canonicalises to nothing. */
  lemma BareTrunkIsNotFixed(code: Option<string>)
    ensures ToE164("00", code) == Canonical("+") && ToE164("+", code) == Canonical("")
  {
    assert Digits("00") == "00" && Digits("+") == "";
  }

  // ----- what the branches of canonicalisation mean -------------------------

  /** Stripping takes the blanks off both ends and nothing else. */
  lemma {:induction false} StripMeans(s: string) returns (i: nat, j: nat)
    ensures i <= j <= |s| && Strip(s) == s[i..j]
    ensures AllBlank(s[..i]) && AllBlank(s[j..])
    decreases |s|
  {
    hide Blank;
    if s == "" {
      i, j := 0, 0;
    } else if Blank(s[0]) {
      i, j := StripMeans(s[1..]);
      BlankInFront(s, i, j);
      i, j := i + 1, j + 1;
    } else if Blank(s[|s| - 1]) {
      i, j := StripMeans(s[..|s| - 1]);
      BlankBehind(s, i, j);
    } else {
      i, j := 0, |s|;
    }
  }

  predicate AllBlank(s: string) { forall k :: 0 <= k < |s| ==> Blank(s[k]) }

  lemma BlankInFront(s: string, i: nat, j: nat)
    requires s != "" && Blank(s[0]) && i <= j <= |s| - 1 && AllBlank(s[1..][..i]) && AllBlank(s[1..][j..])
    ensures s[1..][i..j] == s[i + 1..j + 1] && AllBlank(s[..i + 1]) && AllBlank(s[j + 1..])
  {
    hide Blank;
    assert s[..i + 1] == [s[0]] + s[1..][..i] && s[j + 1..] == s[1..][j..];
  }

  lemma BlankBehind(s: string, i: nat, j: nat)
    requires s != "" && Blank(s[|s| - 1]) && i <= j <= |s| - 1
    requires AllBlank(s[..|s| - 1][..i]) && AllBlank(s[..|s| - 1][j..])
    ensures s[..|s| - 1][i..j] == s[i..j] && AllBlank(s[..i]) && AllBlank(s[j..])
  {
    hide Blank;
    assert s[..i] == s[..|s| - 1][..i] && s[j..] == s[..|s| - 1][j..] + [s[|s| - 1]];
  }

  lemma StripsToNothing(s: string)
    ensures Strip(s) == "" <==> AllBlank(s)
  {
    var i, j := StripMeans(s);
    hide Blank;
    if Strip(s) == "" {
      assert s == s[..i] + s[j..];
    } else {
      assert Strip(s)[0] == s[i];
    }
  }

  /** The two characters are equal, or one letter in its two cases. */
  predicate SameLetter(c: char, d: char) {
    c == d || ('A' <= c <= 'Z' && d as int == c as int + 32) || ('A' <= d <= 'Z' && c as int == d as int + 32)
  }

  lemma {:induction false} LoweringStrips(s: string)
    ensures LowerAll(Strip(s)) == Strip(LowerAll(s))
    decreases |s|
  {
    var t := LowerAll(s);
    if s != "" && Blank(s[0]) {
      LoweringStrips(s[1..]);
      assert t[1..] == LowerAll(s[1..]);
    } else if s != "" && Blank(s[|s| - 1]) {
      LoweringStrips(s[..|s| - 1]);
      assert t[..|s| - 1] == LowerAll(s[..|s| - 1]);
    }
  }

  /** Spellings of an e-mail address that differ in ASCII case alone have one key. */
  lemma {:induction false} EmailIgnoresCase(one: string, two: string)
    requires |one| == |two| && forall i :: 0 <= i < |one| ==> SameLetter(one[i], two[i])
    ensures Normalize(Email, one) == Normalize(Email, two)
  {
    LoweringStrips(one);
    LoweringStrips(two);
    assert LowerAll(one) == LowerAll(two);
  }

  lemma {:induction false} PlusesOnly(s: string)
    ensures LStrip(s, '+') == "" <==> forall i :: 0 <= i < |s| ==> s[i] == '+'
  {
    if s != "" && s[0] == '+' { PlusesOnly(s[1..]); }
  }

  /** The batch's code is asked for exactly when there are digits, no plus, no "00" in front, and no code. */
  lemma NeedsCodeExactly(raw: string, code: Option<string>)
    ensures ToE164(raw, code).NeedsCallingCode? <==>
              Digits(raw) != "" && '+' !in raw && !("00" <= Digits(raw)) &&
              (code.None? || forall i :: 0 <= i < |code.value| ==> code.value[i] == '+')
    ensures ToE164(raw, code) == Canonical("") <==> Digits(raw) == ""
  {
    if code.Some? { PlusesOnly(code.value); }
    hide Digits, LStrip;
  }

  /**
   * A number that begins with the code's own digits is read as international
   * exactly when seven or more digits follow, and as national otherwise.
   */
  lemma AmbiguousPrefix(cc: string, rest: string, raw: string)
    requires cc != "" && cc[0] != '0' && cc[0] != '+' && '+' !in raw && Digits(raw) == cc + rest
    ensures ToE164(raw, Some(cc)) == Canonical(if |rest| >= 7 then "+" + cc + rest else "+" + cc + cc + rest)
  {
    assert CallingCode(Some(cc)) == cc;
    assert (cc + rest)[0] == cc[0];
    assert LStrip(cc + rest, '0') == cc + rest;
    assert "+" + (cc + rest) == "+" + cc + rest && "+" + cc + (cc + rest) == "+" + cc + cc + rest;
    hide Digits, LStrip, CallingCode;
  }

  // ----- one number, three spellings ----------------------------------------

  /** A number under a calling code, in digits, with no leading zero on either part. */
  predicate IsNumber(cc: string, national: string) {
    AllDigits(cc) && AllDigits(national) && cc != "" && national != "" && cc[0] != '0' && national[0] != '0'
  }

  /**
   * "+", "00" and national spellings of one number, with any separators and at
   * most one trunk zero on the national one, agree under the batch's calling
   * code exactly when the national spelling is not read as international already.
   */
  lemma SpellingsAgree(cc: string, national: string, plus: string, double: string, local: string, trunk: string)
    requires IsNumber(cc, national) && trunk in {"", "0"}
    requires '+' in plus && Digits(plus) == cc + national
    requires '+' !in double && Digits(double) == "00" + cc + national
    requires '+' !in local && Digits(local) == trunk + national
    ensures ToE164(plus, Some(cc)) == Canonical("+" + cc + national)
    ensures ToE164(double, Some(cc)) == Canonical("+" + cc + national)
    ensures ToE164(local, Some(cc)) == Canonical("+" + cc + national) <==> !AlreadyInternational(trunk + national, cc)
  {
    assert CallingCode(Some(cc)) == cc;
    assert "+" + (cc + national) == "+" + cc + national;
    assert ("00" + cc + national)[2..] == cc + national && "00" <= "00" + cc + national;
    var digits := trunk + national;
    assert !("00" <= digits) by {
      if trunk == "0" { assert digits[1] == national[0]; } else { assert digits[0] == national[0]; }
    }
    TrunkStrips(trunk, national);
    if AlreadyInternational(digits, cc) {
      assert digits[0] == cc[0];
      assert trunk == "";
      assert |"+" + digits| < |"+" + cc + national|;
    }
  }

  lemma TrunkStrips(trunk: string, national: string)
    requires trunk in {"", "0"} && national != "" && national[0] != '0'
    ensures LStrip(trunk + national, '0') == national
  {
    if trunk == "0" { assert (trunk + national)[1..] == national; }
    else { assert trunk + national == national; }
  }
}
