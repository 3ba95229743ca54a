/** What the parser returns on the ways amounts are written on the pages, digit by digit. */
module MoneyForms {
  import opened Support
  import opened Money
  import opened MoneyRoundTrip

  /* ------------------------- how amounts are written ------------------------- */

  /** White space or a comma, which may stand anywhere in a written amount. */
  predicate Filler(c: char)
  {
    Text.IsSpace(c) || c == ','
  }

  /** `s` is what is left of the text without its fillers; `at` says where each character comes from. */
  ghost predicate LeftAt(text: string, s: string, at: seq<nat>)
  {
    && |at| == |s|
    && (forall i :: 0 <= i < |s| ==> at[i] < |text| && s[i] == text[at[i]] && !Filler(s[i]))
    && (forall i, k :: 0 <= i < k < |s| ==> at[i] < at[k])
    && (forall p :: 0 <= p < |text| && !Filler(text[p]) ==> exists i :: 0 <= i < |s| && at[i] == p)
  }

  /** The text writes `s`, with commas and spaces or without. */
  ghost predicate Writes(text: string, s: string)
  {
    exists at :: LeftAt(text, s, at)
  }

  predicate AllDigits(s: string)
  {
    forall i :: 0 <= i < |s| ==> IsDigit(s[i])
  }

  predicate Integer(s: string)
  {
    s != "" && AllDigits(s)
  }

  /** The number that digits write. */
  function Value(ds: string): nat
  {
    if AllDigits(ds) then ValueOf(ds) else 0
  }

  /** An optional sign, digits, and optionally a point and digits. */
  datatype Numeral = Numeral(sign: string, whole: string, fraction: string)

  predicate NumeralOk(n: Numeral)
  {
    n.sign in {"", "+", "-"} && Integer(n.whole) && AllDigits(n.fraction)
  }

  function Spell(n: Numeral): string
  {
    n.sign + n.whole + if n.fraction == "" then "" else "." + n.fraction
  }

  /** All digits of the numeral as one integer. */
  function Whole(n: Numeral): nat
  {
    Value(n.whole + n.fraction)
  }

  /** `v` is the numeral times the unit, cut off towards zero. */
  ghost predicate Cut(v: int, n: Numeral, unit: nat)
  {
    && Abs(v) * Pow10(|n.fraction|) <= Whole(n) * unit < (Abs(v) + 1) * Pow10(|n.fraction|)
    && (v > 0 ==> n.sign != "-") && (v < 0 ==> n.sign == "-")
  }

  datatype Unit = HundredMillions | TenMillions | TenThousands | Ones | NoUnit

  function UnitText(u: Unit): string
  {
    match u
    case HundredMillions => [EOK]
    case TenMillions => [CHEON, MAN]
    case TenThousands => [MAN]
    case Ones => [WON]
    case NoUnit => ""
  }

  function UnitWorth(u: Unit): nat
  {
    match u
    case HundredMillions => 100_000_000
    case TenMillions => 10_000_000
    case TenThousands => 10_000
    case Ones => 1
    case NoUnit => 1
  }

  /** Tens of millions and ten-thousands may be followed by the won sign. */
  predicate TailOk(u: Unit, tail: string)
  {
    tail == "" || (tail == [WON] && u in {TenMillions, TenThousands})
  }

  /** Ten to the 28th. */
  const LIMIT := 10_000_000_000_000_000_000_000_000_000

  /* ------------------------- fillers ------------------------- */

  lemma LastChar(text: string, c: char)
    ensures Compact(text + [c]) == Compact(text) + if Filler(c) then "" else [c]
  {
    CompactConcat(text, [c]);
    assert Compact("") == "" && [c][1..] == "";
    assert Compact([c]) == if Filler(c) then "" else [c];
  }

  lemma FillerSnoc(text: string, c: char, s: string, at: seq<nat>)
    requires Filler(c)
    ensures LeftAt(text + [c], s, at) <==> LeftAt(text, s, at)
  {
    hide Filler;
    var all := text + [c];
    assert forall p :: 0 <= p < |text| ==> all[p] == text[p];
    if LeftAt(all, s, at) {
      forall i | 0 <= i < |s| ensures at[i] < |text| {
        assert all[|text|] == c;
      }
    }
  }

  lemma CharSnoc(text: string, c: char, s: string, at: seq<nat>)
    requires !Filler(c) && LeftAt(text, s, at)
    ensures LeftAt(text + [c], s + [c], at + [|text|])
  {
    hide Filler;
    var all, s', at' := text + [c], s + [c], at + [|text|];
    assert forall i :: 0 <= i < |s| ==> s'[i] == s[i] && at'[i] == at[i];
    forall p | 0 <= p < |all| && !Filler(all[p]) ensures exists i :: 0 <= i < |s'| && at'[i] == p {
      if p < |text| {
        assert all[p] == text[p];
        var i :| 0 <= i < |s| && at[i] == p;
        assert at'[i] == p;
      } else {
        assert at'[|s|] == p;
      }
    }
  }

  /** The last character that is no filler comes last. */
  lemma CharLast(text: string, c: char, s: string, at: seq<nat>)
    requires !Filler(c) && LeftAt(text + [c], s, at)
    ensures s != "" && at[|s| - 1] == |text| && s[|s| - 1] == c
  {
    hide Filler;
    var all := text + [c];
    assert all[|text|] == c;
    var i :| 0 <= i < |s| && at[i] == |text|;
    if i < |s| - 1 {
      assert at[i] < at[|s| - 1];
    }
  }

  lemma CharInit(text: string, c: char, s: string, at: seq<nat>)
    requires LeftAt(text + [c], s, at) && s != "" && at[|s| - 1] == |text|
    ensures LeftAt(text, s[..|s| - 1], at[..|s| - 1])
  {
    hide Filler;
    var all, n := text + [c], |s| - 1;
    forall i | 0 <= i < n ensures at[i] < |text| && s[i] == text[at[i]] {
      assert at[i] < at[n];
    }
    forall p | 0 <= p < |text| && !Filler(text[p]) ensures exists i :: 0 <= i < |s[..n]| && at[..n][i] == p {
      assert all[p] == text[p];
      var i :| 0 <= i < |s| && at[i] == p;
      assert at[..n][i] == p;
    }
  }

  lemma {:induction false} LeftCompact(text: string, s: string, at: seq<nat>)
    requires LeftAt(text, s, at)
    ensures Compact(text) == s
  {
    if text == "" {
      assert s == "";
    } else {
      var n := |text| - 1;
      var c := text[n];
      assert text == text[..n] + [c];
      LastChar(text[..n], c);
      hide *;
      if Filler(c) {
        FillerSnoc(text[..n], c, s, at);
        LeftCompact(text[..n], s, at);
        assert Compact(text[..n]) + "" == Compact(text[..n]);
      } else {
        CharLast(text[..n], c, s, at);
        CharInit(text[..n], c, s, at);
        LeftCompact(text[..n], s[..|s| - 1], at[..|s| - 1]);
        assert s == s[..|s| - 1] + [c];
      }
    }
  }

  lemma {:induction false} CompactLeft(text: string) returns (at: seq<nat>)
    ensures LeftAt(text, Compact(text), at)
  {
    if text == "" {
      at := [];
    } else {
      var n := |text| - 1;
      var c := text[n];
      assert text == text[..n] + [c];
      LastChar(text[..n], c);
      hide *;
      var rest := CompactLeft(text[..n]);
      if Filler(c) {
        at := rest;
        FillerSnoc(text[..n], c, Compact(text[..n]), rest);
        assert Compact(text[..n]) + "" == Compact(text[..n]);
      } else {
        at := rest + [n];
        CharSnoc(text[..n], c, Compact(text[..n]), rest);
      }
    }
  }

  /** What a text writes is what the parser looks at. */
  lemma WritesCompact(text: string, s: string)
    ensures Writes(text, s) <==> Compact(text) == s
  {
    if Writes(text, s) {
      var at :| LeftAt(text, s, at);
      LeftCompact(text, s, at);
    }
    var at := CompactLeft(text);
  }

  /* ------------------------- reading a numeral ------------------------- */

  predicate Ends(rest: string)
  {
    rest == "" || (!IsDigit(rest[0]) && rest[0] != '.')
  }

  function Coefficient(n: Numeral): int
  {
    var whole: int := Whole(n);
    if n.sign == "-" then -whole else whole
  }

  /** The digits of `s` from `i` on are `ds`, and then they end. */
  lemma DigitsThere(s: string, i: nat, ds: string, rest: string)
    requires i <= |s| && s[i..] == ds + rest && AllDigits(ds) && (rest == "" || !IsDigit(rest[0]))
    ensures DigitsEnd(s, i) == i + |ds| && s[i..i + |ds|] == ds
  {
    hide IsDigit;
    forall j | i <= j < i + |ds| ensures s[j] == ds[j - i] {
      assert s[j] == s[i..][j - i];
    }
    if rest != "" {
      assert s[i + |ds|] == s[i..][|ds|] == rest[0];
    }
    DigitsRun(s, i, i + |ds|);
  }

  function Behind(n: Numeral, rest: string): string
  {
    if n.fraction == "" then rest else Pointed(n.fraction, rest)
  }

  lemma SpelledSign(n: Numeral, rest: string)
    requires NumeralOk(n)
    ensures Starts(Spell(n) + rest, n, rest)
  {
    var s := Spell(n) + rest;
    assert s == n.sign + (n.whole + Behind(n, rest));
    assert s[..|n.sign|] == n.sign;
  }

  lemma TailChar(s: string, i: nat, t: string)
    requires i <= |s| && s[i..] == t
    ensures |s| == i + |t| && forall k :: 0 <= k < |t| ==> s[i + k] == t[k]
  {
    forall k | 0 <= k < |t| ensures s[i + k] == t[k] {
      assert s[i..][k] == t[k];
    }
  }

  lemma TailOf(s: string, i: nat, a: string, b: string)
    requires i <= |s| && s[i..] == a + b
    ensures i + |a| <= |s| && s[i + |a|..] == b
  {
    assert s[i..][|a|..] == b;
  }

  /** The number pattern, given where its digits end. */
  lemma NumberEnds(s: string, sign: string, k: nat, m: nat)
    requires sign in {"", "+", "-"} && sign <= s && |sign| < k <= m <= |s| && IsDigit(s[|sign|])
    requires sign == "" || s[0] == sign[0]
    requires DigitsEnd(s, |sign|) == k
    requires if k == m then k == |s| || s[k] != '.'
             else k + 1 < m && s[k] == '.' && IsDigit(s[k + 1]) && DigitsEnd(s, k + 1) == m
    ensures var ds := s[|sign|..k] + if k == m then "" else s[k + 1..m];
      var whole: int := Value(ds);
      NumberAt(s, 0) == Some((m, Dec(if sign == "-" then -whole else whole, if k == m then 0 else k + 1 - m)))
  {
    hide ValueOf, DigitsEnd;
    assert s[|sign|..k] + "" == s[|sign|..k];
  }

  lemma WholeFound(s: string, j: nat, whole: string, rest: string)
    requires Integer(whole) && Ends(rest) && j <= |s| && s[j..] == whole + rest
    ensures var k := j + |whole|;
      && j < k <= |s| && DigitsEnd(s, j) == k && s[j..k] == whole && IsDigit(s[j]) && (k == |s| || s[k] != '.')
  {
    hide DigitsEnd, IsDigit;
    DigitsThere(s, j, whole, rest);
    TailChar(s, j, whole + rest);
    assert s[j] == whole[0];
    assert rest != "" ==> s[j + |whole|] == (whole + rest)[|whole|] == rest[0];
  }

  lemma WholeText(s: string, sign: string, whole: string, rest: string)
    requires sign in {"", "+", "-"} && Integer(whole) && Ends(rest)
    requires sign <= s && (sign != "" ==> s[0] == sign[0]) && s[|sign|..] == whole + rest
    ensures var v: int := Value(whole);
      NumberAt(s, 0) == Some((|sign| + |whole|, Dec(if sign == "-" then -v else v, 0)))
  {
    hide *;
    WholeFound(s, |sign|, whole, rest);
    NumberEnds(s, sign, |sign| + |whole|, |sign| + |whole|);
    assert whole + "" == whole;
  }

  function Pointed(fraction: string, rest: string): string
  {
    "." + (fraction + rest)
  }

  lemma PointAhead(fraction: string, rest: string)
    ensures Pointed(fraction, rest) != "" && !IsDigit(Pointed(fraction, rest)[0])
  {
  }

  lemma FractionPlaces(s: string, j: nat, whole: string, fraction: string, rest: string)
    requires j <= |s| && s[j..] == whole + Pointed(fraction, rest) && whole != "" && fraction != ""
    ensures var k := j + |whole|;
      && k + 1 + |fraction| <= |s| && s[j] == whole[0] && s[k] == '.' && s[k + 1] == fraction[0]
      && s[k + 1..] == fraction + rest
  {
    var k, tail := j + |whole|, fraction + rest;
    TailChar(s, j, whole + ("." + tail));
    TailOf(s, j, whole, "." + tail);
    TailOf(s, k, ".", tail);
    TailChar(s, k, "." + tail);
    TailChar(s, k + 1, tail);
  }

  lemma CoefficientIs(n: Numeral)
    requires NumeralOk(n)
    ensures n.sign in {"", "+", "-"} && Integer(n.whole) && (n.fraction != "" ==> Integer(n.fraction))
    ensures var whole: int := Value(n.whole + n.fraction); Coefficient(n) == if n.sign == "-" then -whole else whole
  {
  }

  /** Digits from `j` to `k`, a point, and digits to `m`. */
  ghost predicate PointAt(s: string, j: nat, k: nat, m: nat, whole: string, fraction: string)
  {
    && j < k && k + 1 < m <= |s| && s[k] == '.'
    && DigitsEnd(s, j) == k && s[j..k] == whole && DigitsEnd(s, k + 1) == m && s[k + 1..m] == fraction
  }

  lemma PointFound(s: string, j: nat, whole: string, fraction: string, rest: string)
    requires Integer(whole) && Integer(fraction) && (rest == "" || !IsDigit(rest[0]))
    requires j <= |s| && s[j..] == whole + Pointed(fraction, rest)
    ensures PointAt(s, j, j + |whole|, j + |whole| + 1 + |fraction|, whole, fraction)
    ensures j + |whole| + 1 + |fraction| <= |s|
  {
    FractionPlaces(s, j, whole, fraction, rest);
    PointAhead(fraction, rest);
    hide Pointed, IsDigit, DigitsEnd;
    DigitsThere(s, j, whole, Pointed(fraction, rest));
    DigitsThere(s, j + |whole| + 1, fraction, rest);
  }

  lemma PointRead(s: string, sign: string, k: nat, m: nat, whole: string, fraction: string)
    requires sign in {"", "+", "-"} && Integer(whole) && Integer(fraction)
    requires sign <= s && (sign != "" ==> s[0] == sign[0]) && PointAt(s, |sign|, k, m, whole, fraction)
    ensures var v: int := Value(whole + fraction);
      NumberAt(s, 0) == Some((m, Dec(if sign == "-" then -v else v, k + 1 - m)))
  {
    assert s[|sign|] == s[|sign|..k][0] && s[k + 1] == s[k + 1..m][0];
    assert IsDigit(whole[0]) && IsDigit(fraction[0]);
    hide Value, DigitsEnd, NumberAt, IsDigit;
    NumberEnds(s, sign, k, m);
  }

  lemma FractionText(s: string, sign: string, whole: string, fraction: string, rest: string)
    requires sign in {"", "+", "-"} && Integer(whole) && Integer(fraction) && (rest == "" || !IsDigit(rest[0]))
    requires sign <= s && (sign != "" ==> s[0] == sign[0])
    requires s[|sign|..] == whole + Pointed(fraction, rest)
    ensures var v: int := Value(whole + fraction);
      NumberAt(s, 0) ==
        Some((|sign| + |whole| + 1 + |fraction|, Dec(if sign == "-" then -v else v, -|fraction|)))
  {
    hide *;
    PointFound(s, |sign|, whole, fraction, rest);
    PointRead(s, sign, |sign| + |whole|, |sign| + |whole| + 1 + |fraction|, whole, fraction);
  }

  /** The numeral stands at the start of `s`. */
  ghost predicate Starts(s: string, n: Numeral, rest: string)
  {
    n.sign <= s && (n.sign != "" ==> s[0] == n.sign[0]) && s[|n.sign|..] == n.whole + Behind(n, rest)
  }

  lemma WholeSpelled(s: string, n: Numeral, rest: string)
    requires NumeralOk(n) && Ends(rest) && n.fraction == "" && Starts(s, n, rest)
    ensures NumberAt(s, 0) == Some((|n.sign| + |n.whole|, Dec(Coefficient(n), 0)))
  {
    CoefficientIs(n);
    assert n.whole + n.fraction == n.whole;
    hide Integer, NumeralOk, Ends, NumberAt, Coefficient, Value, AllDigits;
    WholeText(s, n.sign, n.whole, rest);
  }

  lemma StartsPointed(s: string, n: Numeral, rest: string)
    requires Starts(s, n, rest) && n.fraction != "" && Ends(rest)
    ensures n.sign <= s && (n.sign != "" ==> s[0] == n.sign[0])
    ensures s[|n.sign|..] == n.whole + Pointed(n.fraction, rest) && (rest == "" || !IsDigit(rest[0]))
  {
    hide Pointed;
  }

  lemma FractionSpelled(s: string, n: Numeral, rest: string)
    requires NumeralOk(n) && Ends(rest) && n.fraction != "" && Starts(s, n, rest)
    ensures NumberAt(s, 0) ==
      Some((|n.sign| + |n.whole| + 1 + |n.fraction|, Dec(Coefficient(n), -|n.fraction|)))
  {
    hide *;
    CoefficientIs(n);
    StartsPointed(s, n, rest);
    FractionText(s, n.sign, n.whole, n.fraction, rest);
  }

  lemma NumberSpelled(n: Numeral, rest: string)
    requires NumeralOk(n) && Ends(rest)
    ensures NumberAt(Spell(n) + rest, 0) == Some((|Spell(n)|, Dec(Coefficient(n), -|n.fraction|)))
  {
    hide *;
    SpelledSign(n, rest);
    SpellSize(n);
    if n.fraction == "" {
      WholeSpelled(Spell(n) + rest, n, rest);
    } else {
      FractionSpelled(Spell(n) + rest, n, rest);
    }
  }

  lemma SpellSize(n: Numeral)
    ensures |Spell(n)| == |n.sign| + |n.whole| + if n.fraction == "" then 0 else 1 + |n.fraction|
  {
  }

  lemma UnitSpelled(n: Numeral, rest: string, unit: string)
    requires NumeralOk(n) && Ends(rest)
    ensures UnitAt(Spell(n) + rest, 0, unit) ==
      if unit <= rest then Some((|Spell(n) + unit|, Dec(Coefficient(n), -|n.fraction|))) else None
  {
    NumberSpelled(n, rest);
    hide NumberAt, Spell, Coefficient;
    assert (Spell(n) + rest)[|Spell(n)|..] == rest;
  }

  /** A plain integer as a numeral. */
  function Int(ds: string): Numeral
  {
    Numeral("", ds, "")
  }

  lemma IntSpelled(ds: string)
    requires Integer(ds)
    ensures NumeralOk(Int(ds)) && Spell(Int(ds)) == ds && Coefficient(Int(ds)) == Value(ds)
  {
    assert ds + "" == ds && "" + ds + "" == ds;
  }

  /* ------------------------- arithmetic within the precision ------------------------- */

  lemma LimitFits(v: int)
    ensures Fits(v) <==> Abs(v) < LIMIT
  {
    LimitPower();
    hide Pow10;
  }

  lemma TimesHeld(c: int, exp: int, unit: nat)
    requires Abs(c * unit) < LIMIT
    ensures Times(Dec(c, exp), unit) == Dec(c * unit, exp)
  {
    LimitFits(c * unit);
    LengthMeaning(Abs(c * unit), PRECISION);
    hide Length, Pow10;
  }

  lemma PlusHeld(a: int, b: int)
    requires Abs(a + b) < LIMIT
    ensures Plus(Dec(a, 0), Dec(b, 0)) == Dec(a + b, 0)
  {
    PlusRounds(a, b);
    hide *;
    LimitFits(a + b);
    RoundFits(a + b);
  }

  lemma PlusRounds(a: int, b: int)
    ensures Plus(Dec(a, 0), Dec(b, 0)) == Round(Dec(a + b, 0))
  {
    PowZero();
    hide Pow10, Round;
  }

  lemma IntHeld(v: int)
    ensures ToInt(Dec(v, 0)) == v
  {
    ToIntScaled(v, 0);
  }

  lemma Quotient(a: nat, p: nat)
    requires p > 0
    ensures a / p * p <= a < (a / p + 1) * p
    ensures a == 0 ==> a / p == 0
  {
    assert a == p * (a / p) + a % p;
  }

  lemma IntegerPart(c: int, exp: int)
    requires exp <= 0
    ensures var q: int := Abs(c) / Pow10(-exp); ToInt(Dec(c, exp)) == if c < 0 then -q else q
  {
    PowZero();
    hide Pow10;
    if exp == 0 {
      assert Abs(c) / 1 == Abs(c);
    }
  }

  lemma CutFrom(v: int, c: int, q: nat, p: nat)
    requires v == (if c < 0 then -(q as int) else q) && q * p <= Abs(c) < (q + 1) * p && (Abs(c) == 0 ==> q == 0)
    ensures Abs(v) * p <= Abs(c) < (Abs(v) + 1) * p && (v > 0 ==> c > 0) && (v < 0 ==> c < 0)
  {
    assert Abs(v) == q;
  }

  lemma CutOff(c: int, exp: int)
    requires exp <= 0
    ensures var v := ToInt(Dec(c, exp));
      && Abs(v) * Pow10(-exp) <= Abs(c) < (Abs(v) + 1) * Pow10(-exp)
      && (v > 0 ==> c > 0) && (v < 0 ==> c < 0)
  {
    hide *;
    IntegerPart(c, exp);
    Quotient(Abs(c), Pow10(-exp));
    CutFrom(ToInt(Dec(c, exp)), c, Abs(c) / Pow10(-exp), Pow10(-exp));
  }

  lemma CutNumeral(n: Numeral, unit: nat)
    requires NumeralOk(n)
    ensures Cut(ToInt(Dec(Coefficient(n) * unit, -|n.fraction|)), n, unit)
  {
    var c := Coefficient(n);
    CutOff(c * unit, -|n.fraction|);
    Magnitude(c, unit);
    assert Abs(c) == Whole(n);
    hide Pow10, ToInt, Whole;
  }

  lemma Magnitude(c: int, unit: nat)
    ensures Abs(c * unit) == Abs(c) * unit && (c * unit > 0 ==> c > 0) && (c * unit < 0 ==> c < 0)
  {
  }

  /* ------------------------- which units are found ------------------------- */

  /** Behind ten-thousands never comes a digit. */
  ghost predicate NoDigitAfterMan(s: string)
  {
    forall i :: 0 <= i < |s| - 1 && s[i] == MAN ==> !IsDigit(s[i + 1])
  }

  lemma {:induction false} NoPairs(s: string, i: nat)
    requires NoDigitAfterMan(s)
    ensures FindManWon(s, i) == None
    decreases |s| - i
  {
    hide ManWonAt;
    if i < |s| {
      NoPairAt(s, i);
      NoPairs(s, i + 1);
    }
  }

  lemma NoPairAt(s: string, i: nat)
    requires NoDigitAfterMan(s) && i <= |s|
    ensures ManWonAt(s, i) == None
  {
    hide NumberAt;
    var man := UnitAt(s, i, [MAN]);
    if man.Some? {
      var k := NumberAt(s, i).value.0;
      assert s[k..][0] == MAN && s[k] == MAN;
    }
  }

  lemma NumeralChars(n: Numeral)
    requires NumeralOk(n)
    ensures forall c :: c in Spell(n) ==> IsDigit(c) || c in {'+', '-', '.'}
    ensures Spell(n) != ""
  {
  }

  lemma UnitChars()
    ensures forall c :: c in [EOK, MAN, WON, CHEON] ==> !IsDigit(c) && c !in {'+', '-', '.'}
  {
  }

  /** A numeral and its unit. */
  function Single(n: Numeral, u: Unit, tail: string): string
  {
    Spell(n) + (UnitText(u) + tail)
  }

  lemma SingleChars(n: Numeral, u: Unit, tail: string)
    requires NumeralOk(n) && TailOk(u, tail)
    ensures var s := Single(n, u, tail);
      && (EOK in s ==> u == HundredMillions) && (CHEON in s ==> u == TenMillions)
      && (MAN in s ==> u in {TenMillions, TenThousands}) && (WON in s ==> u == Ones || tail == [WON])
      && NoDigitAfterMan(s) && Ends(UnitText(u) + tail) && s != ""
  {
    NumeralChars(n);
    UnitChars();
    hide Spell, IsDigit;
    var s, k, behind := Single(n, u, tail), |Spell(n)|, UnitText(u) + tail;
    forall i | 0 <= i < |s| ensures s[i] == if i < k then Spell(n)[i] else behind[i - k] {
    }
    forall i | 0 <= i < k ensures s[i] !in [EOK, MAN, WON, CHEON] {
      assert Spell(n)[i] in Spell(n);
    }
  }

  /** The first number with the unit is the one at the start. */
  lemma UnitFirst(n: Numeral, u: Unit, tail: string)
    requires NumeralOk(n) && TailOk(u, tail) && u != NoUnit
    ensures FindUnit(Single(n, u, tail), 0, UnitText(u))
         == Some((|Spell(n) + UnitText(u)|, Dec(Coefficient(n), -|n.fraction|)))
  {
    SingleChars(n, u, tail);
    UnitSpelled(n, UnitText(u) + tail, UnitText(u));
    hide UnitAt, Spell, Coefficient;
    FoundAtOnce(Single(n, u, tail), UnitText(u));
  }

  /* ------------------------- the forms ------------------------- */

  lemma SingleEok(n: Numeral)
    requires NumeralOk(n) && Whole(n) * 100_000_000 < LIMIT
    ensures ParseCompact(Single(n, HundredMillions, ""))
         == Some(ToInt(Dec(Coefficient(n) * 100_000_000, -|n.fraction|)))
  {
    var d := Dec(Coefficient(n), -|n.fraction|);
    hide *;
    NoTail(HundredMillions);
    UnitFirst(n, HundredMillions, "");
    EokParsed(n, d);
    ScaledHeld(n, 100_000_000);
    NoRemainder(Dec(Coefficient(n) * 100_000_000, -|n.fraction|));
  }

  lemma NoTail(u: Unit)
    ensures TailOk(u, "")
  {
  }

  lemma ScaledHeld(n: Numeral, unit: nat)
    requires NumeralOk(n) && Whole(n) * unit < LIMIT
    ensures Times(Dec(Coefficient(n), -|n.fraction|), unit) == Dec(Coefficient(n) * unit, -|n.fraction|)
  {
    assert Abs(Coefficient(n)) == Whole(n);
    hide *;
    Magnitude(Coefficient(n), unit);
    TimesHeld(Coefficient(n), -|n.fraction|, unit);
  }

  lemma EokParsed(n: Numeral, d: Dec)
    requires FindUnit(Single(n, HundredMillions, ""), 0, UnitText(HundredMillions))
          == Some((|Spell(n) + UnitText(HundredMillions)|, d))
    ensures ParseCompact(Single(n, HundredMillions, "")) == Some(ToInt(Remainder(Times(d, 100_000_000), "")))
  {
    hide FindUnit, FindManWon, Spell, Times, Remainder, ToInt, NumberAt;
    var s := Single(n, HundredMillions, "");
    assert Spell(n) + [EOK] == s && s[|s|..] == "";
  }

  lemma CheonManParsed(s: string, k: nat, d: Dec)
    requires FindUnit(s, 0, [EOK]) == None && FindUnit(s, 0, [CHEON, MAN]) == Some((k, d))
    ensures ParseCompact(s) == Some(ToInt(Times(d, 10_000_000)))
  {
    hide FindUnit, FindManWon, Times, Remainder, ToInt, NumberAt;
  }

  lemma ManParsed(s: string, k: nat, d: Dec)
    requires FindUnit(s, 0, [EOK]) == None && FindUnit(s, 0, [CHEON, MAN]) == None && FindManWon(s, 0) == None
    requires FindUnit(s, 0, [MAN]) == Some((k, d))
    ensures ParseCompact(s) == Some(ToInt(Times(d, 10_000)))
  {
    hide FindUnit, FindManWon, Times, Remainder, ToInt, NumberAt;
  }

  lemma OnesParsed(s: string, k: nat, d: Dec)
    requires FindUnit(s, 0, [EOK]) == None && FindUnit(s, 0, [CHEON, MAN]) == None && FindManWon(s, 0) == None
    requires FindUnit(s, 0, [MAN]) == None
    requires if FindUnit(s, 0, [WON]).Some? then FindUnit(s, 0, [WON]) == Some((k, d))
             else k == |s| && NumberAt(s, 0) == Some((k, d))
    ensures ParseCompact(s) == Some(ToInt(d))
  {
    hide FindUnit, FindManWon, Times, Remainder, ToInt, NumberAt;
  }

  lemma SingleCheonMan(n: Numeral, tail: string)
    requires NumeralOk(n) && TailOk(TenMillions, tail) && Whole(n) * 10_000_000 < LIMIT
    ensures ParseCompact(Single(n, TenMillions, tail))
         == Some(ToInt(Dec(Coefficient(n) * 10_000_000, -|n.fraction|)))
  {
    var s := Single(n, TenMillions, tail);
    UnitTexts();
    hide *;
    SingleChars(n, TenMillions, tail);
    UnitFirst(n, TenMillions, tail);
    UnitAbsent(s, 0, [EOK]);
    ScaledHeld(n, 10_000_000);
    CheonManParsed(s, |Spell(n) + UnitText(TenMillions)|, Dec(Coefficient(n), -|n.fraction|));
  }

  lemma UnitTexts()
    ensures UnitText(TenMillions) == [CHEON, MAN] && UnitText(TenThousands) == [MAN] && UnitText(Ones) == [WON]
  {
  }

  lemma SingleMan(n: Numeral, tail: string)
    requires NumeralOk(n) && TailOk(TenThousands, tail) && Whole(n) * 10_000 < LIMIT
    ensures ParseCompact(Single(n, TenThousands, tail))
         == Some(ToInt(Dec(Coefficient(n) * 10_000, -|n.fraction|)))
  {
    var s := Single(n, TenThousands, tail);
    UnitTexts();
    hide *;
    SingleChars(n, TenThousands, tail);
    UnitFirst(n, TenThousands, tail);
    UnitAbsent(s, 0, [EOK]);
    UnitAbsent(s, 0, [CHEON, MAN]);
    NoPairs(s, 0);
    ScaledHeld(n, 10_000);
    ManParsed(s, |Spell(n) + UnitText(TenThousands)|, Dec(Coefficient(n), -|n.fraction|));
  }

  lemma SingleOnes(n: Numeral, u: Unit)
    requires NumeralOk(n) && u in {Ones, NoUnit}
    ensures ParseCompact(Single(n, u, "")) == Some(ToInt(Dec(Coefficient(n), -|n.fraction|)))
  {
    var s, d := Single(n, u, ""), Dec(Coefficient(n), -|n.fraction|);
    assert u == NoUnit ==> s == Spell(n) + "" == Spell(n);
    UnitTexts();
    hide *;
    NoTail(u);
    SingleChars(n, u, "");
    UnitAbsent(s, 0, [EOK]);
    UnitAbsent(s, 0, [CHEON, MAN]);
    UnitAbsent(s, 0, [MAN]);
    NoPairs(s, 0);
    if u == Ones {
      UnitFirst(n, u, "");
      OnesParsed(s, |Spell(n) + UnitText(Ones)|, d);
    } else {
      UnitAbsent(s, 0, [WON]);
      NothingBehind();
      NumberSpelled(n, "");
      OnesParsed(s, |Spell(n)|, d);
    }
  }

  lemma NothingBehind()
    ensures Ends("")
  {
  }

  /** One number with one unit, or with none: the number times the unit, cut off towards zero. */
  lemma SingleRead(text: string, n: Numeral, u: Unit, tail: string)
    requires NumeralOk(n) && TailOk(u, tail) && Writes(text, Single(n, u, tail))
    requires u in {Ones, NoUnit} || Whole(n) * UnitWorth(u) < LIMIT
    ensures var r := ParseMoney(Some(text)); r.Some? && Cut(r.value, n, UnitWorth(u))
  {
    assert u in {HundredMillions, Ones, NoUnit} ==> tail == "";
    assert Coefficient(n) * 1 == Coefficient(n);
    UnitWorths();
    hide *;
    WritesCompact(text, Single(n, u, tail));
    ParsedAs(text, Single(n, u, tail));
    CutNumeral(n, UnitWorth(u));
    match u
    case HundredMillions => SingleEok(n);
    case TenMillions => SingleCheonMan(n, tail);
    case TenThousands => SingleMan(n, tail);
    case Ones => SingleOnes(n, u);
    case NoUnit => SingleOnes(n, u);
  }

  lemma UnitWorths()
    ensures UnitWorth(HundredMillions) == 100_000_000 && UnitWorth(TenMillions) == 10_000_000
    ensures UnitWorth(TenThousands) == 10_000 && UnitWorth(Ones) == 1 && UnitWorth(NoUnit) == 1
  {
  }

  /* ------------------------- behind the hundred millions ------------------------- */

  /** Worth of what follows the hundred millions: a bare number counts ten-thousands. */
  function LowWorth(u: Unit): nat
  {
    if u == NoUnit then 10_000 else UnitWorth(u)
  }

  /** What the unit patterns find behind the hundred millions. */
  ghost predicate LowFound(r: string, k: nat, d: Dec, u: Unit)
  {
    && r != "" && ManWonAt(r, 0) == None && NumberAt(r, 0) == Some((k, d))
    && UnitAt(r, 0, [CHEON, MAN]) == (if u == TenMillions then Some((k + 2, d)) else None)
    && (u != TenMillions ==> UnitAt(r, 0, [MAN]) == if u == TenThousands then Some((k + 1, d)) else None)
    && (u == Ones ==> k < |r| && r[k] == WON) && (u == NoUnit ==> k == |r|)
  }

  lemma LowUnits(m: string, u: Unit, tail: string)
    requires Integer(m) && TailOk(u, tail) && u != HundredMillions
    ensures LowFound(Single(Int(m), u, tail), |m|, Dec(Value(m), 0), u)
  {
    var n := Int(m);
    var r, rest := Single(n, u, tail), UnitText(u) + tail;
    IntSpelled(m);
    SingleChars(n, u, tail);
    assert r == m + rest && Ends(rest);
    assert u == Ones ==> r[|m|] == rest[0];
    assert [CHEON, MAN] <= rest <==> u == TenMillions;
    assert u != TenMillions ==> ([MAN] <= rest <==> u == TenThousands);
    assert |Spell(n)| == |m| && |Spell(n) + [MAN]| == |m| + 1 && |Spell(n) + [CHEON, MAN]| == |m| + 2;
    LowStart(m, u, rest);
    LowEnd(m, u, rest);
    hide NumberAt, UnitAt, ManWonAt, Spell, NumeralOk, Integer, Value, Coefficient, Ends, Single, UnitText;
    NoPairAt(r, 0);
    hide NoDigitAfterMan;
  }

  lemma LowEnd(m: string, u: Unit, rest: string)
    requires Integer(m)
    ensures rest != "" ==> (m + rest)[|m|] == rest[0]
    ensures rest == "" ==> |m + rest| == |m|
  {
  }

  lemma LowStart(m: string, u: Unit, rest: string)
    requires Integer(m) && Ends(rest)
    ensures var r, d := m + rest, Dec(Value(m), 0);
      && NumberAt(r, 0) == Some((|m|, d))
      && UnitAt(r, 0, [CHEON, MAN]) == (if [CHEON, MAN] <= rest then Some((|m| + 2, d)) else None)
      && UnitAt(r, 0, [MAN]) == (if [MAN] <= rest then Some((|m| + 1, d)) else None)
  {
    IntSpelled(m);
    hide NumberAt, UnitAt, Spell, NumeralOk, Integer, Value, Coefficient, Ends;
    NumberSpelled(Int(m), rest);
    UnitSpelled(Int(m), rest, [CHEON, MAN]);
    UnitSpelled(Int(m), rest, [MAN]);
    assert |m + [MAN]| == |m| + 1 && |m + [CHEON, MAN]| == |m| + 2;
  }

  lemma LowParsed(total: Dec, r: string, k: nat, d: Dec, u: Unit)
    requires LowFound(r, k, d, u) && u != HundredMillions
    ensures Remainder(total, r) == Plus(total, Times(d, LowWorth(u)))
  {
    hide NumberAt, UnitAt, ManWonAt, Times, Plus;
  }

  lemma LowRead(total: int, m: string, u: Unit, tail: string)
    requires Integer(m) && TailOk(u, tail) && u != HundredMillions
    requires total >= 0 && total + Value(m) * LowWorth(u) < LIMIT
    ensures Remainder(Dec(total, 0), Single(Int(m), u, tail)) == Dec(total + Value(m) * LowWorth(u), 0)
  {
    var v := Value(m);
    hide *;
    LowUnits(m, u, tail);
    LowParsed(Dec(total, 0), Single(Int(m), u, tail), |m|, Dec(v, 0), u);
    NotNegative(v, LowWorth(u));
    AbsOf(v * LowWorth(u));
    AbsOf(total + v * LowWorth(u));
    TimesHeld(v, 0, LowWorth(u));
    PlusHeld(total, v * LowWorth(u));
  }

  lemma EokFound(e: string, r: string)
    requires Integer(e)
    ensures ParseCompact(e + [EOK] + r) == Some(ToInt(Remainder(Times(Dec(Value(e), 0), 100_000_000), r)))
  {
    var s := e + [EOK] + r;
    assert s == e + ([EOK] + r) && s[|e| + 1..] == r;
    IntSpelled(e);
    UnitChars();
    UnitSpelled(Int(e), [EOK] + r, [EOK]);
    hide UnitAt, Spell, FindManWon, Remainder, Times, ToInt, NumberAt, Integer, NumeralOk, Coefficient, Value;
    FoundAtOnce(s, [EOK]);
    hide FindUnit;
  }

  /** Hundred millions, a number and its unit. */
  function EokText(e: string, m: string, u: Unit, tail: string): string
  {
    e + [EOK] + m + UnitText(u) + tail
  }

  lemma EokSum(e: string, m: string, u: Unit, tail: string, high: nat, low: nat)
    requires Integer(e) && Integer(m) && TailOk(u, tail) && u != HundredMillions
    requires high == Value(e) * 100_000_000 && low == Value(m) * LowWorth(u) && high + low < LIMIT
    ensures ParseCompact(e + [EOK] + Single(Int(m), u, tail)) == Some(high + low)
  {
    var v := Value(e);
    hide *;
    EokFound(e, Single(Int(m), u, tail));
    AbsOf(high);
    TimesHeld(v, 0, 100_000_000);
    LowRead(high, m, u, tail);
    IntHeld(high + low);
  }

  /** Hundred millions and a number with a unit or without: their sum, a bare number counting ten-thousands. */
  lemma EokRead(text: string, e: string, m: string, u: Unit, tail: string)
    requires Integer(e) && Integer(m) && TailOk(u, tail) && u != HundredMillions
    requires Writes(text, EokText(e, m, u, tail))
    requires Value(e) * 100_000_000 + Value(m) * LowWorth(u) < LIMIT
    ensures ParseMoney(Some(text)) == Some(Value(e) * 100_000_000 + Value(m) * LowWorth(u))
  {
    hide *;
    WritesCompact(text, EokText(e, m, u, tail));
    LowGrouped(e, m, u, tail);
    ParsedAs(text, EokText(e, m, u, tail));
    NotNegative(Value(m), LowWorth(u));
    EokSum(e, m, u, tail, Value(e) * 100_000_000, Value(m) * LowWorth(u));
  }

  lemma LowGrouped(e: string, m: string, u: Unit, tail: string)
    requires Integer(m)
    ensures EokText(e, m, u, tail) == e + [EOK] + Single(Int(m), u, tail)
  {
    IntSpelled(m);
    hide Spell, UnitText, Integer;
  }

  lemma NotNegative(a: nat, b: nat)
    ensures a * b >= 0
  {
  }

  lemma AbsOf(v: int)
    requires v >= 0
    ensures Abs(v) == v
  {
  }

  lemma ParsedAs(text: string, s: string)
    requires Compact(text) == s
    ensures ParseMoney(Some(text)) == ParseCompact(s)
  {
  }

  lemma PairPlaces(m: string, w: string)
    ensures var s := m + [MAN] + w + [WON];
      && s == m + ([MAN] + (w + [WON])) && s[|m| + 1..] == w + [WON]
      && |s| == |m| + |w| + 2 && s[|m| + 1 + |w|] == WON
  {
  }

  lemma PairChars(m: string, w: string)
    requires Integer(m) && Integer(w)
    ensures var s := m + [MAN] + w + [WON]; EOK !in s && CHEON !in s
  {
    IntChars(m);
    IntChars(w);
    hide IsDigit;
    var s := m + [MAN] + w + [WON];
    forall i | 0 <= i < |s| ensures s[i] != EOK && s[i] != CHEON {
      if i < |m| {
        assert s[i] in m;
      } else if |m| < i < |s| - 1 {
        assert s[i] == w[i - |m| - 1];
      }
    }
  }

  lemma PairUnits(m: string, behind: string)
    requires Integer(m)
    ensures var s, d := m + ([MAN] + behind), Dec(Value(m), 0);
      UnitAt(s, 0, [MAN]) == Some((|m| + 1, d)) && UnitAt(s, 0, [CHEON, MAN]) == None
  {
    IntSpelled(m);
    UnitChars();
    UnitSpelled(Int(m), [MAN] + behind, [MAN]);
    UnitSpelled(Int(m), [MAN] + behind, [CHEON, MAN]);
    hide UnitAt, Spell, NumeralOk, Coefficient, Value, Integer;
    assert |m + [MAN]| == |m| + 1;
  }

  /** Ten-thousands and won. */
  lemma PairFound(m: string, w: string)
    requires Integer(m) && Integer(w)
    ensures var s := m + [MAN] + w + [WON];
      && ManWonAt(s, 0) == Some((Dec(Value(m), 0), Dec(Value(w), 0)))
      && UnitAt(s, 0, [CHEON, MAN]) == None && EOK !in s && CHEON !in s && s != ""
  {
    var s := m + [MAN] + w + [WON];
    PairPlaces(m, w);
    PairChars(m, w);
    PairUnits(m, w + [WON]);
    assert !IsDigit(WON);
    DigitsThere(s, |m| + 1, w, [WON]);
    hide UnitAt, NumberAt, Value, DigitsEnd, IsDigit;
  }

  lemma IntChars(m: string)
    requires Integer(m)
    ensures EOK !in m && CHEON !in m && AllDigits(m) && m != ""
  {
  }

  lemma PairValue(m: string, w: string, total: int)
    requires Integer(m) && Integer(w) && total >= 0 && total + Value(m) * 10_000 + Value(w) < LIMIT
    ensures var low := Plus(Times(Dec(Value(m), 0), 10_000), Dec(Value(w), 0));
      && low == Dec(Value(m) * 10_000 + Value(w), 0)
      && Plus(Dec(total, 0), low) == Dec(total + (Value(m) * 10_000 + Value(w)), 0)
  {
    TimesHeld(Value(m), 0, 10_000);
    PlusHeld(Value(m) * 10_000, Value(w));
    PlusHeld(total, Value(m) * 10_000 + Value(w));
    hide Times, Plus, Value;
  }

  lemma PairRemainder(total: Dec, m: string, w: string)
    requires Integer(m) && Integer(w)
    ensures Remainder(total, m + [MAN] + w + [WON])
         == Plus(total, Plus(Times(Dec(Value(m), 0), 10_000), Dec(Value(w), 0)))
  {
    PairFound(m, w);
    hide UnitAt, ManWonAt, NumberAt, Times, Plus, Value, Integer;
  }

  /** Hundred millions, ten-thousands and won. */
  lemma EokManWonRead(text: string, e: string, m: string, w: string)
    requires Integer(e) && Integer(m) && Integer(w)
    requires Writes(text, e + [EOK] + (m + [MAN] + w + [WON]))
    requires Value(e) * 100_000_000 + Value(m) * 10_000 + Value(w) < LIMIT
    ensures ParseMoney(Some(text)) == Some(Value(e) * 100_000_000 + Value(m) * 10_000 + Value(w))
  {
    var r, high := m + [MAN] + w + [WON], Value(e) * 100_000_000;
    WritesCompact(text, e + [EOK] + r);
    hide *;
    EokFound(e, r);
    AbsOf(high);
    TimesHeld(Value(e), 0, 100_000_000);
    PairRemainder(Dec(high, 0), m, w);
    PairValue(m, w, high);
    IntHeld(high + (Value(m) * 10_000 + Value(w)));
    ParsedAs(text, e + [EOK] + r);
  }

  lemma PairParsed(m: string, w: string)
    requires Integer(m) && Integer(w)
    ensures ParseCompact(m + [MAN] + w + [WON])
         == Some(ToInt(Plus(Times(Dec(Value(m), 0), 10_000), Dec(Value(w), 0))))
  {
    var s := m + [MAN] + w + [WON];
    PairFound(m, w);
    UnitAbsent(s, 0, [EOK]);
    UnitAbsent(s, 0, [CHEON, MAN]);
    hide UnitAt, ManWonAt, NumberAt, Times, Plus, Value, Integer, FindUnit, ToInt;
    assert FindManWon(s, 0) == ManWonAt(s, 0);
  }

  /** Ten-thousands and won alone. */
  lemma ManWonRead(text: string, m: string, w: string)
    requires Integer(m) && Integer(w) && Writes(text, m + [MAN] + w + [WON])
    requires Value(m) * 10_000 + Value(w) < LIMIT
    ensures ParseMoney(Some(text)) == Some(Value(m) * 10_000 + Value(w))
  {
    WritesCompact(text, m + [MAN] + w + [WON]);
    var v := Value(m) * 10_000 + Value(w);
    hide *;
    PairParsed(m, w);
    PairValue(m, w, 0);
    IntHeld(v);
    ParsedAs(text, m + [MAN] + w + [WON]);
  }

  /* ------------------------- no number ------------------------- */

  lemma NoNumberAt(s: string, i: nat)
    requires i <= |s| && forall k :: 0 <= k < |s| ==> !IsDigit(s[k])
    ensures NumberAt(s, i) == None
  {
  }

  lemma {:induction false} NoUnits(s: string, i: nat, unit: string)
    requires forall k :: 0 <= k < |s| ==> !IsDigit(s[k])
    ensures FindUnit(s, i, unit) == None && FindManWon(s, i) == None
    decreases |s| - i
  {
    if i < |s| {
      NoNumberAt(s, i);
      hide NumberAt, IsDigit;
      NoUnits(s, i + 1, unit);
    }
  }

  /** A text without digits is no amount. */
  lemma NothingRead(text: string)
    requires forall k :: 0 <= k < |text| ==> !IsDigit(text[k])
    ensures ParseMoney(Some(text)) == None
  {
    var s := Compact(text);
    var at := CompactLeft(text);
    assert forall k :: 0 <= k < |s| ==> !IsDigit(s[k]);
    NoNumberAt(s, 0);
    NoUnits(s, 0, [EOK]);
    NoUnits(s, 0, [CHEON, MAN]);
    NoUnits(s, 0, [MAN]);
    NoUnits(s, 0, [WON]);
    hide NumberAt, FindUnit, FindManWon, IsDigit, Compact;
  }

  /* ------------------------- beyond the precision ------------------------- */

  /** The rounding is to the nearest unit, and of two equally near ones to the even. */
  lemma HalfEvenNearest(n: nat, unit: nat)
    requires unit > 0
    ensures var kept := HalfEven(n, unit);
      && 2 * Abs(kept * unit - n) <= unit
      && (2 * Abs(kept * unit - n) == unit ==> kept % 2 == 0)
  {
    var q, r := n / unit, n % unit;
    assert n == q * unit + r;
    assert (q + 1) * unit == q * unit + unit;
  }

  /** `kept` followed by `k` zeros, and `kept` has at most 28 digits. */
  ghost predicate Held(v: int, kept: nat, k: nat)
  {
    kept < LIMIT && Abs(v) == kept * Pow10(k)
  }

  /** The amounts that rounding leaves alone are those of at most 28 digits followed by zeros. */
  lemma SignificantExact(v: int)
    ensures Significant(v) <==> exists kept: nat, k: nat :: Held(v, kept, k)
  {
    if Significant(v) {
      HeldExists(v);
    }
    if kept: nat, k: nat :| Held(v, kept, k) {
      LimitPower();
      hide Significant, Pow10, Length;
      ScaledSignificant(v, kept, k);
    }
  }

  lemma HeldExists(v: int)
    requires Significant(v)
    ensures exists kept: nat, k: nat :: Held(v, kept, k)
  {
    var n := Abs(v);
    var len := Length(n);
    hide Pow10, Length;
    LimitPower();
    if len <= PRECISION {
      LengthMeaning(n, PRECISION);
      PowZero();
      assert Held(v, n, 0);
    } else {
      LeadingDigits(n, len - PRECISION);
      assert Held(v, n / Pow10(len - PRECISION), len - PRECISION);
    }
  }

  lemma LimitPower()
    ensures Pow10(PRECISION) == LIMIT
  {
    SmallPowers();
    PowAdd(7, 7);
    PowAdd(14, 14);
    hide Pow10;
  }

  lemma WholeQuotient(n: nat, p: nat)
    requires p > 0 && n % p == 0
    ensures n == n / p * p
  {
    assert n == p * (n / p) + n % p;
  }

  lemma LeadingDigits(n: nat, k: nat)
    requires Length(n) == PRECISION + k && n % Pow10(k) == 0
    ensures n / Pow10(k) < LIMIT && n == n / Pow10(k) * Pow10(k)
  {
    assert PRECISION >= 1;
    hide *;
    LimitPower();
    LengthMeaning(n, PRECISION + k);
    PowAdd(PRECISION, k);
    QuotientBelow(n, Pow10(PRECISION), Pow10(k));
    WholeQuotient(n, Pow10(k));
  }
}
