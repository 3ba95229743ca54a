/** What the parser makes of printed amounts. */
module MoneyRoundTrip {
  import opened Support
  import opened Money

  /* ------------------------- digits ------------------------- */

  lemma {:induction false} DigitsMeaning(n: nat)
    ensures Digits(n) != "" && (forall i :: 0 <= i < |Digits(n)| ==> IsDigit(Digits(n)[i])) && ValueOf(Digits(n)) == n
  {
    if n < 10 {
      assert ValueOf("") == 0 && Digits(n)[..0] == "";
    } else {
      DigitsMeaning(n / 10);
      assert Digits(n)[..|Digits(n)| - 1] == Digits(n / 10);
    }
  }

  lemma LastDigit(n: nat)
    requires n >= 10
    ensures Digits(n) == Digits(n / 10) + [Digit(n % 10)]
  {
  }

  lemma ByHundreds(n: nat)
    ensures n / 10 / 10 == n / 100 && n / 100 / 10 == n / 1000
    ensures n % 1000 / 100 == n / 100 % 10 && n % 1000 / 10 % 10 == n / 10 % 10 && n % 1000 % 10 == n % 10
  {
  }

  lemma DigitsSplit(n: nat)
    requires n >= 1000
    ensures Digits(n) == Digits(n / 1000) + Three(n % 1000)
  {
    ByHundreds(n);
    LastDigit(n);
    LastDigit(n / 10);
    LastDigit(n / 100);
    hide Digits, Digit;
  }

  /* ------------------------- compacting ------------------------- */

  lemma {:induction false} CompactConcat(a: string, b: string)
    ensures Compact(a + b) == Compact(a) + Compact(b)
  {
    if a == "" {
      assert a + b == b;
    } else {
      assert (a + b)[0] == a[0] && (a + b)[1..] == a[1..] + b;
      CompactConcat(a[1..], b);
    }
  }

  predicate Plain(s: string)
  {
    forall i :: 0 <= i < |s| ==> !Text.IsSpace(s[i]) && s[i] != ','
  }

  lemma {:induction false} CompactPlain(s: string)
    requires Plain(s)
    ensures Compact(s) == s
  {
    if s != "" {
      CompactPlain(s[1..]);
      assert s == [s[0]] + s[1..];
    }
  }

  lemma DigitsPlain(n: nat)
    ensures Plain(Digits(n))
  {
    DigitsMeaning(n);
    hide Digits;
  }

  lemma ThreePlain(n: nat)
    requires n < 1000
    ensures Compact(Three(n)) == Three(n) && Compact(",") == "" && Compact(" ") == ""
  {
    assert ","[1..] == "" && " "[1..] == "";
    assert Plain(Three(n));
    CompactPlain(Three(n));
  }

  lemma {:induction false} CompactGrouped(n: nat)
    ensures Compact(Grouped(n)) == Digits(n)
  {
    if n < 1000 {
      DigitsPlain(n);
      CompactPlain(Digits(n));
    } else {
      var head, tail := Grouped(n / 1000), Three(n % 1000);
      CompactGrouped(n / 1000);
      DigitsSplit(n);
      assert Grouped(n) == head + "," + tail;
      hide *;
      CompactConcat(head + ",", tail);
      CompactConcat(head, ",");
      ThreePlain(n % 1000);
      assert Digits(n / 1000) + "" == Digits(n / 1000);
    }
  }

  lemma UnitsPlain(unit: string)
    requires unit in {"", "-", [EOK], [MAN, WON], [WON]}
    ensures Compact(unit) == unit
  {
    assert Plain(unit);
    CompactPlain(unit);
  }

  lemma SignedCompact(v: int, unit: string)
    requires unit in {[EOK], [MAN, WON], [WON]}
    ensures Compact(GroupedInt(v) + unit) == Sign(v) + Digits(Abs(v)) + unit
  {
    CompactConcat(GroupedInt(v), unit);
    CompactConcat(Sign(v), Grouped(Abs(v)));
    UnitsPlain(unit);
    UnitsPlain(Sign(v));
    CompactGrouped(Abs(v));
  }

  /* ------------------------- reading a printed number ------------------------- */

  lemma {:induction false} DigitsRun(s: string, i: nat, k: nat)
    requires i <= k <= |s| && (forall j :: i <= j < k ==> IsDigit(s[j])) && (k < |s| ==> !IsDigit(s[k]))
    ensures DigitsEnd(s, i) == k
    decreases k - i
  {
    if i < k {
      DigitsRun(s, i + 1, k);
    }
  }

  lemma NumberIs(s: string, sign: string, k: nat)
    requires sign == "" || sign == "-"
    requires |sign| < k <= |s| && sign <= s && (forall j :: |sign| <= j < k ==> IsDigit(s[j]))
    requires k < |s| ==> !IsDigit(s[k]) && s[k] != '.'
    ensures NumberAt(s, 0) == Some((k, Dec((if sign == "-" then -1 else 1) * ValueOf(s[|sign|..k]), 0)))
  {
    DigitsRun(s, |sign|, k);
    hide ValueOf;
    assert sign == "-" ==> s[0] == sign[0];
  }

  /** A printed integer with anything behind it that does not go on with a digit or a point reads as that integer. */
  lemma NumberPrinted(v: int, rest: string)
    requires rest == "" || (!IsDigit(rest[0]) && rest[0] != '.')
    ensures NumberAt(Sign(v) + Digits(Abs(v)) + rest, 0) == Some((|Sign(v) + Digits(Abs(v))|, Dec(v, 0)))
  {
    var sign, ds := Sign(v), Digits(Abs(v));
    var s := sign + ds + rest;
    DigitsMeaning(Abs(v));
    hide Digits, NumberAt, ValueOf, IsDigit;
    var j, k := |sign|, |sign| + |ds|;
    assert forall x :: j <= x < k ==> s[x] == ds[x - j];
    assert k < |s| ==> s[k] == rest[0];
    assert s[j..k] == ds;
    NumberIs(s, sign, k);
  }

  lemma UnitPrinted(v: int, unit: string, rest: string)
    requires unit != "" && !IsDigit(unit[0]) && unit[0] != '.'
    ensures UnitAt(Sign(v) + Digits(Abs(v)) + unit + rest, 0, unit)
      == Some((|Sign(v) + Digits(Abs(v)) + unit|, Dec(v, 0)))
  {
    var n := Sign(v) + Digits(Abs(v));
    var s := n + unit + rest;
    assert s == n + (unit + rest);
    NumberPrinted(v, unit + rest);
    hide NumberAt, Digits;
    assert s[|n|..] == unit + rest;
  }

  /** Another unit does not match. */
  lemma OtherUnit(v: int, rest: string, unit: string)
    requires rest != "" && !IsDigit(rest[0]) && rest[0] != '.' && unit != "" && unit[0] != rest[0]
    ensures UnitAt(Sign(v) + Digits(Abs(v)) + rest, 0, unit) == None
  {
    var n := Sign(v) + Digits(Abs(v));
    NumberPrinted(v, rest);
    hide NumberAt, Digits;
    assert (n + rest)[|n|..] == rest;
  }

  lemma FoundAtOnce(s: string, unit: string)
    requires s != "" && UnitAt(s, 0, unit).Some?
    ensures FindUnit(s, 0, unit) == UnitAt(s, 0, unit)
  {
  }

  lemma {:induction false} UnitAbsent(s: string, i: nat, unit: string)
    requires unit != "" && unit[0] !in s
    ensures FindUnit(s, i, unit) == None
    decreases |s| - i
  {
    hide NumberAt;
    if i < |s| {
      UnitAbsent(s, i + 1, unit);
      UnitPresent(s, i, unit);
      hide UnitAt;
    }
  }

  lemma UnitPresent(s: string, i: nat, unit: string)
    requires i <= |s| && unit != ""
    ensures UnitAt(s, i, unit).Some? ==> unit[0] in s
  {
    hide NumberAt;
    if UnitAt(s, i, unit).Some? {
      var k := NumberAt(s, i).value.0;
      assert s[k..][0] == unit[0];
      assert s[k] == unit[0];
    }
  }

  /** Ten-thousands that are always followed by the won sign. */
  ghost predicate ManThenWon(s: string)
  {
    forall i :: 0 <= i < |s| && s[i] == MAN ==> i + 1 < |s| && s[i + 1] == WON
  }

  lemma NoManWonAt(s: string, i: nat)
    requires ManThenWon(s) && i <= |s|
    ensures ManWonAt(s, i) == None
  {
    hide NumberAt;
    var man := UnitAt(s, i, [MAN]);
    if man.Some? {
      var k := NumberAt(s, i).value.0;
      assert s[k..][0] == MAN && s[k] == MAN;
      assert s[man.value.0] == WON;
    }
  }

  lemma {:induction false} NoManWon(s: string, i: nat)
    requires ManThenWon(s)
    ensures FindManWon(s, i) == None
    decreases |s| - i
  {
    hide ManWonAt;
    if i < |s| {
      NoManWonAt(s, i);
      NoManWon(s, i + 1);
    }
  }

  /* ------------------------- 28 digits ------------------------- */

  lemma {:induction false} LengthMeaning(n: nat, k: nat)
    requires k >= 1
    ensures Length(n) <= k <==> n < Pow10(k)
  {
    if n < 10 {
      PowAtLeast(k);
    } else if k > 1 {
      LengthMeaning(n / 10, k - 1);
      assert Pow10(k) == 10 * Pow10(k - 1);
    } else {
      assert Pow10(1) == 10 * Pow10(0);
    }
  }

  lemma {:induction false} PowAtLeast(k: nat)
    requires k >= 1
    ensures Pow10(k) >= 10
  {
    if k > 1 {
      PowAtLeast(k - 1);
    }
  }

  predicate Fits(v: int)
  {
    Abs(v) < Pow10(PRECISION)
  }

  /** The amount is a number of at most 28 digits followed by zeros. */
  predicate Significant(v: int)
  {
    Length(Abs(v)) <= PRECISION || Abs(v) % Pow10(Length(Abs(v)) - PRECISION) == 0
  }

  lemma RoundFits(v: int)
    requires Fits(v)
    ensures Round(Dec(v, 0)) == Dec(v, 0) && ToInt(Dec(v, 0)) == v && Significant(v)
  {
    LengthMeaning(Abs(v), PRECISION);
    hide Length, Pow10;
    assert ToInt(Dec(v, 0)) == v * Pow10(0) == v by { PowZero(); }
  }

  lemma PowZero()
    ensures Pow10(0) == 1
  {
  }

  lemma HalfEvenExact(n: nat, unit: nat)
    requires unit > 0
    ensures HalfEven(n, unit) * unit == n <==> n % unit == 0
  {
    var q, r := n / unit, n % unit;
    assert n == q * unit + r;
    assert (q + 1) * unit == q * unit + unit;
  }

  lemma ToIntScaled(coef: int, exp: nat)
    ensures ToInt(Dec(coef, exp)) == coef * Pow10(exp)
    ensures ToInt(Dec(coef, 0)) == coef
  {
    PowZero();
    hide Pow10;
  }

  lemma Negated(a: int, b: int, n: int)
    ensures (-a) * b == -n <==> a * b == n
  {
  }

  /** The amount as 28 digits hold it. */
  function Rounded(v: int): int
  {
    ToInt(Round(Dec(v, 0)))
  }

  /** Rounding to 28 digits is harmless exactly for those amounts. */
  lemma RoundExact(v: int)
    ensures Rounded(v) == v <==> Significant(v)
  {
    var n := Abs(v);
    var len := Length(n);
    hide Length, Pow10, HalfEven, ToInt;
    if len <= PRECISION {
      ToIntScaled(v, 0);
      PowZero();
    } else {
      var unit := Pow10(len - PRECISION);
      var kept: int := HalfEven(n, unit);
      HalfEvenExact(n, unit);
      ToIntScaled(if v < 0 then -kept else kept, len - PRECISION);
      Negated(kept, unit, n);
    }
  }

  /* ------------------------- ten-thousands ------------------------- */

  lemma CharsOf(v: int, unit: string)
    ensures forall c :: c in Sign(v) + Digits(Abs(v)) + unit ==> c == '-' || IsDigit(c) || c in unit
    ensures !IsDigit(EOK) && !IsDigit(MAN) && !IsDigit(WON) && !IsDigit(CHEON)
  {
    DigitsMeaning(Abs(v));
    hide Digits;
  }

  /** Ten-thousands first: no hundred millions, no ten millions, no joined won, and the leading number is found. */
  lemma ManSearches(v: int, rest: string)
    requires EOK !in rest && CHEON !in rest && MAN !in rest
    ensures var s := Sign(v) + Digits(Abs(v)) + [MAN, WON] + rest;
      && FindUnit(s, 0, [EOK]) == None && FindUnit(s, 0, [CHEON, MAN]) == None && FindManWon(s, 0) == None
      && FindUnit(s, 0, [MAN]).Some? && FindUnit(s, 0, [MAN]).value.1 == Dec(v, 0)
  {
    hide *;
    var n := Sign(v) + Digits(Abs(v));
    var s := n + [MAN, WON] + rest;
    NumberChars(v);
    ManChars(n, rest);
    UnitPrinted(v, [MAN], [WON] + rest);
    assert s == n + [MAN] + ([WON] + rest);
    UnitAbsent(s, 0, [EOK]);
    UnitAbsent(s, 0, [CHEON, MAN]);
    NoManWon(s, 0);
    FoundAtOnce(s, [MAN]);
  }

  lemma NumberChars(v: int)
    ensures var n := Sign(v) + Digits(Abs(v)); EOK !in n && CHEON !in n && MAN !in n
    ensures !IsDigit(MAN) && MAN != '.'
  {
    CharsOf(v, "");
    hide Digits, Sign;
    assert Sign(v) + Digits(Abs(v)) + "" == Sign(v) + Digits(Abs(v));
  }

  lemma ManChars(n: string, rest: string)
    requires EOK !in n && CHEON !in n && MAN !in n && EOK !in rest && CHEON !in rest && MAN !in rest
    ensures var s := n + [MAN, WON] + rest; ManThenWon(s) && EOK !in s && CHEON !in s
  {
    var s := n + [MAN, WON] + rest;
    assert forall i :: 0 <= i < |n| ==> s[i] == n[i];
    assert forall i :: |n| + 2 <= i < |s| ==> s[i] == rest[i - |n| - 2];
  }

  lemma ManWonForm(v: int, rest: string)
    requires EOK !in rest && CHEON !in rest && MAN !in rest
    ensures ParseCompact(Sign(v) + Digits(Abs(v)) + [MAN, WON] + rest) == Some(ToInt(Times(Dec(v, 0), 10_000)))
  {
    ManSearches(v, rest);
    hide Digits, UnitAt, ManWonAt, Sign, FindUnit, FindManWon, ToInt, Times, Remainder;
  }

  lemma WonForm(v: int)
    ensures ParseCompact(Sign(v) + Digits(Abs(v)) + [WON]) == Some(v)
  {
    var s := Sign(v) + Digits(Abs(v)) + [WON];
    CharsOf(v, [WON]);
    UnitPrinted(v, [WON], "");
    assert s == Sign(v) + Digits(Abs(v)) + [WON] + "";
    PowZero();
    assert ToInt(Dec(v, 0)) == v;
    hide Digits, UnitAt, ManWonAt, Sign, FindUnit, FindManWon, Times, Remainder, Pow10, ToInt;
    UnitAbsent(s, 0, [EOK]);
    UnitAbsent(s, 0, [CHEON, MAN]);
    NoManWon(s, 0);
    UnitAbsent(s, 0, [MAN]);
    FoundAtOnce(s, [WON]);
  }

  /** The parser inverts the ten-thousands printer exactly on the amounts that are not whole ten-thousands and on those
      that 28 digits can hold; in particular on every amount below ten to the 28th. */
  lemma ManwonRoundTrip(v: int)
    ensures ParseMoney(Some(FormatManwon(v))) == Some(v) <==> v % 10_000 != 0 || Significant(v)
    ensures Fits(v) ==> ParseMoney(Some(FormatManwon(v))) == Some(v)
  {
    hide *;
    if Fits(v) {
      RoundFits(v);
    }
    if v % 10_000 == 0 {
      WholeManwon(v);
      RoundExact(v);
    } else {
      OtherManwon(v);
    }
  }

  lemma WholeManwon(v: int)
    requires v % 10_000 == 0
    ensures ParseMoney(Some(FormatManwon(v))) == Some(Rounded(v))
  {
    var q := v / 10_000;
    assert FormatManwon(v) == GroupedInt(q) + [MAN, WON];
    assert Times(Dec(q, 0), 10_000) == Round(Dec(v, 0)) by { hide Round; }
    hide *;
    SignedCompact(q, [MAN, WON]) by { assert [MAN, WON] in {[EOK], [MAN, WON], [WON]}; }
    ManWonForm(q, "");
    assert Sign(q) + Digits(Abs(q)) + [MAN, WON] + "" == Sign(q) + Digits(Abs(q)) + [MAN, WON];
    ParseIs(FormatManwon(v));
  }

  lemma OtherManwon(v: int)
    requires v % 10_000 != 0
    ensures ParseMoney(Some(FormatManwon(v))) == Some(v)
  {
    assert FormatManwon(v) == GroupedInt(v) + [WON];
    hide *;
    SignedCompact(v, [WON]) by { assert [WON] in {[EOK], [MAN, WON], [WON]}; }
    WonForm(v);
    ParseIs(FormatManwon(v));
  }

  lemma ParseIs(text: string)
    ensures ParseMoney(Some(text)) == ParseCompact(Compact(text))
  {
    hide ParseCompact, Compact;
  }

  /* ------------------------- hundred millions ------------------------- */

  function Pieces(n: nat, unit: string): string
  {
    if n == 0 then "" else Digits(n) + unit
  }

  /** The parts behind the hundred millions, and all parts with the sign, without spaces and commas. */
  function Rest(m: nat, w: nat): string
  {
    Pieces(m, [MAN, WON]) + Pieces(w, [WON])
  }

  function Spelled(v: int): string
  {
    Sign(v) + (Pieces(EokOf(v), [EOK]) + Rest(ManOf(v), WonOf(v)))
  }

  /** What the parser makes of a Korean amount: behind hundred millions it reads one more part,
      otherwise only the first; every product and sum is held in 28 digits. */
  function Reading(v: int): int
  {
    var total := Rounded(Signed(v, EokOf(v)) * 100_000_000);
    if EokOf(v) > 0 then
      if ManOf(v) > 0 then Rounded(total + ManOf(v) * 10_000)
      else if WonOf(v) > 0 then Rounded(total + WonOf(v))
      else total
    else if ManOf(v) > 0 then Signed(v, ManOf(v)) * 10_000
    else Signed(v, WonOf(v))
  }

  function Signed(v: int, n: nat): int
  {
    var i: int := n;
    if v < 0 then -i else i
  }

  /** The parts without spaces and commas, one after the other. */
  function CompactAll(parts: seq<string>): string
  {
    if parts == [] then "" else Compact(parts[0]) + CompactAll(parts[1..])
  }

  lemma {:induction false} CompactJoin(parts: seq<string>)
    ensures Compact(Text.Join(parts)) == CompactAll(parts)
  {
    if |parts| == 1 {
      assert CompactAll(parts[1..]) == "";
    } else if parts != [] {
      assert Text.Join(parts) == parts[0] + " " + Text.Join(parts[1..]);
      assert CompactAll(parts) == Compact(parts[0]) + CompactAll(parts[1..]);
      hide *;
      CompactJoin(parts[1..]);
      CompactConcat(parts[0] + " ", Text.Join(parts[1..]));
      CompactConcat(parts[0], " ");
      ThreePlain(0);
      assert Compact(parts[0]) + "" == Compact(parts[0]);
    }
  }

  lemma {:induction false} CompactAllConcat(a: seq<string>, b: seq<string>)
    ensures CompactAll(a + b) == CompactAll(a) + CompactAll(b)
  {
    if a == [] {
      assert a + b == b;
    } else {
      assert (a + b)[0] == a[0] && (a + b)[1..] == a[1..] + b;
      CompactAllConcat(a[1..], b);
    }
  }

  lemma CompactPart(n: nat, unit: string)
    requires unit in {[EOK], [MAN, WON], [WON]}
    ensures CompactAll(Part(n, unit)) == Pieces(n, unit)
  {
    if n > 0 {
      CompactConcat(Grouped(n), unit);
      UnitsPlain(unit);
      CompactGrouped(n);
      hide Compact, Grouped, Digits;
      var part := Grouped(n) + unit;
      assert [part][1..] == [] && CompactAll([]) == "";
    }
  }

  /** A Korean amount without spaces and commas. */
  lemma KoreanCompact(v: int)
    requires v != 0
    ensures Compact(Korean(v)) == Spelled(v)
  {
    hide *;
    var e, m, w := Part(EokOf(v), [EOK]), Part(ManOf(v), [MAN, WON]), Part(WonOf(v), [WON]);
    var x, y, z := Pieces(EokOf(v), [EOK]), Pieces(ManOf(v), [MAN, WON]), Pieces(WonOf(v), [WON]);
    KoreanForms(v);
    CompactConcat(Sign(v), Text.Join(e + m + w));
    CompactJoin(e + m + w);
    CompactAllConcat(e + m, w);
    CompactAllConcat(e, m);
    CompactPart(EokOf(v), [EOK]);
    CompactPart(ManOf(v), [MAN, WON]);
    CompactPart(WonOf(v), [WON]);
    assert x + y + z == x + (y + z);
  }

  lemma KoreanForms(v: int)
    requires v != 0
    ensures Korean(v) == Sign(v) + Text.Join(Part(EokOf(v), [EOK]) + Part(ManOf(v), [MAN, WON]) + Part(WonOf(v), [WON]))
    ensures Spelled(v) == Sign(v) + (Pieces(EokOf(v), [EOK]) + (Pieces(ManOf(v), [MAN, WON]) + Pieces(WonOf(v), [WON])))
    ensures Compact(Sign(v)) == Sign(v)
  {
    UnitsPlain(Sign(v));
    hide Text.Join, Part, Pieces, EokOf, ManOf, WonOf, Compact;
  }

  lemma TimesFits(v: int, k: nat)
    requires Fits(v * k)
    ensures Times(Dec(v, 0), k) == Dec(v * k, 0)
  {
    RoundFits(v * k);
    hide Round;
  }

  lemma RestShape(m: nat, w: nat)
    ensures Rest(m, w) ==
      if m > 0 then Digits(m) + [MAN, WON] + Pieces(w, [WON]) else if w > 0 then Digits(w) + [WON] else ""
  {
    hide Digits;
    assert w > 0 ==> "" + (Digits(w) + [WON]) == Digits(w) + [WON];
  }

  /** Behind the hundred millions: nothing, ten-thousands with or without more, or won. */
  lemma RemainderRead(total: Dec, m: nat, w: nat)
    requires total.exp >= 0 && m < 10_000 && w < 10_000
    ensures ToInt(Remainder(total, Rest(m, w))) ==
      if m > 0 then Rounded(ToInt(total) + m * 10_000) else if w > 0 then Rounded(ToInt(total) + w) else ToInt(total)
  {
    hide *;
    RestShape(m, w);
    if m > 0 {
      ManRemainder(total, m, Pieces(w, [WON]));
      NatFits(m * 10_000);
      TimesFits(m, 10_000);
      PlusScaled(total, m * 10_000);
    } else if w > 0 {
      WonRemainder(total, w);
      NatFits(w);
      TimesFits(w, 1);
      PlusScaled(total, w);
    } else {
      NoRemainder(total);
    }
  }

  /** A sum with an integer is the rounded sum. */
  lemma PlusScaled(d: Dec, y: int)
    requires d.exp >= 0
    ensures ToInt(Plus(d, Dec(y, 0))) == Rounded(ToInt(d) + y)
  {
    ToIntScaled(d.coef, d.exp);
    PowZero();
    hide Pow10, Round, ToInt;
    assert d == Dec(d.coef, d.exp);
  }

  lemma SmallFits(v: int)
    requires Abs(v) <= 100_000_000
    ensures Fits(v)
  {
    SmallPowers();
    PowMore(9, PRECISION);
    hide Pow10;
  }

  lemma NatFits(n: nat)
    requires n <= 100_000_000
    ensures Fits(n)
  {
    SmallFits(n);
    hide Fits;
  }

  lemma SmallPowers()
    ensures Pow10(0) == 1 && Pow10(1) == 10 && Pow10(2) == 100 && Pow10(3) == 1000
    ensures Pow10(4) == 10_000 && Pow10(5) == 100_000
    ensures Pow10(6) == 1_000_000 && Pow10(7) == 10_000_000 && Pow10(8) == 100_000_000 && Pow10(9) == 1_000_000_000
  {
    assert Pow10(1) == 10 * Pow10(0) && Pow10(2) == 10 * Pow10(1) && Pow10(3) == 10 * Pow10(2);
    assert Pow10(4) == 10 * Pow10(3) && Pow10(5) == 10 * Pow10(4) && Pow10(6) == 10 * Pow10(5);
    assert Pow10(7) == 10 * Pow10(6) && Pow10(8) == 10 * Pow10(7) && Pow10(9) == 10 * Pow10(8);
  }

  lemma {:induction false} PowMore(a: nat, b: nat)
    requires a <= b
    ensures Pow10(a) <= Pow10(b)
  {
    if a < b {
      PowMore(a, b - 1);
    }
  }

  lemma NoRemainder(total: Dec)
    ensures Remainder(total, "") == total
  {
    assert NumberAt("", 0) == None;
    hide NumberAt, Plus, Times;
  }

  lemma ManRemainder(total: Dec, m: nat, rest: string)
    ensures Remainder(total, Digits(m) + [MAN, WON] + rest) == Plus(total, Times(Dec(m, 0), 10_000))
  {
    var r := Digits(m) + [MAN, WON] + rest;
    assert Sign(m) + Digits(Abs(m)) == Digits(m);
    assert r == Digits(m) + [MAN] + ([WON] + rest);
    assert r == Digits(m) + ([MAN, WON] + rest);
    CharsOf(m, "");
    UnitPrinted(m, [MAN], [WON] + rest);
    OtherUnit(m, [MAN, WON] + rest, [CHEON, MAN]);
    hide Digits, UnitAt, NumberAt, Times, Plus;
    var j := |Digits(m) + [MAN]|;
    assert r[j] == WON;
    assert ManWonAt(r, 0) == None;
  }

  lemma WonRemainder(total: Dec, w: nat)
    ensures Remainder(total, Digits(w) + [WON]) == Plus(total, Times(Dec(w, 0), 1))
  {
    var r := Digits(w) + [WON];
    assert Sign(w) + Digits(Abs(w)) == Digits(w);
    CharsOf(w, "");
    NumberPrinted(w, [WON]);
    OtherUnit(w, [WON], [CHEON, MAN]);
    OtherUnit(w, [WON], [MAN]);
    hide Digits, UnitAt, NumberAt, Times, Plus;
  }

  /** Hundred millions first: they are found at once and the rest is the remainder. */
  lemma EokForm(v: int, rest: string)
    ensures ParseCompact(Sign(v) + Digits(Abs(v)) + [EOK] + rest)
      == Some(ToInt(Remainder(Times(Dec(v, 0), 100_000_000), rest)))
  {
    var n := Sign(v) + Digits(Abs(v)) + [EOK];
    CharsOf(v, "");
    UnitPrinted(v, [EOK], rest);
    hide Digits, UnitAt, ManWonAt, Sign, FindManWon, ToInt, Times, Remainder;
    FoundAtOnce(n + rest, [EOK]);
    hide FindUnit;
    assert (n + rest)[|n|..] == rest;
  }

  /** What the parser reads from a Korean amount of any size. */
  lemma KoreanRead(v: int)
    ensures ParseMoney(Some(Korean(v))) == Some(Reading(v))
  {
    ParseIs(Korean(v));
    if v == 0 {
      WonForm(0);
      UnitsPlain([WON]);
      CompactZero();
      hide ParseCompact, Compact, Rounded;
    } else {
      KoreanCompact(v);
      hide ParseCompact, Compact, Korean, ParseMoney, Reading;
      if EokOf(v) > 0 {
        EokRead(v);
      } else if ManOf(v) > 0 {
        ManRead(v);
      } else {
        WonRead(v);
      }
    }
  }

  lemma CompactZero()
    ensures Compact(Korean(0)) == Sign(0) + Digits(Abs(0)) + [WON]
  {
    assert Plain([Digit(0), WON]);
    CompactPlain([Digit(0), WON]);
  }

  lemma PartsOf(v: int)
    ensures Abs(v) == EokOf(v) * 100_000_000 + ManOf(v) * 10_000 + WonOf(v)
    ensures ManOf(v) < 10_000 && WonOf(v) < 10_000
    ensures Signed(v, Abs(v)) == v
  {
  }

  lemma EokRead(v: int)
    requires EokOf(v) > 0
    ensures ParseCompact(Spelled(v)) == Some(Reading(v))
  {
    var e := Signed(v, EokOf(v));
    var total := Times(Dec(e, 0), 100_000_000);
    ReadingParts(v);
    RoundedTimes(e, 100_000_000);
    hide *;
    EokShape(v);
    PartsOf(v);
    EokForm(e, Rest(ManOf(v), WonOf(v)));
    RemainderRead(total, ManOf(v), WonOf(v));
  }

  lemma RoundedTimes(v: int, k: nat)
    ensures Times(Dec(v, 0), k).exp >= 0 && ToInt(Times(Dec(v, 0), k)) == Rounded(v * k)
  {
    hide Length, HalfEven, ToInt;
  }

  lemma ReadingParts(v: int)
    ensures var total := Rounded(Signed(v, EokOf(v)) * 100_000_000);
      EokOf(v) > 0 ==>
        Reading(v) == (if ManOf(v) > 0 then Rounded(total + ManOf(v) * 10_000)
                       else if WonOf(v) > 0 then Rounded(total + WonOf(v)) else total)
    ensures EokOf(v) == 0 && ManOf(v) > 0 ==> Reading(v) == Signed(v, ManOf(v)) * 10_000
  {
    hide EokOf, ManOf, WonOf, Rounded;
  }

  lemma EokShape(v: int)
    requires EokOf(v) > 0
    ensures var e := Signed(v, EokOf(v));
      Spelled(v) == Sign(e) + Digits(Abs(e)) + [EOK] + Rest(ManOf(v), WonOf(v))
  {
    var e := Signed(v, EokOf(v));
    assert Sign(e) == Sign(v) && Abs(e) == EokOf(v) && Pieces(EokOf(v), [EOK]) == Digits(EokOf(v)) + [EOK];
    hide Digits, Pieces, EokOf, ManOf, WonOf, Sign, Rest;
  }

  lemma ManShape(v: int)
    requires EokOf(v) == 0 && ManOf(v) > 0
    ensures var m := Signed(v, ManOf(v));
      Spelled(v) == Sign(m) + Digits(Abs(m)) + [MAN, WON] + Pieces(WonOf(v), [WON])
  {
    var m := Signed(v, ManOf(v));
    assert Sign(m) == Sign(v) && Abs(m) == ManOf(v) && Pieces(ManOf(v), [MAN, WON]) == Digits(ManOf(v)) + [MAN, WON];
    assert Pieces(EokOf(v), [EOK]) == "";
    hide Digits, Pieces, EokOf, ManOf, WonOf, Sign;
  }

  lemma WonShape(v: int)
    requires v != 0 && EokOf(v) == 0 && ManOf(v) == 0
    ensures Spelled(v) == Sign(v) + Digits(Abs(v)) + [WON]
    ensures Reading(v) == v
  {
    assert WonOf(v) == Abs(v) > 0;
    assert Pieces(EokOf(v), [EOK]) == "" && Pieces(ManOf(v), [MAN, WON]) == ""
      && Pieces(WonOf(v), [WON]) == Digits(Abs(v)) + [WON];
    hide Digits, Pieces, EokOf, ManOf, WonOf, Sign;
  }

  lemma ManRead(v: int)
    requires EokOf(v) == 0 && ManOf(v) > 0
    ensures ParseCompact(Spelled(v)) == Some(Reading(v))
  {
    hide *;
    var m := Signed(v, ManOf(v));
    ManShape(v);
    ManSmall(v);
    ReadingParts(v);
    PiecesChars(WonOf(v));
    ManWonForm(m, Pieces(WonOf(v), [WON]));
    TimesFits(m, 10_000);
    ToIntScaled(Reading(v), 0);
  }

  lemma ManSmall(v: int)
    ensures Fits(Signed(v, ManOf(v)) * 10_000)
  {
    SmallFits(Signed(v, ManOf(v)) * 10_000);
    hide Fits;
  }

  lemma PiecesChars(w: nat)
    ensures EOK !in Pieces(w, [WON]) && MAN !in Pieces(w, [WON]) && CHEON !in Pieces(w, [WON])
  {
    CharsOf(w, [WON]);
    hide Digits;
    assert Sign(w) + Digits(Abs(w)) + [WON] == Digits(w) + [WON];
  }

  lemma WonRead(v: int)
    requires v != 0 && EokOf(v) == 0 && ManOf(v) == 0
    ensures ParseCompact(Spelled(v)) == Some(Reading(v))
  {
    hide *;
    WonShape(v);
    WonForm(v);
  }

  /* ------------------------- amounts beyond 28 digits ------------------------- */

  lemma {:induction false} PowAdd(a: nat, b: nat)
    ensures Pow10(a + b) == Pow10(a) * Pow10(b)
  {
    if a > 0 {
      PowAdd(a - 1, b);
    }
  }

  lemma MultipleOfPart(n: nat, a: nat, b: nat)
    requires n % Pow10(a + b) == 0
    ensures n % Pow10(a) == 0
  {
    PowAdd(a, b);
    var x, y := Pow10(a), Pow10(b);
    hide Pow10;
    var q := n / (x * y);
    assert n == q * (x * y) == (q * y) * x;
    ModOfMultiple(q * y, x);
  }

  lemma ModOfMultiple(q: int, x: nat)
    requires x > 0
    ensures q * x % x == 0
  {
    var t := q - q * x / x;
    assert t * x == q * x % x;
    if t >= 1 {
      MulMore(t, 1, x);
    }
    if t <= -1 {
      MulMore(-1, t, x);
    }
  }

  lemma ModSum(a: int, b: int, x: nat)
    requires x > 0 && a % x == 0 && b % x == 0
    ensures (a + b) % x == 0 && (a - b) % x == 0
  {
    var p, q := a / x, b / x;
    assert a == p * x && b == q * x;
    assert a + b == (p + q) * x && a - b == (p - q) * x;
    ModOfMultiple(p + q, x);
    ModOfMultiple(p - q, x);
  }

  lemma MulMore(a: int, b: int, c: nat)
    requires a >= b
    ensures a * c >= b * c
  {
    assert a * c - b * c == (a - b) * c;
  }

  /** A multiple of ten to the `k`-th with at most 28 more digits is held without loss. */
  lemma SignificantMultiple(v: int, k: nat)
    requires Abs(v) < Pow10(PRECISION + k) && Abs(v) % Pow10(k) == 0
    ensures Significant(v)
  {
    var len := Length(Abs(v));
    LengthMeaning(Abs(v), PRECISION + k);
    hide Pow10, Length;
    if len > PRECISION {
      MultipleOfPart(Abs(v), len - PRECISION, k - (len - PRECISION));
    }
  }

  lemma KeptDigits(n: nat, k: nat)
    requires Length(n) <= PRECISION + k
    ensures HalfEven(n, Pow10(k)) <= Pow10(PRECISION)
  {
    HalfEvenNear(n, Pow10(k));
    hide Pow10, Length, HalfEven;
    LengthMeaning(n, PRECISION + k);
    PowAdd(PRECISION, k);
    QuotientBelow(n, Pow10(PRECISION), Pow10(k));
  }

  lemma HalfEvenNear(n: nat, unit: nat)
    requires unit > 0
    ensures HalfEven(n, unit) <= n / unit + 1
  {
  }

  lemma QuotientBelow(n: nat, top: nat, unit: nat)
    requires unit > 0 && n < top * unit
    ensures n / unit < top
  {
    var q, r := n / unit, n % unit;
    assert n == q * unit + r;
    if q >= top {
      MulMore(q, top, unit);
    }
  }

  lemma ScaledSignificant(v: int, kept: nat, k: nat)
    requires kept <= Pow10(PRECISION) && Abs(v) == kept * Pow10(k)
    ensures Significant(v)
  {
    ScaledBound(kept, k);
    hide Pow10, Significant, Abs;
    if kept < Pow10(PRECISION) {
      ModOfMultiple(kept, Pow10(k));
      SignificantMultiple(v, k);
    } else {
      SignificantMultiple(v, k + 1);
    }
  }

  lemma ScaledBound(kept: nat, k: nat)
    ensures kept < Pow10(PRECISION) ==> kept * Pow10(k) < Pow10(PRECISION + k)
    ensures kept == Pow10(PRECISION) ==>
      kept * Pow10(k) < Pow10(PRECISION + (k + 1)) && kept * Pow10(k) % Pow10(k + 1) == 0
  {
    PowAdd(PRECISION, k);
    PowAdd(PRECISION - 1, k + 1);
    assert PRECISION - 1 + (k + 1) == PRECISION + k;
    assert Pow10(PRECISION + (k + 1)) == 10 * Pow10(PRECISION + k);
    ModOfMultiple(Pow10(PRECISION - 1), Pow10(k + 1));
    var top, unit := Pow10(PRECISION), Pow10(k);
    hide Pow10;
    if kept < top {
      MulMore(top, kept + 1, unit);
      assert (kept + 1) * unit == kept * unit + unit;
    }
  }

  /** What rounding yields is held without loss. */
  lemma RoundedSignificant(v: int)
    ensures Significant(Rounded(v))
  {
    var n, len := Abs(v), Length(Abs(v));
    if len <= PRECISION {
      RoundExact(v);
      ToIntScaled(v, 0);
      hide ToInt, Length, Pow10, HalfEven;
    } else {
      var k := len - PRECISION;
      var kept: int := HalfEven(n, Pow10(k));
      KeptDigits(n, k);
      ToIntScaled(if v < 0 then -kept else kept, k);
      hide Length, HalfEven, ToInt, Pow10, Significant;
      AbsTimes(kept, Pow10(k));
      ScaledSignificant(Rounded(v), kept, k);
    }
  }

  lemma AbsTimes(a: int, b: int)
    requires a >= 0 && b >= 0
    ensures Abs(a * b) == a * b && Abs(-a * b) == a * b
  {
    Negated(a, b, a * b);
    assert a * b >= 0;
  }

  /** Of an amount that 28 digits hold, with less than hundred millions behind its hundred millions, the hundred
      millions and what the parser reads behind them are held as well, and so is their sum or difference. */
  lemma HeldParts(v: int, total: int, y: nat)
    requires !Fits(v) && Significant(v) && (ManOf(v) > 0 || WonOf(v) > 0)
    requires total == Signed(v, EokOf(v)) * 100_000_000 && y == if ManOf(v) > 0 then ManOf(v) * 10_000 else WonOf(v)
    ensures Rounded(total) == total && Rounded(total + y) == total + y
  {
    hide Length, Pow10, EokOf, ManOf, WonOf, Fits, Signed, Rounded, Abs;
    BigParts(v);
    var k := Length(Abs(v)) - PRECISION;
    LengthMeaning(Abs(v), PRECISION + k);
    PartsOf(v);
    HeldSizes(v, total, y);
    UnitDivides(Abs(v), EokOf(v), ManOf(v), WonOf(v), y, k);
    SignificantMultiple(total, k);
    SignificantMultiple(total + y, k);
    hide Significant;
    RoundExact(total);
    RoundExact(total + y);
  }

  lemma HeldSizes(v: int, total: int, y: nat)
    requires EokOf(v) > 0
    requires total == Signed(v, EokOf(v)) * 100_000_000 && y == if ManOf(v) > 0 then ManOf(v) * 10_000 else WonOf(v)
    ensures Abs(total) == EokOf(v) * 100_000_000
    ensures Abs(total + y) == EokOf(v) * 100_000_000 + y || Abs(total + y) == EokOf(v) * 100_000_000 - y
    ensures Abs(total) <= Abs(v) && Abs(total + y) <= Abs(v)
  {
    PartsOf(v);
    hide EokOf, ManOf, WonOf;
  }

  lemma BigParts(v: int)
    requires !Fits(v)
    ensures EokOf(v) > 0 && Length(Abs(v)) > PRECISION
  {
    LengthMeaning(Abs(v), PRECISION);
    SmallFits(v % 100_000_000);
    PowMore(9, PRECISION);
    SmallPowers();
    hide Pow10, Length;
  }

  /** A power of ten that divides the amount divides its hundred millions and what is read behind them. */
  lemma UnitDivides(n: nat, e: nat, m: nat, w: nat, y: nat, k: nat)
    requires n == e * 100_000_000 + m * 10_000 + w && m < 10_000 && w < 10_000 && (m > 0 || w > 0)
    requires y == (if m > 0 then m * 10_000 else w) && k > 0 && n % Pow10(k) == 0
    ensures e * 100_000_000 % Pow10(k) == 0 && (e * 100_000_000 + y) % Pow10(k) == 0
    ensures (e * 100_000_000 - y) % Pow10(k) == 0
  {
    SmallPowers();
    FewZeros(n, e, m, w, k);
    var big := e * 100_000_000;
    ModOfMultiple(e, 100_000_000);
    ModOfMultiple(m, 10_000);
    hide Pow10;
    MultipleOfPart(big, k, 8 - k);
    if m > 0 && w > 0 {
      MultipleOfPart(y, k, 4 - k);
    } else {
      assert y == n - big;
      ModSum(n, big, Pow10(k));
    }
    ModSum(big, y, Pow10(k));
  }

  lemma FewZeros(n: nat, e: nat, m: nat, w: nat, k: nat)
    requires n == e * 100_000_000 + m * 10_000 + w && m < 10_000 && w < 10_000 && (m > 0 || w > 0)
    requires n % Pow10(k) == 0
    ensures k < 8 && (w > 0 ==> k < 4)
  {
    hide Pow10;
    SmallPowers();
    LowerDigits(e, m, w);
    if k >= 8 {
      MultipleOfPart(n, 8, k - 8);
    } else if k >= 4 {
      MultipleOfPart(n, 4, k - 4);
    }
  }

  lemma LowerDigits(e: nat, m: nat, w: nat)
    requires m < 10_000 && w < 10_000
    ensures (e * 100_000_000 + m * 10_000 + w) % 100_000_000 == m * 10_000 + w
    ensures (e * 100_000_000 + m * 10_000 + w) % 10_000 == w
  {
    RemainderOf(e, m * 10_000 + w, 100_000_000);
    RemainderOf(e * 10_000 + m, w, 10_000);
  }

  lemma RemainderOf(q: nat, r: nat, x: nat)
    requires r < x
    ensures (q * x + r) % x == r
  {
    ModOfMultiple(q, x);
    var n := q * x + r;
    var t := q - n / x;
    assert t * x == n % x - r;
    if t >= 1 {
      MulMore(t, 1, x);
    }
    if t <= -1 {
      MulMore(-1, t, x);
    }
  }

  /** One part, or from zero up at least one of ten-thousands and single won missing. */
  predicate ReadWhole(v: int)
  {
    if v >= 0 then ManOf(v) == 0 || WonOf(v) == 0
    else (EokOf(v) == 0 && ManOf(v) == 0) || (EokOf(v) == 0 && WonOf(v) == 0) || (ManOf(v) == 0 && WonOf(v) == 0)
  }

  lemma BigReading(v: int)
    requires !Fits(v)
    ensures Reading(v) == v <==> Significant(v) && ReadWhole(v)
  {
    BigParts(v);
    PartsOf(v);
    ReadingParts(v);
    var total := Signed(v, EokOf(v)) * 100_000_000;
    var y := if ManOf(v) > 0 then ManOf(v) * 10_000 else WonOf(v);
    hide Reading, Rounded, Significant, EokOf, ManOf, WonOf, Fits;
    RoundedSignificant(total);
    RoundedSignificant(Rounded(total) + y);
    if Significant(v) {
      if y > 0 {
        HeldParts(v, total, y);
      } else {
        RoundExact(v);
      }
    }
  }

  lemma SmallReading(v: int)
    requires Fits(v)
    ensures Reading(v) == v <==> ReadWhole(v)
  {
    PartsOf(v);
    ReadingParts(v);
    var total := Signed(v, EokOf(v)) * 100_000_000;
    var y := if ManOf(v) > 0 then ManOf(v) * 10_000 else WonOf(v);
    hide Rounded, Significant, EokOf, ManOf, WonOf, Fits;
    SmallParts(v, total, y);
    FitsRounded(total);
    if EokOf(v) > 0 {
      FitsRounded(total + y);
    }
  }

  lemma SmallParts(v: int, total: int, y: nat)
    requires Fits(v)
    requires total == Signed(v, EokOf(v)) * 100_000_000 && y == if ManOf(v) > 0 then ManOf(v) * 10_000 else WonOf(v)
    ensures Fits(total) && (EokOf(v) > 0 ==> Fits(total + y))
  {
    hide Pow10, EokOf, ManOf, WonOf;
    if EokOf(v) > 0 {
      HeldSizes(v, total, y);
    }
  }

  lemma FitsRounded(v: int)
    requires Fits(v)
    ensures Rounded(v) == v && Significant(v)
  {
    RoundFits(v);
    hide Round, ToInt, Fits, Significant;
  }

  /** The parser inverts the Korean printer exactly on the amounts that 28 digits hold and that lack ten-thousands or
      single won or, if negative, have a single part; in particular below ten to the 28th on those of that shape. */
  lemma KoreanRoundTrip(v: int)
    ensures ParseMoney(Some(Korean(v))) == Some(v) <==> Significant(v) && ReadWhole(v)
    ensures Fits(v) ==> (ParseMoney(Some(Korean(v))) == Some(v) <==> ReadWhole(v))
  {
    hide *;
    KoreanRead(v);
    if Fits(v) {
      FitsRounded(v);
      SmallReading(v);
    } else {
      BigReading(v);
    }
  }

  /** Ten-thousands and one won are read without the won. */
  lemma WonIsLost()
    ensures ParseMoney(Some(Korean(10_001))) == Some(10_000)
  {
    KoreanRead(10_001);
    hide ParseMoney, Korean, Rounded;
  }

  /** Minus one hundred million and ten thousand is read with a positive second part. */
  lemma SignIsLost()
    ensures ParseMoney(Some(Korean(-100_010_000))) == Some(-99_990_000)
  {
    var v := -100_010_000;
    assert EokOf(v) == 1 && ManOf(v) == 1 && Signed(v, EokOf(v)) == -1;
    hide *;
    KoreanRead(v);
    ReadingParts(v);
    NegativeFits(100_000_000);
    NegativeFits(99_990_000);
    FitsRounded(-100_000_000);
    FitsRounded(-99_990_000);
  }

  lemma NegativeFits(n: int)
    requires 0 <= n <= 100_000_000
    ensures Fits(-n)
  {
    SmallFits(-n);
    hide Fits;
  }

  /* ------------------------- injectivity ------------------------- */

  /** Reading an amount character by character: the total so far and the number being read. */
  function Worth(s: string, total: nat, number: nat): nat
    decreases |s|
  {
    if s == "" then total
    else if IsDigit(s[0]) then Worth(s[1..], total, number * 10 + (s[0] as int - '0' as int))
    else if s[0] == EOK then Worth(s[1..], total + number * 100_000_000, 0)
    else if s[0] == MAN then Worth(s[1..], total + number * 10_000, 0)
    else if s[0] == WON then Worth(s[1..], total + number, 0)
    else Worth(s[1..], total, number)
  }

  lemma {:induction false} WorthDigits(n: nat, rest: string, total: nat)
    ensures Worth(Digits(n) + rest, total, 0) == Worth(rest, total, n)
  {
    if n < 10 {
      assert (Digits(n) + rest)[1..] == rest;
    } else {
      WorthDigits(n / 10, [Digit(n % 10)] + rest, total);
      assert Digits(n) + rest == Digits(n / 10) + ([Digit(n % 10)] + rest);
      assert ([Digit(n % 10)] + rest)[1..] == rest;
    }
  }

  lemma WorthPieces(n: nat, unit: string, rest: string, total: nat)
    requires unit in {[EOK], [MAN, WON], [WON]}
    ensures Worth(Pieces(n, unit) + rest, total, 0)
         == Worth(rest,
                  total + n * (if unit == [EOK] then 100_000_000 else if unit == [MAN, WON] then 10_000 else 1), 0)
  {
    if n == 0 {
      assert Pieces(n, unit) + rest == rest;
    } else {
      assert Pieces(n, unit) + rest == Digits(n) + (unit + rest);
      WorthDigits(n, unit + rest, total);
      assert (unit + rest)[1..] == unit[1..] + rest;
      if unit == [MAN, WON] {
        assert (unit[1..] + rest)[1..] == rest;
      } else {
        assert unit[1..] + rest == rest;
      }
    }
  }

  /** The sum of its parts and its sign can be read off a Korean amount, whatever its size. */
  lemma KoreanWorth(v: int)
    ensures var s := Compact(Korean(v));
      Worth(s, 0, 0) == Abs(v) && s != "" && (v < 0 <==> s[0] == '-')
  {
    if v == 0 {
      CompactZero();
      assert Compact(Korean(0)) == ['0', WON];
      assert ['0', WON][1..] == [WON] && [WON][1..] == "";
    } else {
      KoreanCompact(v);
      var body := Pieces(EokOf(v), [EOK]) + Rest(ManOf(v), WonOf(v));
      hide Compact, Korean;
      if v < 0 {
        assert (Sign(v) + body)[1..] == body;
      } else {
        assert Sign(v) + body == body;
      }
      BodyWorth(v);
      BodyStart(v);
      hide Worth, Pieces, Rest;
    }
  }

  lemma BodyWorth(v: int)
    ensures Worth(Pieces(EokOf(v), [EOK]) + Rest(ManOf(v), WonOf(v)), 0, 0) == Abs(v)
  {
    var r := Pieces(WonOf(v), [WON]);
    WorthPieces(EokOf(v), [EOK], Rest(ManOf(v), WonOf(v)), 0);
    WorthPieces(ManOf(v), [MAN, WON], r, EokOf(v) * 100_000_000);
    WorthPieces(WonOf(v), [WON], "", EokOf(v) * 100_000_000 + ManOf(v) * 10_000);
    assert r + "" == r;
    hide Pieces;
  }

  lemma BodyStart(v: int)
    requires v != 0
    ensures var body := Pieces(EokOf(v), [EOK]) + Rest(ManOf(v), WonOf(v)); body != "" && body[0] != '-'
  {
    DigitsMeaning(EokOf(v));
    DigitsMeaning(ManOf(v));
    DigitsMeaning(WonOf(v));
    hide Digits;
  }

  /** Different amounts print differently. */
  lemma KoreanInjective(v: int, w: int)
    requires Korean(v) == Korean(w)
    ensures v == w
  {
    KoreanWorth(v);
    KoreanWorth(w);
    hide Korean, Worth, Compact;
  }
}
