/** Amounts of won: two printers and the parser. */
module Money {
  import opened Support
  import Text

  const EOK := '\U{C5B5}'
  const MAN := '\U{B9CC}'
  const WON := '\U{C6D0}'
  const CHEON := '\U{CC9C}'

  /* ------------------------- printing ------------------------- */

  function Digit(d: nat): char
    requires d < 10
  {
    ('0' as int + d) as char
  }

  predicate IsDigit(c: char)
  {
    '0' <= c <= '9'
  }

  function Digits(n: nat): string
  {
    if n < 10 then [Digit(n)] else Digits(n / 10) + [Digit(n % 10)]
  }

  function Three(n: nat): string
    requires n < 1000
  {
    [Digit(n / 100), Digit(n / 10 % 10), Digit(n % 10)]
  }

  /** Digits in groups of three. */
  function Grouped(n: nat): string
  {
    if n < 1000 then Digits(n) else Grouped(n / 1000) + "," + Three(n % 1000)
  }

  function Abs(v: int): nat
  {
    if v < 0 then -v else v
  }

  function Sign(v: int): string
  {
    if v < 0 then "-" else ""
  }

  function GroupedInt(v: int): string
  {
    Sign(v) + Grouped(Abs(v))
  }

  /** `format_won_in_manwon`. */
  function FormatManwon(v: int): string
  {
    if v % 10_000 == 0 then GroupedInt(v / 10_000) + [MAN, WON] else GroupedInt(v) + [WON]
  }

  function EokOf(v: int): nat { Abs(v) / 100_000_000 }

  function ManOf(v: int): nat { Abs(v) % 100_000_000 / 10_000 }

  function WonOf(v: int): nat { Abs(v) % 100_000_000 % 10_000 }

  function Part(n: nat, unit: string): seq<string>
  {
    if n == 0 then [] else [Grouped(n) + unit]
  }

  /** `format_korean_won` of a number. */
  function Korean(v: int): string
  {
    if v == 0 then [Digit(0), WON]
    else Sign(v) + Text.Join(Part(EokOf(v), [EOK]) + Part(ManOf(v), [MAN, WON]) + Part(WonOf(v), [WON]))
  }

  method FormatKorean(v: int) returns (text: string)
    ensures text == Korean(v)
  {
    hide Grouped, Text.Join;
    if v == 0 {
      return [Digit(0), WON];
    }
    var remaining := Abs(v);
    var eok := remaining / 100_000_000;
    remaining := remaining % 100_000_000;
    var man, won := remaining / 10_000, remaining % 10_000;
    var parts: seq<string> := [];
    if eok != 0 {
      parts := parts + [Grouped(eok) + [EOK]];
    }
    assert parts == Part(eok, [EOK]);
    if man != 0 {
      parts := parts + [Grouped(man) + [MAN, WON]];
    }
    assert parts == Part(eok, [EOK]) + Part(man, [MAN, WON]);
    if won != 0 {
      parts := parts + [Grouped(won) + [WON]];
    }
    assert parts == Part(eok, [EOK]) + Part(man, [MAN, WON]) + Part(won, [WON]);
    text := Sign(v) + Text.Join(parts);
  }

  /* ------------------------- decimals of 28 digits ------------------------- */

  /** `coef` times ten to the `exp`. */
  datatype Dec = Dec(coef: int, exp: int)

  const PRECISION := 28

  function Pow10(n: nat): (p: nat)
    ensures p > 0
  {
    if n == 0 then 1 else 10 * Pow10(n - 1)
  }

  function Length(n: nat): nat
  {
    if n < 10 then 1 else 1 + Length(n / 10)
  }

  /** Nearest multiple of the unit, in units; of two equally near ones the even one. */
  function HalfEven(n: nat, unit: nat): nat
    requires unit > 0
  {
    var q, r := n / unit, n % unit;
    if 2 * r > unit || (2 * r == unit && q % 2 == 1) then q + 1 else q
  }

  /** The default context: 28 significant digits, ties to even. */
  function Round(d: Dec): Dec
  {
    var n := Abs(d.coef);
    var len := Length(n);
    if len <= PRECISION then d
    else
      var kept: int := HalfEven(n, Pow10(len - PRECISION));
      Dec(if d.coef < 0 then -kept else kept, d.exp + len - PRECISION)
  }

  function Times(d: Dec, k: nat): Dec
  {
    Round(Dec(d.coef * k, d.exp))
  }

  function Plus(a: Dec, b: Dec): Dec
  {
    var e := if a.exp < b.exp then a.exp else b.exp;
    Round(Dec(a.coef * Pow10(a.exp - e) + b.coef * Pow10(b.exp - e), e))
  }

  /** `int`: towards zero. */
  function ToInt(d: Dec): int
  {
    if d.exp >= 0 then d.coef * Pow10(d.exp)
    else if d.coef < 0 then -(-d.coef / Pow10(-d.exp))
    else d.coef / Pow10(-d.exp)
  }

  /* ------------------------- parsing ------------------------- */

  /** Without white space and commas. */
  function Compact(s: string): string
  {
    if s == "" then ""
    else (if Text.IsSpace(s[0]) || s[0] == ',' then "" else [s[0]]) + Compact(s[1..])
  }

  /** End of the run of digits from `i`. */
  function DigitsEnd(s: string, i: nat): (k: nat)
    requires i <= |s|
    ensures i <= k <= |s|
    ensures forall j :: i <= j < k ==> IsDigit(s[j])
    ensures k < |s| ==> !IsDigit(s[k])
    decreases |s| - i
  {
    if i < |s| && IsDigit(s[i]) then DigitsEnd(s, i + 1) else i
  }

  function ValueOf(s: string): nat
    requires forall i :: 0 <= i < |s| ==> IsDigit(s[i])
  {
    if s == "" then 0
    else
      assert IsDigit(s[|s| - 1]);
      ValueOf(s[..|s| - 1]) * 10 + (s[|s| - 1] as int - '0' as int)
  }

  /** The number pattern at `i`: an optional sign, digits, and optionally a point and digits. */
  function NumberAt(s: string, i: nat): (r: Option<(nat, Dec)>)
    requires i <= |s|
    ensures r.Some? ==> i < r.value.0 <= |s|
  {
    var signed := i < |s| && (s[i] == '+' || s[i] == '-');
    var sign := if signed && s[i] == '-' then -1 else 1;
    var j := if signed then i + 1 else i;
    var k := DigitsEnd(s, j);
    if k == j then None
    else if k + 1 < |s| && s[k] == '.' && IsDigit(s[k + 1]) then
      var m := DigitsEnd(s, k + 1);
      Some((m, Dec(sign * ValueOf(s[j..k] + s[k + 1..m]), k + 1 - m)))
    else Some((k, Dec(sign * ValueOf(s[j..k]), 0)))
  }

  /** A number directly followed by a unit; the position behind the unit. */
  function UnitAt(s: string, i: nat, unit: string): (r: Option<(nat, Dec)>)
    requires i <= |s|
    ensures r.Some? ==> r.value.0 <= |s|
  {
    var n := NumberAt(s, i);
    if n.Some? && unit <= s[n.value.0..] then Some((n.value.0 + |unit|, n.value.1)) else None
  }

  /** The leftmost number with a unit from `i` on. */
  function FindUnit(s: string, i: nat, unit: string): (r: Option<(nat, Dec)>)
    ensures r.Some? ==> r.value.0 <= |s|
    decreases |s| - i
  {
    if i >= |s| then None
    else
      var here := UnitAt(s, i, unit);
      if here.Some? then here else FindUnit(s, i + 1, unit)
  }

  /** Ten-thousands followed by won without a space. */
  function ManWonAt(s: string, i: nat): Option<(Dec, Dec)>
    requires i <= |s|
  {
    var man := UnitAt(s, i, [MAN]);
    if man.None? then None
    else
      var j := man.value.0;
      var k := DigitsEnd(s, j);
      if k > j && k < |s| && s[k] == WON then Some((man.value.1, Dec(ValueOf(s[j..k]), 0))) else None
  }

  function FindManWon(s: string, i: nat): Option<(Dec, Dec)>
    decreases |s| - i
  {
    if i >= |s| then None
    else
      var here := ManWonAt(s, i);
      if here.Some? then here else FindManWon(s, i + 1)
  }

  /** The amount behind the hundred millions. */
  function Remainder(total: Dec, r: string): Dec
  {
    var cheonMan, manWon, man, bare := UnitAt(r, 0, [CHEON, MAN]), ManWonAt(r, 0), UnitAt(r, 0, [MAN]), NumberAt(r, 0);
    if cheonMan.Some? then Plus(total, Times(cheonMan.value.1, 10_000_000))
    else if manWon.Some? then Plus(total, Plus(Times(manWon.value.0, 10_000), manWon.value.1))
    else if man.Some? then Plus(total, Times(man.value.1, 10_000))
    else if bare.Some? then
      Plus(total, Times(bare.value.1, if bare.value.0 < |r| && r[bare.value.0] == WON then 1 else 10_000))
    else total
  }

  function ParseCompact(s: string): Option<int>
  {
    var eok, cheonMan, manWon, man, won :=
      FindUnit(s, 0, [EOK]), FindUnit(s, 0, [CHEON, MAN]), FindManWon(s, 0), FindUnit(s, 0, [MAN]),
      FindUnit(s, 0, [WON]);
    if eok.Some? then Some(ToInt(Remainder(Times(eok.value.1, 100_000_000), s[eok.value.0..])))
    else if cheonMan.Some? then Some(ToInt(Times(cheonMan.value.1, 10_000_000)))
    else if manWon.Some? then Some(ToInt(Plus(Times(manWon.value.0, 10_000), manWon.value.1)))
    else if man.Some? then Some(ToInt(Times(man.value.1, 10_000)))
    else if won.Some? then Some(ToInt(won.value.1))
    else
      var plain := NumberAt(s, 0);
      if plain.Some? && plain.value.0 == |s| then Some(ToInt(plain.value.1)) else None
  }

  /** `parse_money`. */
  function ParseMoney(text: Option<string>): Option<int>
  {
    if text.None? then None else ParseCompact(Compact(text.value))
  }
}
