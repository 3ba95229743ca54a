/** Amounts inside other text: what stands before or behind an amount does not change how it is read. */
module MoneyText {
  import opened Support
  import opened Money
  import opened MoneyRoundTrip
  import opened MoneyForms

  predicate NoDigits(s: string)
  {
    forall i :: 0 <= i < |s| ==> !IsDigit(s[i])
  }

  /** Text that may stand before an amount: it has no digits and does not end in a sign. */
  predicate Leading(p: string)
  {
    NoDigits(p) && (p != "" ==> p[|p| - 1] !in {'+', '-'})
  }

  /** Text that may stand behind an amount: it has no digits and does not begin like a unit. */
  predicate Trailing(t: string)
  {
    NoDigits(t) && (t != "" ==> t[0] !in {EOK, MAN, WON, CHEON})
  }

  /** Some digit is followed by a unit. */
  predicate HasUnit(s: string)
  {
    exists i :: 0 <= i < |s| && IsDigit(s[i]) && UnitAfter(s, i + 1)
  }

  predicate UnitAfter(s: string, k: nat)
  {
    k < |s| && (s[k] in {EOK, MAN, WON} || (s[k] == CHEON && k + 1 < |s| && s[k + 1] == MAN))
  }

  const UNITS: set<string> := {[EOK], [CHEON, MAN], [MAN], [WON]}

  /* ------------------------- text behind ------------------------- */

  lemma {:induction false} DigitsBefore(s: string, t: string, i: nat)
    requires NoDigits(t) && i <= |s|
    ensures DigitsEnd(s + t, i) == DigitsEnd(s, i)
    decreases |s| - i
  {
    if i < |s| {
      DigitsBefore(s, t, i + 1);
    } else if t != "" {
      assert (s + t)[i] == t[0];
    }
  }

  /* A number at a place: where its digits begin, its sign, and whether a fraction follows. */

  function Begin(s: string, i: nat): nat
  {
    if i < |s| && (s[i] == '+' || s[i] == '-') then i + 1 else i
  }

  function SignAt(s: string, i: nat): int
  {
    if i < |s| && s[i] == '-' then -1 else 1
  }

  predicate PointAt(s: string, k: nat)
  {
    k + 1 < |s| && s[k] == '.' && IsDigit(s[k + 1])
  }

  lemma NumberIs(s: string, i: nat)
    requires i <= |s|
    ensures var j, sign := Begin(s, i), SignAt(s, i);
      j <= |s| && var k := DigitsEnd(s, j);
      NumberAt(s, i) ==
        if k == j then None
        else if PointAt(s, k) then
          var m := DigitsEnd(s, k + 1);
          Some((m, Dec(sign * Value(s[j..k] + s[k + 1..m]), k + 1 - m)))
        else Some((k, Dec(sign * Value(s[j..k]), 0)))
  {
    hide *;
    BeginIn(s, i);
    var j := Begin(s, i);
    var k := DigitsEnd(s, j);
    if k == j {
      NoneIs(s, i);
    } else if PointAt(s, k) {
      PointIs(s, i, j, k);
    } else {
      WholeIs(s, i, j, k);
    }
  }

  lemma BeginIn(s: string, i: nat)
    requires i <= |s|
    ensures i <= Begin(s, i) <= |s|
  {
  }

  lemma NoneIs(s: string, i: nat)
    requires i <= |s| && Begin(s, i) <= |s| && DigitsEnd(s, Begin(s, i)) == Begin(s, i)
    ensures NumberAt(s, i) == None
  {
    SignsAt(s, i);
    hide Begin, DigitsEnd, ValueOf;
  }

  lemma WholeIs(s: string, i: nat, j: nat, k: nat)
    requires i <= |s| && j == Begin(s, i) <= |s| && k == DigitsEnd(s, j) && k != j && !PointAt(s, k)
    ensures NumberAt(s, i) == Some((k, Dec(SignAt(s, i) * Value(s[j..k]), 0)))
  {
    SignsAt(s, i);
    DigitsValue(s[j..k]);
    hide Begin, SignAt, DigitsEnd, ValueOf, Value;
  }

  lemma PointIs(s: string, i: nat, j: nat, k: nat)
    requires i <= |s| && j == Begin(s, i) <= |s| && k == DigitsEnd(s, j) && k != j && PointAt(s, k)
    ensures var m := DigitsEnd(s, k + 1);
      NumberAt(s, i) == Some((m, Dec(SignAt(s, i) * Value(s[j..k] + s[k + 1..m]), k + 1 - m)))
  {
    SignsAt(s, i);
    var ds := s[j..k] + s[k + 1..DigitsEnd(s, k + 1)];
    assert AllDigits(ds);
    DigitsValue(ds);
    hide Begin, SignAt, DigitsEnd, ValueOf, Value;
  }

  lemma SignsAt(s: string, i: nat)
    ensures Begin(s, i) == if i < |s| && (s[i] == '+' || s[i] == '-') then i + 1 else i
    ensures SignAt(s, i) == if i < |s| && (s[i] == '+' || s[i] == '-') && s[i] == '-' then -1 else 1
  {
  }

  lemma DigitsValue(ds: string)
    requires AllDigits(ds)
    ensures Value(ds) == ValueOf(ds)
  {
    hide ValueOf;
  }

  lemma PlaceBefore(s: string, t: string, i: nat)
    requires NoDigits(t) && i < |s|
    ensures Begin(s + t, i) == Begin(s, i) <= |s| && SignAt(s + t, i) == SignAt(s, i)
  {
  }

  lemma PointBefore(s: string, t: string, k: nat)
    requires NoDigits(t) && k <= |s|
    ensures PointAt(s + t, k) <==> PointAt(s, k)
    ensures PointAt(s, k) ==> k + 1 < |s|
  {
    var all := s + t;
    if k + 1 < |all| && k + 1 >= |s| {
      assert all[k + 1] == t[k + 1 - |s|];
    }
  }

  lemma EmptyPlain()
    ensures NoDigits("")
  {
  }

  lemma SliceBefore(s: string, t: string, a: nat, b: nat)
    requires a <= b <= |s|
    ensures (s + t)[a..b] == s[a..b]
  {
  }

  lemma NumberBefore(s: string, t: string, i: nat)
    requires NoDigits(t) && i <= |s|
    ensures NumberAt(s + t, i) == NumberAt(s, i)
  {
    hide *;
    var all := s + t;
    if i == |s| {
      NumberPast(s, t, i);
      EmptyPlain();
      NumberPast(s, "", i);
      assert s + "" == s;
    } else {
      PlaceBefore(s, t, i);
      var j := Begin(s, i);
      DigitsBefore(s, t, j);
      var k := DigitsEnd(s, j);
      PointBefore(s, t, k);
      NumberIs(s, i);
      NumberIs(all, i);
      SliceBefore(s, t, j, k);
      if PointAt(s, k) {
        DigitsBefore(s, t, k + 1);
        SliceBefore(s, t, k + 1, DigitsEnd(s, k + 1));
      }
    }
  }

  /** No number begins behind. */
  lemma NumberPast(s: string, t: string, i: nat)
    requires NoDigits(t) && |s| <= i <= |s + t|
    ensures NumberAt(s + t, i) == None
  {
    var all := s + t;
    assert i < |all| ==> all[i] == t[i - |s|];
    assert i + 1 < |all| ==> all[i + 1] == t[i + 1 - |s|];
    NoNumber(all, i);
  }

  /** No number begins where no digit follows. */
  lemma NoNumber(s: string, i: nat)
    requires i <= |s| && (i < |s| ==> !IsDigit(s[i]))
    requires i + 1 < |s| && IsDigit(s[i + 1]) ==> s[i] !in {'+', '-'}
    ensures NumberAt(s, i) == None
  {
  }

  lemma UnitIs(s: string, i: nat, unit: string)
    requires i <= |s|
    ensures var n := NumberAt(s, i);
      UnitAt(s, i, unit) ==
        if n.Some? && unit <= s[n.value.0..] then Some((n.value.0 + |unit|, n.value.1)) else None
  {
    hide NumberAt;
  }

  lemma UnitBefore(s: string, t: string, i: nat, unit: string)
    requires Trailing(t) && i <= |s| && unit in UNITS
    ensures UnitAt(s + t, i, unit) == UnitAt(s, i, unit)
  {
    NoDigitsBehind(t);
    hide *;
    NumberBefore(s, t, i);
    UnitIs(s, i, unit);
    UnitIs(s + t, i, unit);
    if NumberAt(s, i).Some? {
      var n := NumberAt(s, i).value.0;
      TailBefore(s, t, n);
      PrefixBefore(unit, s[n..], t);
    }
  }

  lemma TailBefore(s: string, t: string, n: nat)
    requires n <= |s|
    ensures (s + t)[n..] == s[n..] + t
  {
  }

  lemma WonBefore(t: string)
    requires Trailing(t)
    ensures [MAN] in UNITS && (t != "" ==> t[0] != WON)
  {
  }

  lemma NoDigitsBehind(t: string)
    requires Trailing(t)
    ensures NoDigits(t)
  {
  }

  lemma PrefixBefore(unit: string, s: string, t: string)
    requires unit in UNITS && Trailing(t)
    ensures unit <= s + t <==> unit <= s
  {
    var all := s + t;
    if unit == [CHEON, MAN] {
      assert unit <= all <==> |all| >= 2 && all[0] == CHEON && all[1] == MAN;
      assert unit <= s <==> |s| >= 2 && s[0] == CHEON && s[1] == MAN;
    } else {
      assert unit <= all <==> |all| >= 1 && all[0] == unit[0];
      assert unit <= s <==> |s| >= 1 && s[0] == unit[0];
    }
  }

  lemma ManWonBefore(s: string, t: string, i: nat)
    requires Trailing(t) && i <= |s|
    ensures ManWonAt(s + t, i) == ManWonAt(s, i)
  {
    NoDigitsBehind(t);
    WonBefore(t);
    hide *;
    UnitBefore(s, t, i, [MAN]);
    ManWonIs(s, i);
    ManWonIs(s + t, i);
    if UnitAt(s, i, [MAN]).Some? {
      var j := UnitAt(s, i, [MAN]).value.0;
      DigitsBefore(s, t, j);
      SliceBefore(s, t, j, DigitsEnd(s, j));
    }
  }

  lemma FindStep(s: string, i: nat, unit: string)
    ensures FindUnit(s, i, unit) ==
      if i >= |s| then None else if UnitAt(s, i, unit).Some? then UnitAt(s, i, unit) else FindUnit(s, i + 1, unit)
    ensures i < |s| && NumberAt(s, i).None? ==> UnitAt(s, i, unit).None?
  {
    hide NumberAt;
  }

  lemma FindManWonStep(s: string, i: nat)
    ensures FindManWon(s, i) ==
      if i >= |s| then None else if ManWonAt(s, i).Some? then ManWonAt(s, i) else FindManWon(s, i + 1)
    ensures i < |s| && NumberAt(s, i).None? ==> ManWonAt(s, i).None?
  {
    hide NumberAt;
  }

  lemma {:induction false} FindBefore(s: string, t: string, i: nat, unit: string)
    requires Trailing(t) && unit in UNITS
    ensures FindUnit(s + t, i, unit) == FindUnit(s, i, unit)
    decreases |s + t| - i
  {
    NoDigitsBehind(t);
    hide *;
    FindStep(s, i, unit);
    FindStep(s + t, i, unit);
    if i < |s| {
      UnitBefore(s, t, i, unit);
    } else if i < |s + t| {
      NumberPast(s, t, i);
      FindStep(s, i + 1, unit);
    }
    if i < |s + t| {
      FindBefore(s, t, i + 1, unit);
    }
  }

  lemma {:induction false} FindManWonBefore(s: string, t: string, i: nat)
    requires Trailing(t)
    ensures FindManWon(s + t, i) == FindManWon(s, i)
    decreases |s + t| - i
  {
    NoDigitsBehind(t);
    hide *;
    FindManWonStep(s, i);
    FindManWonStep(s + t, i);
    if i < |s| {
      ManWonBefore(s, t, i);
    } else if i < |s + t| {
      NumberPast(s, t, i);
      FindManWonStep(s, i + 1);
    }
    if i < |s + t| {
      FindManWonBefore(s, t, i + 1);
    }
  }

  lemma RemainderBefore(total: Dec, r: string, t: string)
    requires Trailing(t)
    ensures Remainder(total, r + t) == Remainder(total, r)
  {
    UnitBefore(r, t, 0, [CHEON, MAN]);
    ManWonBefore(r, t, 0);
    UnitBefore(r, t, 0, [MAN]);
    NumberBefore(r, t, 0);
    hide UnitAt, ManWonAt, NumberAt, Plus, Times;
  }

  /** Two texts with the same numbers before units and the same rest are read alike, but for a number alone. */
  lemma SameParse(s: string, w: string)
    requires var x, y := FindUnit(s, 0, [EOK]), FindUnit(w, 0, [EOK]);
      x.Some? && y.Some? ==>
        var total := Times(x.value.1, 100_000_000);
        Remainder(total, s[x.value.0..]) == Remainder(total, w[y.value.0..])
    requires forall unit :: unit in UNITS ==> SameAmount(FindUnit(s, 0, unit), FindUnit(w, 0, unit))
    requires FindManWon(s, 0) == FindManWon(w, 0)
    requires NumberAt(w, 0).Some? ==> NumberAt(w, 0).value.0 < |w|
    ensures ParseCompact(w) == if HasUnit(s) then ParseCompact(s) else None
  {
    UnitFound(s);
    hide FindUnit, FindManWon, NumberAt, Remainder, Times, Plus, ToInt, HasUnit;
    assert forall unit :: unit in {[EOK], [CHEON, MAN], [MAN], [WON]} ==> unit in UNITS;
  }

  predicate SameAmount(x: Option<(nat, Dec)>, y: Option<(nat, Dec)>)
  {
    if x.None? then y.None? else y.Some? && x.value.1 == y.value.1
  }

  lemma ParseBefore(s: string, t: string)
    requires Trailing(t) && t != ""
    ensures ParseCompact(s + t) == if HasUnit(s) then ParseCompact(s) else None
  {
    hide *;
    forall unit | unit in UNITS ensures FindUnit(s + t, 0, unit) == FindUnit(s, 0, unit) {
      FindBefore(s, t, 0, unit);
    }
    SameIsSame(s, s + t);
    FindManWonBefore(s, t, 0);
    ShortNumber(s, t);
    EokUnit();
    var eok := FindUnit(s, 0, [EOK]);
    if eok.Some? {
      var n := eok.value.0;
      assert (s + t)[n..] == s[n..] + t;
      RemainderBefore(Times(eok.value.1, 100_000_000), s[n..], t);
    }
    SameParse(s, s + t);
  }

  lemma EokUnit()
    ensures [EOK] in UNITS
  {
  }

  lemma SameIsSame(s: string, w: string)
    requires forall unit :: unit in UNITS ==> FindUnit(w, 0, unit) == FindUnit(s, 0, unit)
    ensures forall unit :: unit in UNITS ==> SameAmount(FindUnit(s, 0, unit), FindUnit(w, 0, unit))
  {
    hide FindUnit;
  }

  lemma ShortNumber(s: string, t: string)
    requires Trailing(t) && t != ""
    ensures NumberAt(s + t, 0).Some? ==> NumberAt(s + t, 0).value.0 < |s + t|
  {
    NumberBefore(s, t, 0);
    hide NumberAt;
  }

  /* ------------------------- a unit ------------------------- */

  /** A number with a unit is found exactly where a digit is followed by one. */
  lemma UnitFound(s: string)
    ensures HasUnit(s) <==> exists unit :: unit in UNITS && FindUnit(s, 0, unit).Some?
    ensures FindManWon(s, 0).Some? ==> FindUnit(s, 0, [MAN]).Some?
  {
    if i :| 0 <= i < |s| && IsDigit(s[i]) && UnitAfter(s, i + 1) {
      var unit := if s[i + 1] == CHEON then [CHEON, MAN] else [s[i + 1]];
      DigitThenUnit(s, i, unit);
      FoundFrom(s, 0, i, unit);
      assert unit in UNITS;
    }
    if unit :| unit in UNITS && FindUnit(s, 0, unit).Some? {
      FoundAt(s, 0, unit);
    }
    ManWonFound(s, 0);
  }

  lemma DigitThenUnit(s: string, i: nat, unit: string)
    requires i < |s| && IsDigit(s[i]) && UnitAfter(s, i + 1)
    requires unit == if s[i + 1] == CHEON then [CHEON, MAN] else [s[i + 1]]
    ensures UnitAt(s, i, unit).Some?
  {
    DigitsRun(s, i, i + 1);
    hide ValueOf;
    assert NumberAt(s, i).Some? && NumberAt(s, i).value.0 == i + 1;
    assert unit <= s[i + 1..];
  }

  lemma {:induction false} FoundFrom(s: string, i: nat, k: nat, unit: string)
    requires i <= k < |s| && UnitAt(s, k, unit).Some?
    ensures FindUnit(s, i, unit).Some?
    decreases k - i
  {
    hide *;
    FindStep(s, i, unit);
    if i < k {
      FoundFrom(s, i + 1, k, unit);
    }
  }

  lemma {:induction false} FoundAt(s: string, i: nat, unit: string)
    requires unit in UNITS && FindUnit(s, i, unit).Some?
    ensures HasUnit(s)
    decreases |s| - i
  {
    if UnitAt(s, i, unit).Some? {
      var n := NumberAt(s, i).value.0;
      EndsInDigit(s, i);
      assert unit <= s[n..];
      assert UnitAfter(s, n - 1 + 1);
    } else {
      FoundAt(s, i + 1, unit);
    }
  }

  lemma EndsInDigit(s: string, i: nat)
    requires i <= |s| && NumberAt(s, i).Some?
    ensures var n := NumberAt(s, i).value.0; IsDigit(s[n - 1])
  {
    hide ValueOf;
  }

  lemma {:induction false} ManWonFound(s: string, i: nat)
    ensures FindManWon(s, i).Some? ==> FindUnit(s, i, [MAN]).Some?
    decreases |s| - i
  {
    if i < |s| {
      ManWonFound(s, i + 1);
    }
    hide UnitAt;
  }

  /* ------------------------- text before ------------------------- */

  lemma {:induction false} DigitsBehind(p: string, s: string, i: nat)
    requires i <= |s|
    ensures DigitsEnd(p + s, |p| + i) == |p| + DigitsEnd(s, i)
    decreases |s| - i
  {
    if i < |s| {
      assert (p + s)[|p| + i] == s[i];
      DigitsBehind(p, s, i + 1);
    }
  }

  function Moved<T>(o: nat, r: Option<(nat, T)>): Option<(nat, T)>
  {
    match r
    case None => None
    case Some((n, v)) => Some((o + n, v))
  }

  lemma PlaceBehind(p: string, s: string, i: nat)
    requires i <= |s|
    ensures Begin(p + s, |p| + i) == |p| + Begin(s, i) && Begin(s, i) <= |s| && SignAt(p + s, |p| + i) == SignAt(s, i)
  {
    assert i < |s| ==> (p + s)[|p| + i] == s[i];
  }

  lemma PointBehind(p: string, s: string, k: nat)
    ensures PointAt(p + s, |p| + k) <==> PointAt(s, k)
    ensures PointAt(s, k) ==> k + 1 < |s|
  {
    assert forall x :: 0 <= x < |s| ==> (p + s)[|p| + x] == s[x];
  }

  lemma SliceBehind(p: string, s: string, a: nat, b: nat)
    requires a <= b <= |s|
    ensures (p + s)[|p| + a..|p| + b] == s[a..b]
  {
  }

  lemma NumberBehind(p: string, s: string, i: nat, o: nat)
    requires i <= |s| && o == |p| + i
    ensures NumberAt(p + s, o) == Moved(|p|, NumberAt(s, i))
  {
    hide *;
    var all := p + s;
    PlaceBehind(p, s, i);
    var j := Begin(s, i);
    DigitsBehind(p, s, j);
    var k := DigitsEnd(s, j);
    PointBehind(p, s, k);
    NumberIs(s, i);
    NumberIs(all, o);
    SliceBehind(p, s, j, k);
    NoneMoved(|p|);
    if PointAt(s, k) {
      DigitsBehind(p, s, k + 1);
      var m := DigitsEnd(s, k + 1);
      SliceBehind(p, s, k + 1, m);
      assert DigitsEnd(all, |p| + k + 1) == |p| + m;
    }
    if k != j {
      SomeMoved(|p|, NumberAt(s, i).value.0, NumberAt(s, i).value.1);
    }
  }

  lemma SomeMoved(o: nat, n: nat, d: Dec)
    ensures Moved(o, Some((n, d))) == Some((o + n, d))
  {
  }

  lemma UnitBehind(p: string, s: string, i: nat, o: nat, unit: string)
    requires i <= |s| && o == |p| + i
    ensures UnitAt(p + s, o, unit) == Moved(|p|, UnitAt(s, i, unit))
  {
    hide *;
    NumberBehind(p, s, i, o);
    MovedParts(|p|, NumberAt(s, i));
    MovedParts(|p|, UnitAt(s, i, unit));
    UnitIs(s, i, unit);
    UnitIs(p + s, o, unit);
    if NumberAt(s, i).Some? {
      var n := NumberAt(s, i).value.0;
      assert (p + s)[|p| + n..] == s[n..];
    }
  }

  lemma ManWonIs(s: string, i: nat)
    requires i <= |s|
    ensures ManWonAt(s, i) ==
      var man := UnitAt(s, i, [MAN]);
      if man.None? then None
      else
        var j := man.value.0;
        var k := DigitsEnd(s, j);
        if k > j && k < |s| && s[k] == WON then Some((man.value.1, Dec(Value(s[j..k]), 0))) else None
  {
    var man := UnitAt(s, i, [MAN]);
    if man.Some? {
      DigitsValue(s[man.value.0..DigitsEnd(s, man.value.0)]);
    }
    hide UnitAt, ValueOf, Value, DigitsEnd;
  }

  lemma ManWonBehind(p: string, s: string, i: nat, o: nat)
    requires i <= |s| && o == |p| + i
    ensures ManWonAt(p + s, o) == ManWonAt(s, i)
  {
    hide *;
    UnitBehind(p, s, i, o, [MAN]);
    ManWonIs(s, i);
    ManWonIs(p + s, o);
    MovedParts(|p|, UnitAt(s, i, [MAN]));
    if UnitAt(s, i, [MAN]).Some? {
      var j := UnitAt(s, i, [MAN]).value.0;
      DigitsBehind(p, s, j);
      var k := DigitsEnd(s, j);
      SliceBehind(p, s, j, k);
      assert k < |s| ==> (p + s)[|p| + k] == s[k];
    }
  }

  /** Nothing begins in the leading text. */
  lemma NotLeading(p: string, s: string, i: nat)
    requires Leading(p) && i < |p|
    ensures NumberAt(p + s, i) == None
  {
    var all := p + s;
    assert all[i] == p[i] && (i + 1 < |p| ==> all[i + 1] == p[i + 1]);
    NoNumber(all, i);
  }

  lemma {:induction false} FindBehind(p: string, s: string, i: nat, k: nat, unit: string)
    requires k == |p| + i
    ensures FindUnit(p + s, k, unit) == Moved(|p|, FindUnit(s, i, unit))
    decreases |s| - i
  {
    hide *;
    FindStep(s, i, unit);
    FindStep(p + s, k, unit);
    NoneMoved(|p|);
    if i < |s| {
      FindBehind(p, s, i + 1, k + 1, unit);
      UnitBehind(p, s, i, k, unit);
      MovedParts(|p|, UnitAt(s, i, unit));
    }
  }

  lemma NoneMoved(o: nat)
    ensures Moved<Dec>(o, None) == None
  {
  }

  lemma {:induction false} SkipLeading(p: string, s: string, i: nat, unit: string)
    requires Leading(p) && i <= |p|
    ensures FindUnit(p + s, i, unit) == FindUnit(p + s, |p|, unit)
    decreases |p| - i
  {
    hide *;
    if i < |p| {
      SkipLeading(p, s, i + 1, unit);
      NotLeading(p, s, i);
      FindStep(p + s, i, unit);
    }
  }

  lemma {:induction false} FindManWonBehind(p: string, s: string, i: nat, k: nat)
    requires k == |p| + i
    ensures FindManWon(p + s, k) == FindManWon(s, i)
    decreases |s| - i
  {
    hide *;
    FindManWonStep(s, i);
    FindManWonStep(p + s, k);
    if i < |s| {
      FindManWonBehind(p, s, i + 1, k + 1);
      ManWonBehind(p, s, i, k);
    }
  }

  lemma {:induction false} SkipManWon(p: string, s: string, i: nat)
    requires Leading(p) && i <= |p|
    ensures FindManWon(p + s, i) == FindManWon(p + s, |p|)
    decreases |p| - i
  {
    hide *;
    if i < |p| {
      SkipManWon(p, s, i + 1);
      NotLeading(p, s, i);
      FindManWonStep(p + s, i);
    }
  }

  lemma FoundBehind(p: string, s: string, unit: string)
    requires Leading(p)
    ensures FindUnit(p + s, 0, unit) == Moved(|p|, FindUnit(s, 0, unit))
  {
    SkipLeading(p, s, 0, unit);
    FindBehind(p, s, 0, |p|, unit);
    hide *;
  }

  lemma ParseBehind(p: string, s: string)
    requires Leading(p) && p != ""
    ensures ParseCompact(p + s) == if HasUnit(s) then ParseCompact(s) else None
  {
    hide *;
    forall unit | unit in UNITS ensures FindUnit(p + s, 0, unit) == Moved(|p|, FindUnit(s, 0, unit)) {
      FoundBehind(p, s, unit);
    }
    MovedSame(p, s);
    SkipManWon(p, s, 0);
    FindManWonBehind(p, s, 0, |p|);
    NotLeading(p, s, 0);
    EokUnit();
    MovedParts(|p|, FindUnit(s, 0, [EOK]));
    var eok := FindUnit(s, 0, [EOK]);
    if eok.Some? {
      var n := eok.value.0;
      assert (p + s)[|p| + n..] == s[n..];
    }
    SameParse(s, p + s);
  }

  lemma MovedParts<T>(o: nat, r: Option<(nat, T)>)
    ensures if r.None? then Moved(o, r).None?
            else Moved(o, r).Some? && Moved(o, r).value.0 == o + r.value.0 && Moved(o, r).value.1 == r.value.1
  {
  }

  lemma MovedSame(p: string, s: string)
    requires forall unit :: unit in UNITS ==> FindUnit(p + s, 0, unit) == Moved(|p|, FindUnit(s, 0, unit))
    ensures forall unit :: unit in UNITS ==> SameAmount(FindUnit(s, 0, unit), FindUnit(p + s, 0, unit))
  {
    hide FindUnit;
  }

  /* ------------------------- text around ------------------------- */

  lemma NoneWithout(s: string, t: string)
    requires Trailing(t)
    ensures HasUnit(s + t) <==> HasUnit(s)
  {
    UnitFound(s);
    UnitFound(s + t);
    forall unit | unit in UNITS ensures FindUnit(s + t, 0, unit) == FindUnit(s, 0, unit) {
      FindBefore(s, t, 0, unit);
    }
    hide FindUnit, HasUnit, Trailing;
  }

  /** An amount with a unit is read alike in the middle of other text, an amount without one only alone. */
  lemma AroundRead(text: string, alone: string, before: string, amount: string, behind: string)
    requires Writes(text, before + amount + behind) && Writes(alone, amount)
    requires Leading(before) && Trailing(behind)
    ensures ParseMoney(Some(text)) ==
      if HasUnit(amount) || before + behind == "" then ParseMoney(Some(alone)) else None
  {
    WritesCompact(text, before + amount + behind);
    WritesCompact(alone, amount);
    hide Writes, Compact, ParseCompact, HasUnit, Leading, Trailing;
    assert before + amount + behind == before + (amount + behind);
    if before != "" {
      ParseBehind(before, amount + behind);
      NoneWithout(amount, behind);
    } else {
      assert before + (amount + behind) == amount + behind;
    }
    if behind != "" {
      ParseBefore(amount, behind);
    } else {
      assert amount + behind == amount;
    }
  }
}
