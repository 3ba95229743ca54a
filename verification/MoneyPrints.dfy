/** What the printers of amounts write. */
module MoneyPrints {
  import opened Money
  import opened MoneyRoundTrip
  import opened MoneyForms

  /** A comma before every three digits counted from the right, and nothing but digits elsewhere. */
  ghost predicate Triples(s: string)
  {
    && |s| % 4 != 0
    && (forall k :: 0 <= k < |s| ==> if (|s| - k) % 4 == 0 then s[k] == ',' else IsDigit(s[k]))
  }

  /** `s` writes the number with separated thousands and no needless zero. */
  ghost predicate Thousands(s: string, n: nat)
  {
    && Triples(s)
    && (n > 0 ==> s[0] != '0')
    && (n == 0 ==> s == "0")
    && exists ds :: Writes(s, ds) && Integer(ds) && Value(ds) == n
  }

  lemma {:induction false} GroupedTriples(n: nat)
    ensures Triples(Grouped(n))
    ensures if n == 0 then Grouped(n) == "0" else Grouped(n)[0] != '0'
  {
    if n >= 1000 {
      GroupedTriples(n / 1000);
      var head, tail := Grouped(n / 1000), Three(n % 1000);
      assert Grouped(n) == head + "," + tail;
      SnocTriples(head, tail);
    } else {
      DigitsMeaning(n);
      SmallDigits(n);
    }
  }

  lemma SnocTriples(head: string, tail: string)
    requires Triples(head) && |tail| == 3 && forall k :: 0 <= k < 3 ==> IsDigit(tail[k])
    ensures Triples(head + "," + tail)
  {
    var s := head + "," + tail;
    forall k | 0 <= k < |s| ensures if (|s| - k) % 4 == 0 then s[k] == ',' else IsDigit(s[k]) {
      if k < |head| {
        assert s[k] == head[k];
      } else if k > |head| {
        assert s[k] == tail[k - |head| - 1];
      }
    }
  }

  lemma SmallDigits(n: nat)
    requires n < 1000
    ensures |Digits(n)| <= 3 && if n == 0 then Digits(n) == "0" else Digits(n)[0] != '0'
  {
    if n >= 10 {
      LastDigit(n);
      if n >= 100 {
        LastDigit(n / 10);
      }
    }
  }

  lemma GroupedExact(n: nat)
    ensures Thousands(Grouped(n), n)
  {
    GroupedTriples(n);
    CompactGrouped(n);
    DigitsMeaning(n);
    hide Grouped, Digits, Compact;
    var ds := Digits(n);
    WritesCompact(Grouped(n), ds);
    assert Writes(Grouped(n), ds) && Integer(ds) && Value(ds) == n;
  }

  /* ------------------------- amounts ------------------------- */

  /** Whole ten-thousands are written in them, every other amount in won. */
  lemma ManwonExact(v: int)
    ensures exists a, n: nat :: Thousands(a, n) &&
              if v % 10_000 == 0
              then Abs(v) == n * 10_000 && FormatManwon(v) == (if v < 0 then "-" else "") + a + [MAN, WON]
              else Abs(v) == n && FormatManwon(v) == (if v < 0 then "-" else "") + a + [WON]
  {
    var n: nat := if v % 10_000 == 0 then Abs(v / 10_000) else Abs(v);
    GroupedExact(n);
    hide Grouped, Thousands;
    assert Thousands(Grouped(n), n);
  }

  /** The parts of an amount that are not zero, with one space between two of them. */
  function InParts(e: nat, a: string, m: nat, b: string, w: nat, c: string): string
  {
    (if e > 0 then a + [EOK] else "") +
    (if e > 0 && m + w > 0 then " " else "") +
    (if m > 0 then b + [MAN, WON] else "") +
    (if m > 0 && w > 0 then " " else "") +
    (if w > 0 then c + [WON] else "")
  }

  /** The amount is split into hundred millions, ten-thousands and won, and every part that is not zero is written. */
  lemma KoreanExact(v: int)
    ensures v == 0 ==> Korean(v) == "0" + [WON]
    ensures v != 0 ==> exists e: nat, a, m: nat, b, w: nat, c ::
                         && Thousands(a, e) && Thousands(b, m) && Thousands(c, w)
                         && Abs(v) == e * 100_000_000 + m * 10_000 + w && m < 10_000 && w < 10_000
                         && Korean(v) == (if v < 0 then "-" else "") + InParts(e, a, m, b, w, c)
  {
    if v != 0 {
      var e, m, w := EokOf(v), ManOf(v), WonOf(v);
      KoreanJoined(v);
      GroupedExact(e);
      GroupedExact(m);
      GroupedExact(w);
      hide Grouped, Thousands, Korean, InParts;
      assert Thousands(Grouped(e), e) && Thousands(Grouped(m), m) && Thousands(Grouped(w), w);
    }
  }

  lemma KoreanJoined(v: int)
    requires v != 0
    ensures Korean(v) == Sign(v) +
                         InParts(EokOf(v), Grouped(EokOf(v)), ManOf(v), Grouped(ManOf(v)), WonOf(v), Grouped(WonOf(v)))
  {
    var e, m, w := EokOf(v), ManOf(v), WonOf(v);
    ThreeJoined(Part(e, [EOK]), Part(m, [MAN, WON]), Part(w, [WON]));
    hide Grouped, EokOf, ManOf, WonOf, Text.Join;
    var x, y, z := Part(e, [EOK]), Part(m, [MAN, WON]), Part(w, [WON]);
    assert Before(x, y + z) == if e > 0 && m + w > 0 then " " else "";
  }

  function Piece(part: seq<string>): string
  {
    if part == [] then "" else part[0]
  }

  function Before(x: seq<string>, rest: seq<string>): string
  {
    if x != [] && rest != [] then " " else ""
  }

  lemma ThreeJoined(x: seq<string>, y: seq<string>, z: seq<string>)
    requires |x| <= 1 && |y| <= 1 && |z| <= 1
    ensures Text.Join(x + y + z) == Piece(x) + Before(x, y + z) + Piece(y) + Before(y, z) + Piece(z)
  {
    hide *;
    var rest := y + z;
    TwoJoined(y, z);
    OneJoined(x, rest);
    Regroup(x, y, z);
    Regroup(Piece(x) + Before(x, rest), Piece(y) + Before(y, z), Piece(z));
    Regroup(Piece(x) + Before(x, rest), Piece(y), Before(y, z));
  }

  lemma Regroup<T>(x: seq<T>, y: seq<T>, z: seq<T>)
    ensures x + (y + z) == x + y + z
  {
  }

  lemma OneJoined(x: seq<string>, rest: seq<string>)
    requires |x| <= 1
    ensures Text.Join(x + rest) == Piece(x) + Before(x, rest) + Text.Join(rest)
  {
    if x != [] && rest != [] {
      assert (x + rest)[1..] == rest;
    } else if x == [] {
      assert x + rest == rest;
    } else {
      assert x + rest == x;
    }
  }

  lemma TwoJoined(y: seq<string>, z: seq<string>)
    requires |y| <= 1 && |z| <= 1
    ensures Text.Join(y + z) == Piece(y) + Before(y, z) + Piece(z)
  {
    OneJoined(y, z);
    assert Text.Join(z) == Piece(z);
  }
}
