/** The cursor: URL-safe base64 (sections 3.2 and 5 of RFC 4648) without its padding. */
module Cursor {
  import opened Support
  import opened Notifications

  type Byte = b: int | 0 <= b < 256

  type Sextet = v: int | 0 <= v < 64

  function CharOf(v: Sextet): char
  {
    if v < 26 then ('A' as int + v) as char
    else if v < 52 then ('a' as int + v - 26) as char
    else if v < 62 then ('0' as int + v - 52) as char
    else if v == 62 then '-'
    else '_'
  }

  function ValueOf(c: char): Option<Sextet>
  {
    if 'A' <= c <= 'Z' then Some(c as int - 'A' as int)
    else if 'a' <= c <= 'z' then Some(c as int - 'a' as int + 26)
    else if '0' <= c <= '9' then Some(c as int - '0' as int + 52)
    else if c == '-' then Some(62)
    else if c == '_' then Some(63)
    else None
  }

  lemma ValueOfChar(v: Sextet)
    ensures ValueOf(CharOf(v)) == Some(v) && CharOf(v) != '='
  {
  }

  /** The four sextets of three bytes, and back. */
  function S0(x: Byte): Sextet { x / 4 }
  function S1(x: Byte, y: Byte): Sextet { x % 4 * 16 + y / 16 }
  function S2(y: Byte, z: Byte): Sextet { y % 16 * 4 + z / 64 }
  function S3(z: Byte): Sextet { z % 64 }
  function B0(a: Sextet, b: Sextet): Byte { a * 4 + b / 16 }
  function B1(b: Sextet, c: Sextet): Byte { b % 16 * 16 + c / 4 }
  function B2(c: Sextet, d: Sextet): Byte { c % 4 * 64 + d }

  function Encode(bytes: seq<Byte>): string
  {
    if bytes == [] then ""
    else if |bytes| == 1 then [CharOf(S0(bytes[0])), CharOf(S1(bytes[0], 0)), '=', '=']
    else if |bytes| == 2 then
      [CharOf(S0(bytes[0])), CharOf(S1(bytes[0], bytes[1])), CharOf(S2(bytes[1], 0)), '=']
    else
      [CharOf(S0(bytes[0])), CharOf(S1(bytes[0], bytes[1])), CharOf(S2(bytes[1], bytes[2])), CharOf(S3(bytes[2]))]
      + Encode(bytes[3..])
  }

  function Decode(text: string): Option<seq<Byte>>
  {
    if text == "" then Some([])
    else if |text| < 4 then None
    else
      match (ValueOf(text[0]), ValueOf(text[1]))
      case (Some(a), Some(b)) =>
        if |text| == 4 && text[2] == '=' && text[3] == '=' then Some([B0(a, b)])
        else
          (match ValueOf(text[2])
           case None => None
           case Some(c) =>
             if |text| == 4 && text[3] == '=' then Some([B0(a, b), B1(b, c)])
             else
               match (ValueOf(text[3]), Decode(text[4..]))
               case (Some(d), Some(rest)) => Some([B0(a, b), B1(b, c), B2(c, d)] + rest)
               case _ => None)
      case _ => None
  }

  /** The alphabet of section 5 of RFC 4648. */
  const UPPER := "ABCDEFGHIJKLMNOPQRSTUVWXYZ"
  const LOWER := "abcdefghijklmnopqrstuvwxyz"
  const DIGITS := "0123456789"
  const ALPHABET := UPPER + LOWER + DIGITS + "-_"

  lemma LettersAt(v: nat)
    requires v < 26
    ensures |UPPER| == 26 && |LOWER| == 26
    ensures UPPER[v] == ('A' as int + v) as char && LOWER[v] == ('a' as int + v) as char
  {
    if v < 13 {
      assert v in {0, 1, 2, 3, 4, 5, 6, 7, 8, 9, 10, 11, 12};
    } else {
      assert v in {13, 14, 15, 16, 17, 18, 19, 20, 21, 22, 23, 24, 25};
    }
  }

  lemma DigitsAt(v: nat)
    requires v < 10
    ensures |DIGITS| == 10 && DIGITS[v] == ('0' as int + v) as char
  {
    assert v in {0, 1, 2, 3, 4, 5, 6, 7, 8, 9};
  }

  lemma AlphabetAt(v: Sextet)
    ensures |ALPHABET| == 64 && CharOf(v) == ALPHABET[v]
  {
    LettersAt(0);
    DigitsAt(0);
    if v < 26 {
      LettersAt(v);
    } else if v < 52 {
      LettersAt(v - 26);
    } else if v < 62 {
      DigitsAt(v - 52);
    }
    hide UPPER, LOWER, DIGITS;
  }

  function Number(digits: seq<int>, base: nat): int
  {
    if digits == [] then 0 else Number(digits[..|digits| - 1], base) * base + digits[|digits| - 1]
  }

  /** The characters, six bits each, are the bits of the bytes, eight each, filled up with zero bits. */
  ghost predicate SameBits(bytes: seq<Byte>, cs: string)
  {
    exists vs: seq<Sextet> ::
      && |vs| == |cs| == |bytes| + 1 <= 4 && (forall i :: 0 <= i < |cs| ==> cs[i] == ALPHABET[vs[i]])
      && Number(vs, 64) == Number(bytes, 256) * (if |bytes| == 1 then 16 else if |bytes| == 2 then 4 else 1)
  }

  lemma SameBitsBy(bytes: seq<Byte>, vs: seq<Sextet>, cs: string)
    requires |vs| == |cs| == |bytes| + 1 <= 4 && forall i :: 0 <= i < |cs| ==> cs[i] == CharOf(vs[i])
    requires Number(vs, 64) == Number(bytes, 256) * (if |bytes| == 1 then 16 else if |bytes| == 2 then 4 else 1)
    ensures SameBits(bytes, cs)
  {
    forall i | 0 <= i < |cs| ensures cs[i] == ALPHABET[vs[i]] {
      AlphabetAt(vs[i]);
    }
    hide CharOf, Number;
  }

  lemma NumberOf(digits: seq<int>, base: nat)
    ensures |digits| == 1 ==> Number(digits, base) == digits[0]
    ensures |digits| == 2 ==> Number(digits, base) == digits[0] * base + digits[1]
    ensures |digits| == 3 ==> Number(digits, base) == (digits[0] * base + digits[1]) * base + digits[2]
    ensures |digits| == 4 ==>
      Number(digits, base) == ((digits[0] * base + digits[1]) * base + digits[2]) * base + digits[3]
  {
    if |digits| == 1 {
      assert digits[..0] == [];
    } else if 1 < |digits| <= 4 {
      var n := |digits| - 1;
      NumberOf(digits[..n], base);
    }
  }

  /** The `k`-th group of up to three bytes. */
  function Group(bytes: seq<Byte>, k: nat): seq<Byte>
    requires 3 * k < |bytes|
  {
    bytes[3 * k..if 3 * k + 3 < |bytes| then 3 * k + 3 else |bytes|]
  }

  /** Four characters of the text hold the group, the last of them padding if it is short. */
  ghost predicate GroupEncoded(bytes: seq<Byte>, text: string, k: nat)
    requires 3 * k < |bytes|
  {
    && 4 * k + 4 <= |text|
    && exists cs :: SameBits(Group(bytes, k), cs)
                    && text[4 * k..4 * k + 4] == cs + Equals(3 - |Group(bytes, k)|)
  }

  lemma OneByte(x: Byte)
    ensures SameBits([x], [CharOf(S0(x)), CharOf(S1(x, 0))])
  {
    NumberOf([S0(x), S1(x, 0)], 64);
    NumberOf([x], 256);
    hide Number;
    SameBitsBy([x], [S0(x), S1(x, 0)], [CharOf(S0(x)), CharOf(S1(x, 0))]);
  }

  lemma TwoBytes(x: Byte, y: Byte)
    ensures SameBits([x, y], [CharOf(S0(x)), CharOf(S1(x, y)), CharOf(S2(y, 0))])
  {
    NumberOf([S0(x), S1(x, y), S2(y, 0)], 64);
    NumberOf([x, y], 256);
    hide Number, CharOf;
    SameBitsBy([x, y], [S0(x), S1(x, y), S2(y, 0)], [CharOf(S0(x)), CharOf(S1(x, y)), CharOf(S2(y, 0))]);
  }

  lemma ThreeBytes(x: Byte, y: Byte, z: Byte)
    ensures SameBits([x, y, z], [CharOf(S0(x)), CharOf(S1(x, y)), CharOf(S2(y, z)), CharOf(S3(z))])
  {
    NumberOf([S0(x), S1(x, y), S2(y, z), S3(z)], 64);
    NumberOf([x, y, z], 256);
    hide Number, CharOf;
    SameBitsBy([x, y, z], [S0(x), S1(x, y), S2(y, z), S3(z)],
               [CharOf(S0(x)), CharOf(S1(x, y)), CharOf(S2(y, z)), CharOf(S3(z))]);
  }

  lemma {:induction false} EncodedLength(bytes: seq<Byte>)
    ensures |Encode(bytes)| == 4 * ((|bytes| + 2) / 3)
  {
    EncodeSize(bytes);
    hide Encode;
    if |bytes| > 3 {
      EncodedLength(bytes[3..]);
    }
  }

  /** Every group of bytes is encoded in its place, and the text ends with the last. */
  lemma {:induction false} EncodeExact(bytes: seq<Byte>)
    ensures |Encode(bytes)| == 4 * ((|bytes| + 2) / 3)
    ensures forall k: nat :: 3 * k < |bytes| ==> GroupEncoded(bytes, Encode(bytes), k)
  {
    hide *;
    EncodedLength(bytes);
    if bytes != [] {
      FirstGroup(bytes);
    }
    if |bytes| > 3 {
      EncodeExact(bytes[3..]);
    }
    forall k: nat | 3 * k < |bytes| ensures GroupEncoded(bytes, Encode(bytes), k) {
      if k > 0 {
        assert 3 * (k - 1) < |bytes[3..]|;
        LaterGroup(bytes, k);
      }
    }
  }

  lemma EncodeSize(bytes: seq<Byte>)
    ensures bytes == [] ==> Encode(bytes) == ""
    ensures 0 < |bytes| <= 3 ==> |Encode(bytes)| == 4
    ensures |bytes| > 3 ==> |Encode(bytes)| == 4 + |Encode(bytes[3..])| && Encode(bytes)[4..] == Encode(bytes[3..])
  {
    hide CharOf, S0, S1, S2, S3;
    assert Encode([]) == "";
  }

  lemma LaterGroup(bytes: seq<Byte>, k: nat)
    requires |bytes| > 3 && 0 < k && 3 * k < |bytes| && GroupEncoded(bytes[3..], Encode(bytes[3..]), k - 1)
    ensures GroupEncoded(bytes, Encode(bytes), k)
  {
    EncodeSize(bytes);
    hide Encode, SameBits;
    var text, more := Encode(bytes), Encode(bytes[3..]);
    assert Group(bytes[3..], k - 1) == Group(bytes, k);
    assert text[4 * k..4 * k + 4] == text[4..][4 * (k - 1)..4 * (k - 1) + 4];
  }

  lemma FirstGroup(bytes: seq<Byte>)
    requires bytes != []
    ensures GroupEncoded(bytes, Encode(bytes), 0)
  {
    var text := Encode(bytes);
    if |bytes| == 1 {
      OneByte(bytes[0]);
      assert Group(bytes, 0) == [bytes[0]];
      assert text[0..4] == [CharOf(S0(bytes[0])), CharOf(S1(bytes[0], 0))] + Equals(2);
    } else if |bytes| == 2 {
      TwoBytes(bytes[0], bytes[1]);
      assert Group(bytes, 0) == [bytes[0], bytes[1]];
      assert text[0..4] == [CharOf(S0(bytes[0])), CharOf(S1(bytes[0], bytes[1])), CharOf(S2(bytes[1], 0))] + Equals(1);
    } else {
      ThreeBytes(bytes[0], bytes[1], bytes[2]);
      assert Group(bytes, 0) == [bytes[0], bytes[1], bytes[2]];
      var b0, b1, b2 := bytes[0], bytes[1], bytes[2];
      var cs := [CharOf(S0(b0)), CharOf(S1(b0, b1)), CharOf(S2(b1, b2)), CharOf(S3(b2))];
      assert text[0..4] == cs + Equals(0);
    }
    hide CharOf, S0, S1, S2, S3, SameBits, Encode;
  }

  /** `rstrip("=")`. */
  function Strip(text: string): string
  {
    if text != "" && text[|text| - 1] == '=' then Strip(text[..|text| - 1]) else text
  }

  function Equals(n: nat): string
  {
    seq(n, _ => '=')
  }

  /** Restore the padding from the length alone. */
  function Pad(text: string): string
  {
    text + Equals((4 - |text| % 4) % 4)
  }

  lemma Bits(x: Byte, y: Byte, z: Byte)
    ensures B0(S0(x), S1(x, y)) == x && B1(S1(x, y), S2(y, z)) == y && B2(S2(y, z), S3(z)) == z
  {
  }

  /** Four characters of the alphabet decode to three bytes. */
  lemma DecodeGroup(text: string, rest: string)
    requires |text| == 4 && forall i :: 0 <= i < 4 ==> text[i] != '=' && ValueOf(text[i]).Some?
    ensures Decode(text + rest) ==
      if Decode(rest).None? then None
      else
        var a, b, c, d :=
          ValueOf(text[0]).value, ValueOf(text[1]).value, ValueOf(text[2]).value, ValueOf(text[3]).value;
        Some([B0(a, b), B1(b, c), B2(c, d)] + Decode(rest).value)
  {
    hide ValueOf, B0, B1, B2;
    assert (text + rest)[4..] == rest;
  }

  lemma DecodeShort(text: string)
    requires |text| == 4 && text[3] == '='
    requires forall i :: 0 <= i < 2 ==> text[i] != '=' && ValueOf(text[i]).Some?
    requires text[2] == '=' || ValueOf(text[2]).Some?
    ensures var a, b := ValueOf(text[0]).value, ValueOf(text[1]).value;
      Decode(text) == if text[2] == '=' then Some([B0(a, b)]) else Some([B0(a, b), B1(b, ValueOf(text[2]).value)])
  {
    assert ValueOf('=') == None;
    hide ValueOf, B0, B1, B2;
  }

  /** Decoding undoes encoding. */
  lemma {:induction false} DecodeEncode(bytes: seq<Byte>)
    ensures Decode(Encode(bytes)) == Some(bytes)
  {
    hide CharOf, ValueOf, Decode, B0, B1, B2, S0, S1, S2, S3;
    if bytes == [] {
      EmptyCursor();
    } else if |bytes| == 1 {
      Bits(bytes[0], 0, 0);
      ValueOfChar(S0(bytes[0]));
      ValueOfChar(S1(bytes[0], 0));
      DecodeShort(Encode(bytes));
      assert bytes == [bytes[0]];
    } else if |bytes| == 2 {
      Bits(bytes[0], bytes[1], 0);
      ValueOfChar(S0(bytes[0]));
      ValueOfChar(S1(bytes[0], bytes[1]));
      ValueOfChar(S2(bytes[1], 0));
      DecodeShort(Encode(bytes));
      assert bytes == [bytes[0], bytes[1]];
    } else {
      DecodeEncode(bytes[3..]);
      Bits(bytes[0], bytes[1], bytes[2]);
      ValueOfChar(S0(bytes[0]));
      ValueOfChar(S1(bytes[0], bytes[1]));
      ValueOfChar(S2(bytes[1], bytes[2]));
      ValueOfChar(S3(bytes[2]));
      DecodeGroup(Encode(bytes)[..4], Encode(bytes[3..]));
      assert Encode(bytes) == Encode(bytes)[..4] + Encode(bytes[3..]);
      assert bytes == [bytes[0], bytes[1], bytes[2]] + bytes[3..];
    }
  }

  lemma StripTail(text: string, n: nat)
    requires text == "" || text[|text| - 1] != '='
    ensures Strip(text + Equals(n)) == text
  {
    if n == 0 {
      assert text + Equals(n) == text;
    } else {
      assert (text + Equals(n))[..|text| + n - 1] == text + Equals(n - 1);
      StripTail(text, n - 1);
    }
  }

  /** An encoding is text without a trailing equals sign followed by its padding, a multiple of four in all. */
  lemma {:induction false} EncodedShape(bytes: seq<Byte>) returns (text: string, n: nat)
    ensures Encode(bytes) == text + Equals(n) && (text == "" || text[|text| - 1] != '=')
    ensures n < 3 && (|text| + n) % 4 == 0
  {
    hide CharOf, ValueOf, S0, S1, S2, S3;
    var all := Encode(bytes);
    if bytes == [] {
      text, n := "", 0;
    } else if |bytes| == 1 {
      ValueOfChar(S1(bytes[0], 0));
      text, n := all[..2], 2;
      assert all == text + Equals(2);
    } else if |bytes| == 2 {
      ValueOfChar(S2(bytes[1], 0));
      text, n := all[..3], 1;
      assert all == text + Equals(1);
    } else {
      ValueOfChar(S3(bytes[2]));
      var rest, m := EncodedShape(bytes[3..]);
      text, n := all[..4] + rest, m;
      assert all == all[..4] + (rest + Equals(m));
    }
  }

  /** The padding stripped from a cursor comes back: the cursor decodes to its payload, for every payload. */
  lemma CursorRoundTrip(bytes: seq<Byte>)
    ensures Decode(Pad(Strip(Encode(bytes)))) == Some(bytes)
  {
    hide Encode, Decode;
    DecodeEncode(bytes);
    var text, n := EncodedShape(bytes);
    StripTail(text, n);
    assert (4 - |text| % 4) % 4 == n;
  }

  /** An encoding of something is not empty, so it never reads as the absent cursor. */
  lemma CursorNotEmpty(bytes: seq<Byte>)
    ensures Strip(Encode(bytes)) == "" <==> bytes == []
  {
    CursorRoundTrip(bytes);
    EmptyCursor();
    hide *;
  }

  lemma EmptyCursor()
    ensures Decode("") == Some([]) && Decode(Pad("")) == Some([]) && Strip(Encode([])) == ""
  {
    assert Pad("") == "";
  }

  /** The library's printing and reading of a pair of an instant and an id. */
  datatype Printer = Printer(show: Key -> seq<Byte>, parse: seq<Byte> -> Option<Key>)

  ghost predicate Faithful(p: Printer)
  {
    forall k :: p.show(k) != [] && p.parse(p.show(k)) == Some(k)
  }

  /** `_encode_cursor`. */
  function EncodeCursor(p: Printer, k: Key): string
  {
    Strip(Encode(p.show(k)))
  }

  /** `_decode_cursor`; None is the error for an invalid cursor. */
  function DecodeCursor(p: Printer, cursor: string): Option<Key>
  {
    var bytes := Decode(Pad(cursor));
    if bytes.None? then None else p.parse(bytes.value)
  }

  /** A cursor handed out is not empty and leads back to its key. */
  lemma KeyRoundTrip(p: Printer, k: Key)
    requires Faithful(p)
    ensures EncodeCursor(p, k) != "" && DecodeCursor(p, EncodeCursor(p, k)) == Some(k)
  {
    CursorRoundTrip(p.show(k));
    CursorNotEmpty(p.show(k));
    hide Strip, Encode, Decode, Pad;
  }

  /* ------------------------- following next_cursor ------------------------- */

  datatype CursorPage = CursorPage(items: seq<Note>, nextCursor: Option<string>)

  function CursorOf(p: Printer, k: Option<Key>): Option<string>
  {
    if k.None? then None else Some(EncodeCursor(p, k.value))
  }

  /** `list` as a caller sees it; None is the error for an invalid cursor, and an empty cursor is no cursor. */
  function ListPage(p: Printer, table: seq<Note>, user: UserId, unreadOnly: bool, cursor: Option<string>, limit: nat)
    : Option<CursorPage>
  {
    var start := if cursor.None? || cursor.value == "" then Some(None) else KeyOf(DecodeCursor(p, cursor.value));
    if start.None? then None
    else
      var page := List(table, user, unreadOnly, start.value, limit);
      Some(CursorPage(page.items, CursorOf(p, page.next)))
  }

  function KeyOf(k: Option<Key>): Option<Option<Key>>
  {
    if k.None? then None else Some(k)
  }

  /** The items of the pages from a cursor on, each page asked for with the `next_cursor` of the one before. */
  function FollowCursors(p: Printer, table: seq<Note>, user: UserId, unreadOnly: bool, limit: nat,
                         cursor: Option<string>, pages: nat): Option<seq<Note>>
    decreases pages
  {
    if pages == 0 then None
    else
      match ListPage(p, table, user, unreadOnly, cursor, limit)
      case None => None
      case Some(page) =>
        if page.nextCursor.None? then Some(page.items)
        else
          match FollowCursors(p, table, user, unreadOnly, limit, page.nextCursor, pages - 1)
          case None => None
          case Some(rest) => Some(page.items + rest)
  }

  /** Cursors handed out lead where their keys do. */
  lemma {:induction false} FollowSame(p: Printer, table: seq<Note>, user: UserId, unreadOnly: bool, limit: nat,
                                      k: Option<Key>, pages: nat)
    requires Faithful(p)
    ensures FollowCursors(p, table, user, unreadOnly, limit, CursorOf(p, k), pages)
         == Follow(table, user, unreadOnly, limit, k, pages)
    decreases pages
  {
    hide EncodeCursor, DecodeCursor, List, Faithful;
    if pages > 0 {
      if k.Some? {
        KeyRoundTrip(p, k.value);
      }
      var page := List(table, user, unreadOnly, k, limit);
      FollowSame(p, table, user, unreadOnly, limit, page.next, pages - 1);
    }
  }

  /** Following `next_cursor` from no cursor stops without an error and has then listed every notification of the user
      exactly once, newest first, whatever the limit. */
  lemma CursorsListAll(p: Printer, table: seq<Note>, user: UserId, unreadOnly: bool, limit: nat)
    requires Faithful(p) && DistinctIds(table) && limit >= 1
    ensures var all := FollowCursors(p, table, user, unreadOnly, limit, None, |Ordered(table, user, unreadOnly)| + 1);
      && all.Some? && Descending(all.value)
      && forall n :: multiset(all.value)[n] == if Wanted(n, user, unreadOnly) then multiset(table)[n] else 0
  {
    FollowSame(p, table, user, unreadOnly, limit, None, |Ordered(table, user, unreadOnly)| + 1);
    FollowListsAll(table, user, unreadOnly, limit);
    hide Ordered, Follow, FollowCursors, Faithful;
  }
}
