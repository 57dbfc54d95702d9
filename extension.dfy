/**
 * String and GUID helpers of the client (crates/client/src/extension.rs):
 * UTF-16 encodings for the Windows API and the registry form of a GUID.
 */
module Extension {
  import opened Wrappers

  type U8 = x: int | 0 <= x < 0x100
  type U16 = x: int | 0 <= x < 0x1_0000
  type U32 = x: int | 0 <= x < 0x1_0000_0000

  /** `char::encode_utf16` for one scalar value: one unit, or a surrogate pair. */
  function EncodeChar(c: char): (r: seq<U16>)
    ensures |r| == 1 <==> (c as int) < 0x1_0000
    ensures |r| == 1 || |r| == 2
    ensures |r| == 2 ==> 0xD800 <= r[0] < 0xDC00 && 0xDC00 <= r[1] < 0xE000
  {
    var v := c as int;
    if v < 0x1_0000 then [v]
    else [0xD800 + (v - 0x1_0000) / 0x400, 0xDC00 + (v - 0x1_0000) % 0x400]
  }

  /** `str::encode_utf16`. */
  function EncodeUtf16(s: string): (r: seq<U16>)
    ensures |s| <= |r| <= 2 * |s|
  {
    if s == [] then [] else EncodeChar(s[0]) + EncodeUtf16(s[1..])
  }

  predicate IsScalar(v: int)
  {
    (0 <= v < 0xD800) || (0xE000 <= v < 0x11_0000)
  }

  /** The inverse: UTF-16 units back to a string, or None for an unpaired surrogate. */
  function DecodeUtf16(units: seq<U16>): (r: Option<string>)
    decreases |units|
  {
    if units == [] then Some([])
    else
      var u: int := units[0];
      if IsScalar(u) then
        match DecodeUtf16(units[1..])
        case None => None
        case Some(rest) => Some([u as char] + rest)
      else if u < 0xDC00 && |units| >= 2 && 0xDC00 <= units[1] < 0xE000 then
        var lo: int := units[1];
        var v: int := 0x1_0000 + (u - 0xD800) * 0x400 + (lo - 0xDC00);
        match DecodeUtf16(units[2..])
        case None => None
        case Some(rest) => Some([v as char] + rest)
      else None
  }

  lemma {:induction false} DecodeEncode(s: string)
    ensures DecodeUtf16(EncodeUtf16(s)) == Some(s)
  {
    if s != [] {
      var c := s[0];
      var units := EncodeUtf16(s);
      assert units == EncodeChar(c) + EncodeUtf16(s[1..]);
      DecodeEncode(s[1..]);
      var v := c as int;
      if v < 0x1_0000 {
        assert units[1..] == EncodeUtf16(s[1..]);
        assert units[0] == v && IsScalar(v) && v as char == c;
        assert s == [c] + s[1..];
      } else {
        assert units[2..] == EncodeUtf16(s[1..]);
        var hi := 0xD800 + (v - 0x1_0000) / 0x400;
        var lo := 0xDC00 + (v - 0x1_0000) % 0x400;
        assert units[0] == hi && units[1] == lo && !IsScalar(hi);
        assert 0x1_0000 + (hi - 0xD800) * 0x400 + (lo - 0xDC00) == v;
        assert v as char == c;
        assert s == [c] + s[1..];
      }
    }
  }

  /** A unit is 0 exactly where the string has a NUL character. */
  lemma {:induction false} ZeroUnitsAreNuls(s: string)
    ensures (0 in EncodeUtf16(s)) <==> ('\0' in s)
  {
    if s != [] {
      ZeroUnitsAreNuls(s[1..]);
      assert EncodeUtf16(s) == EncodeChar(s[0]) + EncodeUtf16(s[1..]);
      assert s == [s[0]] + s[1..];
    }
  }

  /** `to_wide_16_unpadded`: the UTF-16 units, no terminator. */
  function ToWide16Unpadded(s: string): (r: seq<U16>)
    ensures DecodeUtf16(r) == Some(s)
  {
    DecodeEncode(s);
    EncodeUtf16(s)
  }

  /** `to_wide_16`: the UTF-16 units and one 0 terminator. */
  function ToWide16(s: string): (r: seq<U16>)
    ensures |r| >= 1 && r[|r| - 1] == 0 && r[..|r| - 1] == ToWide16Unpadded(s)
    ensures '\0' !in s ==> forall i :: 0 <= i < |r| - 1 ==> r[i] != 0
  {
    ZeroUnitsAreNuls(s);
    EncodeUtf16(s) + [0]
  }

  /** `u16::to_le_bytes`, flattened over the units. */
  function LeBytes(units: seq<U16>): (r: seq<U8>)
    ensures |r| == 2 * |units|
  {
    if units == [] then [] else [units[0] % 0x100, units[0] / 0x100] + LeBytes(units[1..])
  }

  /** Little-endian byte pairs read back as units; a trailing odd byte is not a unit. */
  function FromLeBytes(bytes: seq<U8>): (r: seq<U16>)
    ensures |r| == |bytes| / 2
  {
    if |bytes| < 2 then []
    else
      var lo: int, hi: int := bytes[0], bytes[1];
      [lo + 0x100 * hi] + FromLeBytes(bytes[2..])
  }

  lemma {:induction false} LeBytesRoundTrip(units: seq<U16>)
    ensures FromLeBytes(LeBytes(units)) == units
  {
    if units != [] {
      LeBytesRoundTrip(units[1..]);
      assert LeBytes(units)[2..] == LeBytes(units[1..]);
    }
  }

  lemma {:induction false} FromLeBytesPrefix(bytes: seq<U8>, extra: seq<U8>)
    requires |bytes| % 2 == 0
    ensures FromLeBytes(bytes + extra) == FromLeBytes(bytes) + FromLeBytes(extra)
    decreases |bytes|
  {
    if bytes != [] {
      assert (bytes + extra)[0] == bytes[0] && (bytes + extra)[1] == bytes[1];
      assert (bytes + extra)[2..] == bytes[2..] + extra;
      FromLeBytesPrefix(bytes[2..], extra);
      var head := [bytes[0] as int + 0x100 * bytes[1] as int];
      calc {
        FromLeBytes(bytes + extra);
        head + FromLeBytes(bytes[2..] + extra);
        head + (FromLeBytes(bytes[2..]) + FromLeBytes(extra));
        (head + FromLeBytes(bytes[2..])) + FromLeBytes(extra);
        FromLeBytes(bytes) + FromLeBytes(extra);
      }
    } else {
      assert bytes + extra == extra;
    }
  }

  /** `to_wide` as written: the little-endian bytes of the units, then a single 0 byte. */
  function ToWide(s: string): (r: seq<U8>)
    ensures |r| == 2 * |EncodeUtf16(s)| + 1
    ensures FromLeBytes(r) == EncodeUtf16(s)
  {
    var bytes := LeBytes(EncodeUtf16(s));
    LeBytesRoundTrip(EncodeUtf16(s));
    FromLeBytesPrefix(bytes, [0]);
    bytes + [0]
  }

  /** Read as UTF-16, `to_wide` carries no NUL unit: its last byte is half a unit. */
  lemma ToWideHasNoNulUnit()
    ensures ToWide("a") == [0x61, 0, 0]
    ensures |ToWide("a")| % 2 == 1
    ensures FromLeBytes(ToWide("a")) == [0x61]
  {
    assert EncodeUtf16("a") == [0x61];
  }

  /** The intended byte form: the bytes of `to_wide_16`, NUL unit included. */
  function ToWideTerminated(s: string): (r: seq<U8>)
    ensures |r| == 2 * |EncodeUtf16(s)| + 2
    ensures FromLeBytes(r) == ToWide16(s)
  {
    LeBytesRoundTrip(ToWide16(s));
    LeBytes(ToWide16(s))
  }

  datatype Guid = Guid(data1: U32, data2: U16, data3: U16, data4: seq<U8>)

  predicate ValidGuid(g: Guid)
  {
    |g.data4| == 8
  }

  function HexDigit(d: int): (c: char)
    requires 0 <= d < 16
    ensures IsHexDigit(c) && HexValue([c]) == d
  {
    if d < 10 then ('0' as int + d) as char else ('a' as int + d - 10) as char
  }

  predicate IsHexDigit(c: char)
  {
    ('0' <= c <= '9') || ('a' <= c <= 'f')
  }

  function Pow16(width: nat): nat
  {
    if width == 0 then 1 else 16 * Pow16(width - 1)
  }

  /** `{:0width$x}`: `width` lowercase hex digits, zero-padded. */
  function Hex(n: nat, width: nat): (r: string)
    requires n < Pow16(width)
    ensures |r| == width
    ensures forall i :: 0 <= i < |r| ==> IsHexDigit(r[i])
  {
    if width == 0 then [] else Hex(n / 16, width - 1) + [HexDigit(n % 16)]
  }

  /** The value of a string of lowercase hex digits. */
  function HexValue(s: string): nat
  {
    if s == [] then 0
    else
      var c := s[|s| - 1];
      var d := if '0' <= c <= '9' then c as int - '0' as int
               else if 'a' <= c <= 'f' then c as int - 'a' as int + 10 else 0;
      16 * HexValue(s[..|s| - 1]) + d
  }

  lemma {:induction false} HexRoundTrip(n: nat, width: nat)
    requires n < Pow16(width)
    ensures HexValue(Hex(n, width)) == n
  {
    if width > 0 {
      HexRoundTrip(n / 16, width - 1);
      var r := Hex(n, width);
      assert r[..|r| - 1] == Hex(n / 16, width - 1);
    }
  }

  /** `GUIDExt::to_string`: braces around 8-4-4-4-12 lowercase hex digits. */
  function GuidToString(g: Guid): (r: string)
    requires ValidGuid(g)
    ensures |r| == 38 && r[0] == '{' && r[37] == '}'
    ensures r[9] == '-' && r[14] == '-' && r[19] == '-' && r[24] == '-'
  {
    assert Pow16(2) == 0x100 && Pow16(4) == 0x1_0000 && Pow16(8) == 0x1_0000_0000 by {
      assert Pow16(1) == 16;
      assert Pow16(3) == 0x1000;
      assert Pow16(5) == 0x10_0000;
      assert Pow16(6) == 0x100_0000;
      assert Pow16(7) == 0x1000_0000;
    }
    var d := g.data4;
    "{" + (Hex(g.data1, 8) + ("-" + (Hex(g.data2, 4) + ("-" + (Hex(g.data3, 4) + ("-"
      + (Hex(d[0], 2) + (Hex(d[1], 2) + ("-"
      + (Hex(d[2], 2) + (Hex(d[3], 2) + (Hex(d[4], 2) + (Hex(d[5], 2) + (Hex(d[6], 2) + (Hex(d[7], 2) + "}")))))))))))))))
  }

  /** The inverse: a registry-form GUID string parsed back. */
  function ParseGuid(s: string): Option<Guid>
  {
    if |s| == 38 && s[0] == '{' && s[9] == '-' && s[14] == '-' && s[19] == '-' && s[24] == '-' && s[37] == '}'
       && HexValue(s[1..9]) < 0x1_0000_0000 && HexValue(s[10..14]) < 0x1_0000 && HexValue(s[15..19]) < 0x1_0000
       && HexValue(s[20..22]) < 0x100 && HexValue(s[22..24]) < 0x100
       && HexValue(s[25..27]) < 0x100 && HexValue(s[27..29]) < 0x100 && HexValue(s[29..31]) < 0x100
       && HexValue(s[31..33]) < 0x100 && HexValue(s[33..35]) < 0x100 && HexValue(s[35..37]) < 0x100
    then
      Some(Guid(HexValue(s[1..9]), HexValue(s[10..14]), HexValue(s[15..19]),
                [HexValue(s[20..22]), HexValue(s[22..24]), HexValue(s[25..27]), HexValue(s[27..29]),
                 HexValue(s[29..31]), HexValue(s[31..33]), HexValue(s[33..35]), HexValue(s[35..37])]))
    else None
  }

  /** Where a piece sits in a string built as `prefix + (x + rest)`. */
  lemma PieceAt(s: string, at: nat, x: string, rest: string)
    requires at <= |s| && s[at..] == x + rest
    ensures at + |x| <= |s| && s[at..at + |x|] == x && s[at + |x|..] == rest
  {
    assert s[at..at + |x|] == s[at..][..|x|];
    assert s[at + |x|..] == s[at..][|x|..];
  }

  /** The digit groups of the string, by position. */
  lemma GuidSlices(g: Guid)
    requires ValidGuid(g)
    ensures var s, d := GuidToString(g), g.data4;
            && s[1..9] == Hex(g.data1, 8) && s[10..14] == Hex(g.data2, 4) && s[15..19] == Hex(g.data3, 4)
            && s[20..22] == Hex(d[0], 2) && s[22..24] == Hex(d[1], 2) && s[25..27] == Hex(d[2], 2)
            && s[27..29] == Hex(d[3], 2) && s[29..31] == Hex(d[4], 2) && s[31..33] == Hex(d[5], 2)
            && s[33..35] == Hex(d[6], 2) && s[35..37] == Hex(d[7], 2)
  {
    assert Pow16(2) == 0x100 && Pow16(4) == 0x1_0000 && Pow16(8) == 0x1_0000_0000 by {
      assert Pow16(1) == 16;
      assert Pow16(3) == 0x1000;
      assert Pow16(5) == 0x10_0000;
      assert Pow16(6) == 0x100_0000;
      assert Pow16(7) == 0x1000_0000;
    }
    var s := GuidToString(g);
    var d := g.data4;
    var h1, h2, h3 := Hex(g.data1, 8), Hex(g.data2, 4), Hex(g.data3, 4);
    var b0, b1, b2, b3 := Hex(d[0], 2), Hex(d[1], 2), Hex(d[2], 2), Hex(d[3], 2);
    var b4, b5, b6, b7 := Hex(d[4], 2), Hex(d[5], 2), Hex(d[6], 2), Hex(d[7], 2);
    var r9 := b7 + "}";
    var r8 := b6 + r9;
    var r7 := b5 + r8;
    var r6 := b4 + r7;
    var r5 := b3 + r6;
    var r4 := b2 + r5;
    var r3 := "-" + r4;
    var r2 := b1 + r3;
    var r1 := b0 + r2;
    var q3 := "-" + r1;
    var q2 := h3 + q3;
    var q1 := "-" + q2;
    var p2 := h2 + q1;
    var p1 := "-" + p2;
    assert s == "{" + (h1 + p1);
    PieceAt(s, 1, h1, p1);
    PieceAt(s, 9, "-", p2);
    PieceAt(s, 10, h2, q1);
    PieceAt(s, 14, "-", q2);
    PieceAt(s, 15, h3, q3);
    PieceAt(s, 19, "-", r1);
    PieceAt(s, 20, b0, r2);
    PieceAt(s, 22, b1, r3);
    PieceAt(s, 24, "-", r4);
    PieceAt(s, 25, b2, r5);
    PieceAt(s, 27, b3, r6);
    PieceAt(s, 29, b4, r7);
    PieceAt(s, 31, b5, r8);
    PieceAt(s, 33, b6, r9);
    PieceAt(s, 35, b7, "}");
  }

  /** A well-laid-out string whose digit groups hold the fields of `g` parses to `g`. */
  lemma ParseGuidFields(s: string, g: Guid)
    requires ValidGuid(g) && |s| == 38 && s[0] == '{' && s[37] == '}'
    requires s[9] == '-' && s[14] == '-' && s[19] == '-' && s[24] == '-'
    requires HexValue(s[1..9]) == g.data1 && HexValue(s[10..14]) == g.data2 && HexValue(s[15..19]) == g.data3
    requires HexValue(s[20..22]) == g.data4[0] && HexValue(s[22..24]) == g.data4[1]
    requires HexValue(s[25..27]) == g.data4[2] && HexValue(s[27..29]) == g.data4[3]
    requires HexValue(s[29..31]) == g.data4[4] && HexValue(s[31..33]) == g.data4[5]
    requires HexValue(s[33..35]) == g.data4[6] && HexValue(s[35..37]) == g.data4[7]
    ensures ParseGuid(s) == Some(g)
  {
    var d := g.data4;
    assert [d[0], d[1], d[2], d[3], d[4], d[5], d[6], d[7]] == d;
  }

  lemma GuidRoundTrip(g: Guid)
    requires ValidGuid(g)
    ensures ParseGuid(GuidToString(g)) == Some(g)
  {
    assert Pow16(2) == 0x100 && Pow16(4) == 0x1_0000 && Pow16(8) == 0x1_0000_0000 by {
      assert Pow16(1) == 16;
      assert Pow16(3) == 0x1000;
      assert Pow16(5) == 0x10_0000;
      assert Pow16(6) == 0x100_0000;
      assert Pow16(7) == 0x1000_0000;
    }
    var d := g.data4;
    GuidSlices(g);
    var s := GuidToString(g);
    HexRoundTrip(g.data1, 8);
    HexRoundTrip(g.data2, 4);
    HexRoundTrip(g.data3, 4);
    HexRoundTrip(d[0], 2);
    HexRoundTrip(d[1], 2);
    HexRoundTrip(d[2], 2);
    HexRoundTrip(d[3], 2);
    HexRoundTrip(d[4], 2);
    HexRoundTrip(d[5], 2);
    HexRoundTrip(d[6], 2);
    HexRoundTrip(d[7], 2);
    ParseGuidFields(s, g);
  }
}
