/** decode of internal/sops/azkv/config.go: a configuration file in UTF-16, with a byte order
    mark, read as UTF-8 (sections 2.1, 2.2 and 3.2 of RFC 2781; section 3 of RFC 3629). */
module AzureConfig {

  newtype byte = x: int | 0 <= x < 0x100
  newtype uint16 = x: int | 0 <= x < 0x1_0000

  /** A Unicode scalar value. */
  type Rune = x: int | 0 <= x < 0x11_0000 && !(0xD800 <= x < 0xE000) witness 0

  const Replacement: Rune := 0xFFFD

  // ------------------------------------------------------------ UTF-16

  /** Section 2.1 of RFC 2781. */
  function EncodeRune(r: Rune): seq<uint16> {
    if r < 0x1_0000 then [r as uint16]
    else
      var v := r - 0x1_0000;
      [(0xD800 + v / 0x400) as uint16, (0xDC00 + v % 0x400) as uint16]
  }

  function EncodeUtf16(rs: seq<Rune>): seq<uint16> {
    if rs == [] then [] else EncodeRune(rs[0]) + EncodeUtf16(rs[1..])
  }

  /** utf16.Decode: unpaired surrogates become the replacement character. */
  function DecodeUtf16(us: seq<uint16>): seq<Rune>
    decreases |us|
  {
    if us == [] then []
    else
      var u := us[0] as int;
      if !(0xD800 <= u < 0xE000) then [u] + DecodeUtf16(us[1..])
      else if u < 0xDC00 && |us| >= 2 && 0xDC00 <= us[1] as int < 0xE000 then
        [(u - 0xD800) * 0x400 + (us[1] as int - 0xDC00) + 0x1_0000] + DecodeUtf16(us[2..])
      else [Replacement] + DecodeUtf16(us[1..])
  }

  lemma {:induction false} Utf16RoundTrip(rs: seq<Rune>)
    ensures DecodeUtf16(EncodeUtf16(rs)) == rs
  {
    if rs != [] {
      Utf16RoundTrip(rs[1..]);
      var us := EncodeUtf16(rs);
      if rs[0] < 0x1_0000 {
        assert us[1..] == EncodeUtf16(rs[1..]);
      } else {
        assert us[2..] == EncodeUtf16(rs[1..]);
        var v: int := rs[0] as int - 0x1_0000;
        assert us[0] as int == 0xD800 + v / 0x400 && us[1] as int == 0xDC00 + v % 0x400;
      }
      assert rs == [rs[0]] + rs[1..];
    }
  }

  // ------------------------------------------------------------ UTF-8

  /** Section 3 of RFC 3629. */
  function EncodeUtf8Rune(r: Rune): seq<byte> {
    if r < 0x80 then [r as byte]
    else if r < 0x800 then [(0xC0 + r / 0x40) as byte, (0x80 + r % 0x40) as byte]
    else
      var q := r / 0x40;
      if r < 0x1_0000 then [(0xE0 + q / 0x40) as byte, (0x80 + q % 0x40) as byte, (0x80 + r % 0x40) as byte]
      else
        var p := q / 0x40;
        [(0xF0 + p / 0x40) as byte, (0x80 + p % 0x40) as byte, (0x80 + q % 0x40) as byte, (0x80 + r % 0x40) as byte]
  }

  /** string(runes), as bytes. */
  function EncodeUtf8(rs: seq<Rune>): seq<byte> {
    if rs == [] then [] else EncodeUtf8Rune(rs[0]) + EncodeUtf8(rs[1..])
  }

  /** The length of the sequence a first byte announces. */
  function Utf8Length(b: byte): nat {
    if b < 0x80 then 1 else if b < 0xE0 then 2 else if b < 0xF0 then 3 else 4
  }

  /** The value of one encoded sequence. */
  ghost function Utf8Value(bs: seq<byte>): int
    requires 1 <= |bs| <= 4
  {
    if |bs| == 1 then bs[0] as int
    else if |bs| == 2 then (bs[0] as int - 0xC0) * 0x40 + (bs[1] as int - 0x80)
    else if |bs| == 3 then (bs[0] as int - 0xE0) * 0x1000 + (bs[1] as int - 0x80) * 0x40 + (bs[2] as int - 0x80)
    else (bs[0] as int - 0xF0) * 0x4_0000 + (bs[1] as int - 0x80) * 0x1000
         + (bs[2] as int - 0x80) * 0x40 + (bs[3] as int - 0x80)
  }

  lemma Utf8RuneRoundTrip(r: Rune)
    ensures var bs := EncodeUtf8Rune(r);
            1 <= |bs| <= 4 && Utf8Length(bs[0]) == |bs| && Utf8Value(bs) == r
  {
    var q: int := r as int / 0x40;
    var p: int := q / 0x40;
    assert r == q * 0x40 + r as int % 0x40 && q == p * 0x40 + q % 0x40 && p == p / 0x40 * 0x40 + p % 0x40;
  }

  /** UTF-8 text determines its runes. */
  lemma {:induction false} Utf8Injective(a: seq<Rune>, b: seq<Rune>)
    requires EncodeUtf8(a) == EncodeUtf8(b)
    ensures a == b
  {
    if a != [] && b != [] {
      var x, y := EncodeUtf8Rune(a[0]), EncodeUtf8Rune(b[0]);
      Utf8RuneRoundTrip(a[0]);
      Utf8RuneRoundTrip(b[0]);
      var bs := EncodeUtf8(a);
      assert bs[0] == x[0] && bs[0] == y[0];
      assert x == bs[..|x|] && y == bs[..|y|];
      assert EncodeUtf8(a[1..]) == bs[|x|..] && EncodeUtf8(b[1..]) == bs[|y|..];
      Utf8Injective(a[1..], b[1..]);
      assert a == [a[0]] + a[1..] && b == [b[0]] + b[1..];
    } else if a != [] {
      Utf8RuneRoundTrip(a[0]);
    } else if b != [] {
      Utf8RuneRoundTrip(b[0]);
    }
  }

  // ------------------------------------------------------------ bytes

  datatype Order = LittleEndian | BigEndian

  function UnitBytes(u: uint16, order: Order): (bs: seq<byte>)
    ensures |bs| == 2
  {
    var high, low := (u as int / 0x100) as byte, (u as int % 0x100) as byte;
    if order == LittleEndian then [low, high] else [high, low]
  }

  function Unit(a: byte, b: byte, order: Order): uint16 {
    if order == LittleEndian then (b as int * 0x100 + a as int) as uint16 else (a as int * 0x100 + b as int) as uint16
  }

  function Bytes(us: seq<uint16>, order: Order): (bs: seq<byte>)
    ensures |bs| == 2 * |us|
  {
    if us == [] then [] else UnitBytes(us[0], order) + Bytes(us[1..], order)
  }

  /** The byte order mark. */
  function Mark(order: Order): seq<byte> {
    if order == LittleEndian then [0xFF, 0xFE] else [0xFE, 0xFF]
  }

  datatype Encoding = NoMark | Utf8 | Utf16(order: Order) | Utf32(bigEndian: bool)

  /** utfbom.Skip: the longest mark wins, so FF FE 00 00 is UTF-32. */
  function Detect(b: seq<byte>): (r: (Encoding, nat))
    ensures r.1 <= |b|
  {
    if |b| >= 4 && b[..4] == [0x00, 0x00, 0xFE, 0xFF] then (Utf32(true), 4)
    else if |b| >= 4 && b[..4] == [0xFF, 0xFE, 0x00, 0x00] then (Utf32(false), 4)
    else if |b| >= 3 && b[..3] == [0xEF, 0xBB, 0xBF] then (Utf8, 3)
    else if |b| >= 2 && b[..2] == [0xFE, 0xFF] then (Utf16(BigEndian), 2)
    else if |b| >= 2 && b[..2] == [0xFF, 0xFE] then (Utf16(LittleEndian), 2)
    else (NoMark, 0)
  }

  // ------------------------------------------------------------ decode

  /** The units of the bytes after the mark; a last odd byte is left unread. */
  ghost function Units(bs: seq<byte>, order: Order): (us: seq<uint16>)
    ensures |us| == |bs| / 2
  {
    if |bs| < 2 then [] else [Unit(bs[0], bs[1], order)] + Units(bs[2..], order)
  }

  lemma UnitsStep(done: seq<uint16>, bs: seq<byte>, order: Order)
    requires |bs| >= 2
    ensures done + Units(bs, order) == (done + [Unit(bs[0], bs[1], order)]) + Units(bs[2..], order)
  {
  }

  lemma UnitsEnd(done: seq<uint16>, bs: seq<byte>, order: Order)
    requires |bs| < 2
    ensures done + Units(bs, order) == done
  {
  }

  /** The buffer has len(b)/2 - 1 units and is filled exactly: no read goes past the bytes
      after the mark, and at most one byte is left. */
  method ReadUnits(b: seq<byte>, order: Order) returns (us: seq<uint16>)
    requires |b| >= 2
    ensures us == Units(b[2..], order)
    ensures 2 * |us| <= |b| - 2 <= 2 * |us| + 1
  {
    hide Unit, Units;
    var n := |b| / 2 - 1;
    var u16 := new uint16[n](_ => 0);
    var at := 2;
    for i := 0 to n
      invariant at == 2 + 2 * i <= |b|
      invariant u16[..i] + Units(b[at..], order) == Units(b[2..], order)
    {
      UnitsStep(u16[..i], b[at..], order);
      assert b[at..][0] == b[at] && b[at..][1] == b[at + 1] && b[at..][2..] == b[at + 2..];
      u16[i] := Unit(b[at], b[at + 1], order);
      assert u16[..i + 1] == u16[..i] + [Unit(b[at], b[at + 1], order)];
      at := at + 2;
    }
    UnitsEnd(u16[..], b[at..], order);
    assert u16[..] == u16[..n];
    return u16[..];
  }

  /** What decode makes of the bytes. */
  ghost function Decoded(b: seq<byte>): seq<byte> {
    match Detect(b).0
    case Utf16(order) => EncodeUtf8(DecodeUtf16(Units(b[2..], order)))
    case _ => b[Detect(b).1..]
  }

  method Decode(b: seq<byte>) returns (out: seq<byte>)
    ensures out == Decoded(b)
  {
    var (enc, n) := Detect(b);
    match enc {
      case Utf16(order) =>
        var us := ReadUnits(b, order);
        return EncodeUtf8(DecodeUtf16(us));
      case _ =>
        return b[n..];
    }
  }

  lemma UnitOfUnitBytes(u: uint16, order: Order)
    ensures |UnitBytes(u, order)| == 2 && Unit(UnitBytes(u, order)[0], UnitBytes(u, order)[1], order) == u
  {
  }

  lemma {:induction false} UnitsOfBytes(us: seq<uint16>, order: Order)
    ensures Units(Bytes(us, order), order) == us
  {
    if us != [] {
      hide UnitBytes, Unit;
      UnitOfUnitBytes(us[0], order);
      UnitsOfBytes(us[1..], order);
      assert Bytes(us, order)[2..] == Bytes(us[1..], order);
      assert us == [us[0]] + us[1..];
    }
  }

  lemma BytesSplit(us: seq<uint16>, order: Order)
    requires us != []
    ensures Bytes(us, order)[..2] == UnitBytes(us[0], order)
    ensures Bytes(us, order)[2..] == Bytes(us[1..], order)
  {
  }

  lemma DetectMark(b: seq<byte>, order: Order)
    requires |b| >= 2 && b[..2] == Mark(order)
    ensures Detect(b) == if order == LittleEndian && |b| >= 4 && b[2] == 0 && b[3] == 0 then (Utf32(false), 4)
                         else (Utf16(order), 2)
  {
    assert b[0] == Mark(order)[0] && b[1] == Mark(order)[1];
    assert |b| >= 4 ==> b[..4] == [b[0], b[1], b[2], b[3]];
    assert |b| >= 3 ==> b[..3] == [b[0], b[1], b[2]];
  }

  lemma ZeroUnit(r: Rune)
    ensures var u := EncodeRune(r)[0];
            UnitBytes(u, LittleEndian) == [0, 0] <==> r == 0
  {
    var u := EncodeRune(r)[0] as int;
    assert u == u / 0x100 * 0x100 + u % 0x100;
  }

  /** Detection of a marked UTF-16 text: only a little-endian text that starts with U+0000 is
      taken for something else. */
  lemma DetectMarked(rs: seq<Rune>, order: Order)
    ensures var b := Mark(order) + Bytes(EncodeUtf16(rs), order);
            Detect(b) == if order == LittleEndian && rs != [] && rs[0] == 0 then (Utf32(false), 4) else (Utf16(order), 2)
  {
    hide Bytes, UnitBytes, Detect, EncodeRune;
    var us := EncodeUtf16(rs);
    var b := Mark(order) + Bytes(us, order);
    assert b[..2] == Mark(order);
    DetectMark(b, order);
    if rs != [] {
      RuneUnits(rs[0]);
      assert us[0] == EncodeRune(rs[0])[0];
      BytesSplit(us, order);
      ZeroUnit(rs[0]);
      var first := Bytes(us, order)[..2];
      assert b[2] == first[0] && b[3] == first[1];
      assert first == [first[0], first[1]];
    }
  }

  lemma RuneUnits(r: Rune)
    ensures 1 <= |EncodeRune(r)| <= 2
  {
  }

  /** Everything else comes back as it is, without the mark if there is one: a file that starts with
      none of the five marks, and a file marked as UTF-8. */
  lemma DecodeOtherwise(b: seq<byte>)
    ensures !([0xEF, 0xBB, 0xBF] <= b) && !([0xFE, 0xFF] <= b) && !([0xFF, 0xFE] <= b) && !([0, 0, 0xFE, 0xFF] <= b)
            ==> Decoded(b) == b
    ensures Decoded([0xEF, 0xBB, 0xBF] + b) == b
  {
    assert |b| >= 3 ==> b[..3] <= b;
    assert |b| >= 2 ==> b[..2] <= b;
    assert |b| >= 4 ==> b[..4] <= b;
    assert |b| >= 4 && b[..4] == [0xFF, 0xFE, 0x00, 0x00] ==> b[..2] == [0xFF, 0xFE];
    assert b[0..] == b;
    var marked := [0xEF, 0xBB, 0xBF] + b;
    assert marked[0] == 0xEF && marked[..3] == [0xEF, 0xBB, 0xBF];
    assert marked[..2][0] == 0xEF;
    assert |marked| >= 4 ==> marked[..4][0] == 0xEF;
    assert marked[3..] == b;
  }

  /** The mark is U+FEFF in its own byte order. */
  lemma MarkIsFeff(order: Order)
    ensures Mark(order) == UnitBytes(0xFEFF, order)
  {
  }

  /** One unit, or a high and a low surrogate that carry ten bits each. */
  lemma RuneUnitsMeaning(r: Rune)
    ensures r < 0x1_0000 ==> EncodeRune(r) == [r as uint16]
    ensures r >= 0x1_0000 ==>
              && |EncodeRune(r)| == 2
              && 0xD800 <= EncodeRune(r)[0] as int < 0xDC00 <= EncodeRune(r)[1] as int < 0xE000
              && r == 0x1_0000 + (EncodeRune(r)[0] as int - 0xD800) * 0x400 + (EncodeRune(r)[1] as int - 0xDC00)
  {
  }

  /** Decoding a mark and the UTF-16 encoding of any text gives its UTF-8 encoding, in either
      byte order, unless the text is little-endian and starts with U+0000: then the mark and that
      first unit are skipped and the remaining bytes come back as they are. */
  lemma DecodeMarkedUtf16(rs: seq<Rune>, order: Order)
    ensures Decoded(Mark(order) + Bytes(EncodeUtf16(rs), order))
            == if order == LittleEndian && rs != [] && rs[0] == 0 then Bytes(EncodeUtf16(rs[1..]), order)
               else EncodeUtf8(rs)
  {
    hide Bytes, UnitBytes, Detect, EncodeUtf8, DecodeUtf16, Units;
    var us := EncodeUtf16(rs);
    var b := Mark(order) + Bytes(us, order);
    DetectMarked(rs, order);
    assert b[2..] == Bytes(us, order);
    if order == LittleEndian && rs != [] && rs[0] == 0 {
      assert us == [0] + EncodeUtf16(rs[1..]);
      assert us[1..] == EncodeUtf16(rs[1..]);
      BytesSplit(us, order);
      assert b[4..] == b[2..][2..];
    } else {
      UnitsOfBytes(us, order);
      Utf16RoundTrip(rs);
    }
  }
}
