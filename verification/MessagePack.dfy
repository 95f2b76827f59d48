/** The part of the MessagePack format ("Formats" of the MessagePack specification) that hub frames and
    Redis messages use. A reader is the sequence of bytes still to be read. */
module MessagePack {
  import opened Prelude

  /** The result of one read: a value and the bytes behind it, or the exception the reader throws. */
  datatype Read<+T> = Fail | Got(value: T, rest: bytes)

  // ----- big-endian numbers

  function Pow256(k: nat): (p: nat)
    ensures p > 0
  {
    if k == 0 then 1 else 256 * Pow256(k - 1)
  }

  lemma Pow256Values()
    ensures Pow256(1) == 0x100 && Pow256(2) == 0x1_0000 && Pow256(4) == 0x1_0000_0000
    ensures Pow256(8) == 0x1_0000_0000_0000_0000
  {
    assert Pow256(3) == 0x100_0000;
    assert Pow256(5) == 0x100_0000_0000;
    assert Pow256(6) == 0x1_0000_0000_0000;
    assert Pow256(7) == 0x100_0000_0000_0000;
  }

  function BigEndian(n: nat, k: nat): (r: bytes)
    requires n < Pow256(k)
    ensures |r| == k
  {
    if k == 0 then [] else BigEndian(n / 256, k - 1) + [n % 256]
  }

  function FromBigEndian(b: bytes): (n: nat)
    ensures n < Pow256(|b|)
  {
    if b == [] then 0 else FromBigEndian(b[..|b| - 1]) * 256 + b[|b| - 1]
  }

  lemma {:induction false} BigEndianRoundTrip(n: nat, k: nat)
    requires n < Pow256(k)
    ensures FromBigEndian(BigEndian(n, k)) == n
  {
    if k > 0 {
      BigEndianRoundTrip(n / 256, k - 1);
      assert BigEndian(n, k)[..k - 1] == BigEndian(n / 256, k - 1);
    }
  }

  lemma {:induction false} FromBigEndianRoundTrip(b: bytes)
    ensures BigEndian(FromBigEndian(b), |b|) == b
  {
    if b != [] {
      FromBigEndianRoundTrip(b[..|b| - 1]);
    }
  }

  // ----- integers

  /** The ten integer families of the format. */
  datatype IntFormat =
    | PositiveFixInt | NegativeFixInt
    | UInt8 | UInt16 | UInt32 | UInt64
    | Int8 | Int16 | Int32 | Int64

  function Width(f: IntFormat): nat {
    match f
    case PositiveFixInt => 0
    case NegativeFixInt => 0
    case UInt8 => 1
    case UInt16 => 2
    case UInt32 => 4
    case UInt64 => 8
    case Int8 => 1
    case Int16 => 2
    case Int32 => 4
    case Int64 => 8
  }

  function IntCode(f: IntFormat): byte {
    match f
    case PositiveFixInt => 0x00
    case NegativeFixInt => 0xe0
    case UInt8 => 0xcc
    case UInt16 => 0xcd
    case UInt32 => 0xce
    case UInt64 => 0xcf
    case Int8 => 0xd0
    case Int16 => 0xd1
    case Int32 => 0xd2
    case Int64 => 0xd3
  }

  predicate IsSigned(f: IntFormat) {
    f.Int8? || f.Int16? || f.Int32? || f.Int64?
  }

  predicate Fits(f: IntFormat, v: int) {
    if f.PositiveFixInt? then 0 <= v <= 127
    else if f.NegativeFixInt? then -32 <= v < 0
    else if IsSigned(f) then 0 <= 2 * v + Pow256(Width(f)) && 2 * v < Pow256(Width(f))
    else 0 <= v < Pow256(Width(f))
  }

  function EncodeIntAs(f: IntFormat, v: int): bytes
    requires Fits(f, v)
  {
    if f.PositiveFixInt? then [v]
    else if f.NegativeFixInt? then [256 + v]
    else [IntCode(f)] + BigEndian(if v < 0 then v + Pow256(Width(f)) else v, Width(f))
  }

  /** The family a leading byte announces. */
  function IntFormatOf(c: byte): Option<IntFormat> {
    if c < 0x80 then Some(PositiveFixInt)
    else if c >= 0xe0 then Some(NegativeFixInt)
    else if c == 0xcc then Some(UInt8)
    else if c == 0xcd then Some(UInt16)
    else if c == 0xce then Some(UInt32)
    else if c == 0xcf then Some(UInt64)
    else if c == 0xd0 then Some(Int8)
    else if c == 0xd1 then Some(Int16)
    else if c == 0xd2 then Some(Int32)
    else if c == 0xd3 then Some(Int64)
    else None
  }

  function ReadInteger(b: bytes): Read<int> {
    if b == [] then Fail
    else
      match IntFormatOf(b[0])
      case None => Fail
      case Some(f) =>
        if f.PositiveFixInt? then Got(b[0], b[1..])
        else if f.NegativeFixInt? then Got(b[0] as int - 256, b[1..])
        else if |b| < 1 + Width(f) then Fail
        else
          var raw := FromBigEndian(b[1..1 + Width(f)]);
          var v := if IsSigned(f) && 2 * raw >= Pow256(Width(f)) then raw - Pow256(Width(f)) else raw;
          Got(v, b[1 + Width(f)..])
  }

  /** `MessagePackReader.ReadInt32`: any family, provided that the value is an Int32. */
  function ReadInt32(b: bytes): Read<int> {
    var r := ReadInteger(b);
    if r.Got? && IsInt32(r.value) then r else Fail
  }

  /** The family `MessagePackWriter.Write(int)` picks: the shortest one. */
  function ShortestInt(v: int): (f: IntFormat)
    requires IsInt32(v)
    ensures Fits(f, v)
  {
    Pow256Values();
    if v >= 0 then
      if v <= 0x7f then PositiveFixInt else if v <= 0xff then UInt8 else if v <= 0xffff then UInt16 else UInt32
    else
      if v >= -32 then NegativeFixInt else if v >= -0x80 then Int8 else if v >= -0x8000 then Int16 else Int32
  }

  lemma Int32Fits(v: int)
    requires IsInt32(v)
    ensures Fits(Int32, v)
  {
    Pow256Values();
  }

  /** `MessagePackWriter.Write(int)`. */
  function WriteInt(v: int): bytes
    requires IsInt32(v)
  {
    EncodeIntAs(ShortestInt(v), v)
  }

  /** `MessagePackWriter.WriteInt32`: always the five-byte family. */
  function WriteInt32(v: int): bytes
    requires IsInt32(v)
  {
    Int32Fits(v);
    EncodeIntAs(Int32, v)
  }

  /** A value fits its family: the unsigned number written for it, and back. */
  lemma RawRoundTrip(f: IntFormat, v: int)
    requires Fits(f, v) && Width(f) > 0
    ensures var p := Pow256(Width(f));
            var raw := if v < 0 then v + p else v;
            0 <= raw < p && (if IsSigned(f) && 2 * raw >= p then raw - p else raw) == v
  {
  }

  lemma IntFormatOfCode(f: IntFormat, v: int, rest: bytes)
    requires Fits(f, v)
    ensures IntFormatOf((EncodeIntAs(f, v) + rest)[0]) == Some(f)
  {
  }

  lemma ReadIntegerAny(f: IntFormat, v: int, rest: bytes)
    requires Fits(f, v)
    ensures ReadInteger(EncodeIntAs(f, v) + rest) == Got(v, rest)
  {
    var b := EncodeIntAs(f, v) + rest;
    var w := Width(f);
    IntFormatOfCode(f, v, rest);
    if w == 0 {
      assert b[1..] == rest;
    } else {
      RawRoundTrip(f, v);
      var raw := if v < 0 then v + Pow256(w) else v;
      BigEndianRoundTrip(raw, w);
      HeadBodyRest(IntCode(f), BigEndian(raw, w), rest);
      assert FromBigEndian(b[1..1 + w]) == raw && b[1 + w..] == rest;
    }
  }

  lemma HeadBodyRest(head: byte, body: bytes, rest: bytes)
    ensures var b := [head] + body + rest; b[1..1 + |body|] == body && b[1 + |body|..] == rest
  {
  }

  /** Every legal encoding of an Int32 is read back, and exactly its bytes are consumed. */
  lemma ReadInt32Any(f: IntFormat, v: int, rest: bytes)
    requires IsInt32(v) && Fits(f, v)
    ensures ReadInt32(EncodeIntAs(f, v) + rest) == Got(v, rest)
  {
    ReadIntegerAny(f, v, rest);
  }

  /** The number read for a family fits it, and is written back as read. */
  lemma RawFits(f: IntFormat, raw: nat)
    requires Width(f) > 0 && raw < Pow256(Width(f))
    ensures var p := Pow256(Width(f));
            var v := if IsSigned(f) && 2 * raw >= p then raw - p else raw;
            Fits(f, v) && (if v < 0 then v + p else v) == raw
  {
  }

  lemma IntCodeOf(c: byte)
    requires IntFormatOf(c).Some?
    ensures var f := IntFormatOf(c).value;
            if f.PositiveFixInt? then c <= 127 else if f.NegativeFixInt? then c >= 0xe0 else Width(f) > 0 && c == IntCode(f)
  {
  }

  lemma ReadIntegerOnly(b: bytes) returns (f: IntFormat)
    requires ReadInteger(b).Got?
    ensures Fits(f, ReadInteger(b).value) && b == EncodeIntAs(f, ReadInteger(b).value) + ReadInteger(b).rest
  {
    f := IntFormatOf(b[0]).value;
    var w := Width(f);
    IntCodeOf(b[0]);
    if w == 0 {
      assert b == [b[0]] + b[1..];
    } else {
      var body := b[1..1 + w];
      RawFits(f, FromBigEndian(body));
      FromBigEndianRoundTrip(body);
      assert b == [b[0]] + body + b[1 + w..];
    }
  }

  /** Nothing but a legal encoding is accepted. */
  lemma ReadInt32Only(b: bytes) returns (f: IntFormat)
    requires ReadInt32(b).Got?
    ensures IsInt32(ReadInt32(b).value) && Fits(f, ReadInt32(b).value)
    ensures b == EncodeIntAs(f, ReadInt32(b).value) + ReadInt32(b).rest
  {
    f := ReadIntegerOnly(b);
  }

  // ----- lengths: array, string and binary headers

  datatype LengthFormat = FixLength | Length8 | Length16 | Length32

  datatype Family = ArrayFamily | StringFamily | BinaryFamily

  predicate LengthFits(k: Family, f: LengthFormat, n: nat) {
    match f
    case FixLength => if k.ArrayFamily? then n <= 15 else k.StringFamily? && n <= 31
    case Length8 => !k.ArrayFamily? && n < 0x100
    case Length16 => n < 0x1_0000
    case Length32 => n < 0x1_0000_0000
  }

  function LengthWidth(f: LengthFormat): nat {
    match f
    case FixLength => 0
    case Length8 => 1
    case Length16 => 2
    case Length32 => 4
  }

  function LengthCode(k: Family, f: LengthFormat): byte {
    match (k, f)
    case (ArrayFamily, FixLength) => 0x90
    case (ArrayFamily, Length16) => 0xdc
    case (ArrayFamily, _) => 0xdd
    case (StringFamily, FixLength) => 0xa0
    case (StringFamily, Length8) => 0xd9
    case (StringFamily, Length16) => 0xda
    case (StringFamily, Length32) => 0xdb
    case (BinaryFamily, Length8) => 0xc4
    case (BinaryFamily, Length16) => 0xc5
    case (BinaryFamily, _) => 0xc6
  }

  function EncodeLengthAs(k: Family, f: LengthFormat, n: nat): bytes
    requires LengthFits(k, f, n)
  {
    Pow256Values();
    if f.FixLength? then [LengthCode(k, f) + n]
    else [LengthCode(k, f)] + BigEndian(n, LengthWidth(f))
  }

  function LengthFormatOf(k: Family, c: byte): Option<LengthFormat> {
    match k
    case ArrayFamily =>
      if 0x90 <= c <= 0x9f then Some(FixLength) else if c == 0xdc then Some(Length16)
      else if c == 0xdd then Some(Length32) else None
    case StringFamily =>
      if 0xa0 <= c <= 0xbf then Some(FixLength) else if c == 0xd9 then Some(Length8)
      else if c == 0xda then Some(Length16) else if c == 0xdb then Some(Length32) else None
    case BinaryFamily =>
      if c == 0xc4 then Some(Length8) else if c == 0xc5 then Some(Length16)
      else if c == 0xc6 then Some(Length32) else None
  }

  function ReadLength(k: Family, b: bytes): Read<nat> {
    if b == [] then Fail
    else
      match LengthFormatOf(k, b[0])
      case None => Fail
      case Some(f) =>
        var w := LengthWidth(f);
        if f.FixLength? then Got(b[0] - LengthCode(k, f), b[1..])
        else if |b| < 1 + w then Fail
        else Got(FromBigEndian(b[1..1 + w]), b[1 + w..])
  }

  function ShortestLength(k: Family, n: nat): (f: LengthFormat)
    requires n < 0x1_0000_0000
    ensures LengthFits(k, f, n)
  {
    if LengthFits(k, FixLength, n) then FixLength
    else if LengthFits(k, Length8, n) then Length8
    else if n < 0x1_0000 then Length16
    else Length32
  }

  lemma ReadLengthAny(k: Family, f: LengthFormat, n: nat, rest: bytes)
    requires LengthFits(k, f, n)
    ensures ReadLength(k, EncodeLengthAs(k, f, n) + rest) == Got(n, rest)
  {
    Pow256Values();
    var b := EncodeLengthAs(k, f, n) + rest;
    var w := LengthWidth(f);
    assert LengthFormatOf(k, b[0]) == Some(f);
    if f.FixLength? {
      assert b[1..] == rest;
    } else {
      assert b[1..1 + w] == BigEndian(n, w);
      BigEndianRoundTrip(n, w);
      assert b[1 + w..] == rest;
    }
  }

  lemma ReadLengthOnly(k: Family, b: bytes) returns (f: LengthFormat)
    requires ReadLength(k, b).Got?
    ensures LengthFits(k, f, ReadLength(k, b).value)
    ensures b == EncodeLengthAs(k, f, ReadLength(k, b).value) + ReadLength(k, b).rest
  {
    Pow256Values();
    f := LengthFormatOf(k, b[0]).value;
    var w := LengthWidth(f);
    if f.FixLength? {
      assert b == [b[0]] + b[1..];
    } else {
      FromBigEndianRoundTrip(b[1..1 + w]);
      assert b == [b[0]] + b[1..1 + w] + b[1 + w..];
    }
  }

  // ----- headers and scalars as the writer emits them

  function WriteArrayHeader(n: nat): bytes
    requires n < 0x1_0000_0000
  {
    EncodeLengthAs(ArrayFamily, ShortestLength(ArrayFamily, n), n)
  }

  function ReadArrayHeader(b: bytes): Read<nat> {
    ReadLength(ArrayFamily, b)
  }

  lemma ReadArrayHeaderWritten(n: nat, rest: bytes)
    requires n < 0x1_0000_0000
    ensures ReadArrayHeader(WriteArrayHeader(n) + rest) == Got(n, rest)
  {
    ReadLengthAny(ArrayFamily, ShortestLength(ArrayFamily, n), n, rest);
  }

  const NIL: byte := 0xc0

  /** `MessagePackWriter.Write(string)`; a string is its UTF-8 content, `None` is null. */
  function WriteString(s: Option<bytes>): bytes
    requires s.Some? ==> IsLength(|s.value|)
  {
    match s
    case None => [NIL]
    case Some(v) => EncodeLengthAs(StringFamily, ShortestLength(StringFamily, |v|), |v|) + v
  }

  function ReadBlob(k: Family, b: bytes): Read<bytes> {
    match ReadLength(k, b)
    case Fail => Fail
    case Got(n, r) => if |r| < n then Fail else Got(r[..n], r[n..])
  }

  function ReadString(b: bytes): Read<Option<bytes>> {
    if b != [] && b[0] == NIL then Got(None, b[1..])
    else
      match ReadBlob(StringFamily, b)
      case Fail => Fail
      case Got(v, r) => Got(Some(v), r)
  }

  lemma ReadBlobAny(k: Family, f: LengthFormat, v: bytes, rest: bytes)
    requires LengthFits(k, f, |v|)
    ensures ReadBlob(k, EncodeLengthAs(k, f, |v|) + v + rest) == Got(v, rest)
  {
    assert EncodeLengthAs(k, f, |v|) + v + rest == EncodeLengthAs(k, f, |v|) + (v + rest);
    ReadLengthAny(k, f, |v|, v + rest);
  }

  /** A legal encoding of a string, in any of the string families, or of null. */
  ghost predicate IsStringEncoding(b: bytes, s: Option<bytes>) {
    match s
    case None => b == [NIL]
    case Some(v) => exists f :: LengthFits(StringFamily, f, |v|) && b == EncodeLengthAs(StringFamily, f, |v|) + v
  }

  /** Every legal encoding of a string or null is read back, and exactly its bytes are consumed. */
  lemma ReadStringAny(b: bytes, s: Option<bytes>, rest: bytes)
    requires IsStringEncoding(b, s)
    ensures ReadString(b + rest) == Got(s, rest)
  {
    match s
    case None =>
      assert (b + rest)[1..] == rest;
    case Some(v) =>
      var f :| LengthFits(StringFamily, f, |v|) && b == EncodeLengthAs(StringFamily, f, |v|) + v;
      ReadBlobAny(StringFamily, f, v, rest);
  }

  /** Nothing but a legal encoding is accepted. */
  lemma ReadStringOnly(b: bytes) returns (e: bytes)
    requires ReadString(b).Got?
    ensures IsStringEncoding(e, ReadString(b).value) && b == e + ReadString(b).rest
  {
    if b != [] && b[0] == NIL {
      e := [NIL];
      assert b == [b[0]] + b[1..];
    } else {
      var f := ReadLengthOnly(StringFamily, b);
      var n, r := ReadLength(StringFamily, b).value, ReadLength(StringFamily, b).rest;
      var head := EncodeLengthAs(StringFamily, f, n);
      e := head + r[..n];
      assert r == r[..n] + r[n..];
      assert b == head + (r[..n] + r[n..]) == e + r[n..];
    }
  }

  lemma WriteStringIsEncoding(s: Option<bytes>)
    requires s.Some? ==> IsLength(|s.value|)
    ensures IsStringEncoding(WriteString(s), s)
  {
    if s.Some? { assert LengthFits(StringFamily, ShortestLength(StringFamily, |s.value|), |s.value|); }
  }

  function WriteBoolean(v: bool): bytes {
    [if v then 0xc3 else 0xc2]
  }

  function ReadBoolean(b: bytes): Read<bool> {
    if b == [] then Fail
    else if b[0] == 0xc3 then Got(true, b[1..])
    else if b[0] == 0xc2 then Got(false, b[1..])
    else Fail
  }

  function WriteBinary(v: bytes): bytes
    requires IsLength(|v|)
  {
    EncodeLengthAs(BinaryFamily, ShortestLength(BinaryFamily, |v|), |v|) + v
  }

  function ReadBinary(b: bytes): Read<bytes> {
    ReadBlob(BinaryFamily, b)
  }

  lemma ReadBinaryWritten(v: bytes, rest: bytes)
    requires IsLength(|v|)
    ensures ReadBinary(WriteBinary(v) + rest) == Got(v, rest)
  {
    ReadBlobAny(BinaryFamily, ShortestLength(BinaryFamily, |v|), v, rest);
  }

  // ----- the bytes themselves

  lemma OneByte(n: nat)
    requires n < 0x100
    ensures n < Pow256(1) && BigEndian(n, 1) == [n]
  {
    Pow256Values();
    assert BigEndian(n, 1) == BigEndian(n / 256, 0) + [n % 256];
  }

  lemma TwoBytes(n: nat)
    requires n < 0x1_0000
    ensures n < Pow256(2) && BigEndian(n, 2) == [n / 0x100, n % 0x100]
  {
    Pow256Values();
    OneByte(n / 256);
    assert BigEndian(n, 2) == BigEndian(n / 256, 1) + [n % 256];
  }

  lemma FourBytes(n: nat)
    requires n < 0x1_0000_0000
    ensures n < Pow256(4)
    ensures BigEndian(n, 4) == [n / 0x100_0000, n / 0x1_0000 % 0x100, n / 0x100 % 0x100, n % 0x100]
  {
    Pow256Values();
    assert Pow256(3) == 0x100_0000;
    var m := n / 0x100;
    var k := m / 0x100;
    assert k == n / 0x1_0000 && k / 0x100 == n / 0x100_0000;
    TwoBytes(k);
    LastByte(m, 3);
    LastByte(n, 4);
  }

  lemma LastByte(n: nat, k: nat)
    requires k > 0 && n < Pow256(k)
    ensures BigEndian(n, k) == BigEndian(n / 256, k - 1) + [n % 256]
  {
  }

  /** How the format writes an integer in its shortest family, byte by byte, and in the five-byte one. */
  lemma WrittenIntegers(v: int)
    requires IsInt32(v)
    ensures 0 <= v < 0x80 ==> WriteInt(v) == [v]
    ensures 0x80 <= v < 0x100 ==> WriteInt(v) == [0xcc, v]
    ensures 0x100 <= v < 0x1_0000 ==> WriteInt(v) == [0xcd, v / 0x100, v % 0x100]
    ensures 0x1_0000 <= v ==> WriteInt(v) == [0xce, v / 0x100_0000, v / 0x1_0000 % 0x100, v / 0x100 % 0x100, v % 0x100]
    ensures -0x20 <= v < 0 ==> WriteInt(v) == [v + 0x100]
    ensures -0x80 <= v < -0x20 ==> WriteInt(v) == [0xd0, v + 0x100]
    ensures -0x8000 <= v < -0x80 ==> var n := v + 0x1_0000; WriteInt(v) == [0xd1, n / 0x100, n % 0x100]
    ensures v < -0x8000 ==> WriteInt(v) == WriteInt32(v)
    ensures var n := if v < 0 then v + 0x1_0000_0000 else v;
            WriteInt32(v) == [0xd2, n / 0x100_0000, n / 0x1_0000 % 0x100, n / 0x100 % 0x100, n % 0x100]
  {
    Pow256Values();
    FourBytes(if v < 0 then v + 0x1_0000_0000 else v);
    if 0 <= v < 0x100 { OneByte(v); }
    if 0 <= v < 0x1_0000 { TwoBytes(v); }
    if -0x8000 <= v < 0 { TwoBytes(v + 0x1_0000); }
    if -0x80 <= v < 0 { OneByte(v + 0x100); }
  }

  /** The same for what goes before an array, a string and binary data. */
  lemma WrittenLengths(n: nat)
    requires IsLength(n)
    ensures var two, four := [n / 0x100 % 0x100, n % 0x100], [n / 0x100_0000, n / 0x1_0000 % 0x100, n / 0x100 % 0x100, n % 0x100];
            && WriteArrayHeader(n) == (if n < 0x10 then [0x90 + n] else if n < 0x1_0000 then [0xdc] + two else [0xdd] + four)
            && EncodeLengthAs(StringFamily, ShortestLength(StringFamily, n), n)
               == (if n < 0x20 then [0xa0 + n] else if n < 0x100 then [0xd9, n] else if n < 0x1_0000 then [0xda] + two else [0xdb] + four)
            && EncodeLengthAs(BinaryFamily, ShortestLength(BinaryFamily, n), n)
               == (if n < 0x100 then [0xc4, n] else if n < 0x1_0000 then [0xc5] + two else [0xc6] + four)
  {
    Pow256Values();
    FourBytes(n);
    if n < 0x1_0000 { TwoBytes(n); }
    if n < 0x100 { OneByte(n); }
  }
}
