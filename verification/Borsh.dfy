/** Little-endian integers of account data and instructions (src/codec/borsh.ts, and the byte helpers of
    src/system-instructions/system-instructions.ts). */
module Borsh {
  import opened Prelude
  import opened LittleEndian

  datatype BorshError = OutOfRange

  // ---------- the reference: an integer type is a width and a sign ----------

  datatype IntType = IntType(width: nat, signed: bool)
  {
    function Modulus(): nat {
      Pow256(width)
    }

    function Min(): int {
      if signed then -(Modulus() / 2) else 0
    }

    function Max(): int {
      Min() + Modulus() - 1
    }

    predicate Holds(v: int) {
      Min() <= v <= Max()
    }
  }

  const U16 := IntType(2, false)
  const U32 := IntType(4, false)
  const U64 := IntType(8, false)
  const U128 := IntType(16, false)
  const I32 := IntType(4, true)
  const I64 := IntType(8, true)
  const I128 := IntType(16, true)

  lemma WideRanges()
    ensures U64.Modulus() == 0x1_0000_0000_0000_0000 && U128.Modulus() == 0x1_0000_0000_0000_0000_0000_0000_0000_0000
  {
    assert Pow256(8) == 0x1_0000_0000_0000_0000;
    Pow256Add(8, 8);
  }

  function Encoded(t: IntType, v: int): Result<seq<byte>, BorshError> {
    if t.Holds(v) then Ok(LowBytes(v, t.width)) else Err(OutOfRange)
  }

  /** A byte of the data, 0 outside it. */
  function ByteOrZero(data: seq<byte>, i: int): byte {
    if 0 <= i < |data| then data[i] else 0
  }

  /** The `n` bytes from `offset` on, as the decoders see them. */
  function Window(data: seq<byte>, offset: int, n: nat): (w: seq<byte>)
    ensures |w| == n
    decreases n
  {
    if n == 0 then [] else [ByteOrZero(data, offset)] + Window(data, offset + 1, n - 1)
  }

  lemma {:induction false} WindowAt(data: seq<byte>, offset: int, n: nat, i: nat)
    requires i < n
    ensures Window(data, offset, n)[i] == ByteOrZero(data, offset + i)
    decreases i
  {
    if i > 0 {
      WindowAt(data, offset + 1, n - 1, i - 1);
    }
  }

  /** The value in the type's range that is congruent to `u`. */
  function Wrapped(t: IntType, u: nat): int {
    if u > t.Max() then u - t.Modulus() else u
  }

  function Decoded(t: IntType, data: seq<byte>, offset: int): int {
    Wrapped(t, NumberOf(Window(data, offset, t.width)))
  }

  // ---------- the code: shared loops ----------

  method UnsignedLE(value: int, bytes: nat) returns (out: array<byte>)
    ensures fresh(out) && out[..] == LowBytes(value, bytes)
  {
    out := new byte[bytes](i => 0);
    var v := value;
    for i := 0 to bytes
      invariant out[..i] + LowBytes(v, bytes - i) == LowBytes(value, bytes)
    {
      ghost var before := out[..i];
      out[i] := ToByte(v);
      assert out[..i + 1] == before + [ToByte(v)];
      v := v / 256;
    }
    assert out[..bytes] == out[..];
  }

  method UnsignedAt(data: seq<byte>, offset: int, bytes: nat) returns (value: nat)
    ensures value == NumberOf(Window(data, offset, bytes))
  {
    value := 0;
    var i := bytes;
    ghost var w := Window(data, offset, bytes);
    while i > 0
      invariant 0 <= i <= bytes
      invariant value == NumberOf(w[i..])
    {
      i := i - 1;
      value := 256 * value + ByteOrZero(data, offset + i);
      assert w[i..][1..] == w[i + 1..];
      WindowAt(data, offset, bytes, i);
    }
    assert w[0..] == w;
  }

  // ---------- the code: numbers ----------

  /** A JavaScript number is an integer in the given range. */
  predicate IntegerBetween(value: real, min: int, max: int) {
    value == value.Floor as real && min as real <= value <= max as real
  }

  function FourBytes(v: int): seq<byte> {
    [ToByte(v), ToByte(v / 256), ToByte(v / 65536), ToByte(v / 16777216)]
  }

  function EncodeU16LE(value: real): Result<seq<byte>, BorshError> {
    if !IntegerBetween(value, 0, 0xffff) then Err(OutOfRange)
    else Ok([ToByte(value.Floor), ToByte(value.Floor / 256)])
  }

  function EncodeU32LE(value: real): Result<seq<byte>, BorshError> {
    if !IntegerBetween(value, 0, 0xffff_ffff) then Err(OutOfRange) else Ok(FourBytes(value.Floor))
  }

  /** `>>` keeps the sign, so the shifts of a negative number round down. */
  function EncodeI32LE(value: real): Result<seq<byte>, BorshError> {
    if !IntegerBetween(value, -0x8000_0000, 0x7fff_ffff) then Err(OutOfRange) else Ok(FourBytes(value.Floor))
  }

  /** The disjoint `|` of four shifted bytes, unsigned. */
  function FourBytesAt(data: seq<byte>, offset: int): nat {
    (ByteOrZero(data, offset) as nat) + 256 * (ByteOrZero(data, offset + 1) as nat)
    + 65536 * (ByteOrZero(data, offset + 2) as nat) + 16777216 * (ByteOrZero(data, offset + 3) as nat)
  }

  function DecodeU16LE(data: seq<byte>, offset: int): int {
    (ByteOrZero(data, offset) as nat) + 256 * (ByteOrZero(data, offset + 1) as nat)
  }

  function DecodeU32LE(data: seq<byte>, offset: int): int {
    FourBytesAt(data, offset)
  }

  /** Without the unsigned shift the top bit is the sign. */
  function DecodeI32LE(data: seq<byte>, offset: int): int {
    var u := FourBytesAt(data, offset);
    if u >= 0x8000_0000 then u - 0x1_0000_0000 else u
  }

  // ---------- the code: bigints ----------

  method EncodeU64LE(value: int) returns (r: Result<seq<byte>, BorshError>)
    ensures r == Encoded(U64, value)
  {
    hide Pow256, LowBytes, NumberOf, Window;
    WideRanges();
    if value < 0 || value > 0xffff_ffff_ffff_ffff { return Err(OutOfRange); }
    var out := UnsignedLE(value, 8);
    return Ok(out[..]);
  }

  method EncodeU128LE(value: int) returns (r: Result<seq<byte>, BorshError>)
    ensures r == Encoded(U128, value)
  {
    hide Pow256, LowBytes, NumberOf, Window;
    WideRanges();
    if value < 0 || value > 0xffff_ffff_ffff_ffff_ffff_ffff_ffff_ffff { return Err(OutOfRange); }
    var out := UnsignedLE(value, 16);
    return Ok(out[..]);
  }

  method EncodeI64LE(value: int) returns (r: Result<seq<byte>, BorshError>)
    ensures r == Encoded(I64, value)
  {
    hide Pow256, LowBytes, NumberOf, Window;
    WideRanges();
    if value < -0x8000_0000_0000_0000 || value > 0x7fff_ffff_ffff_ffff { return Err(OutOfRange); }
    var out := UnsignedLE(if value < 0 then value + 0x1_0000_0000_0000_0000 else value, 8);
    LowBytesPeriodic(value, 1, 8);
    return Ok(out[..]);
  }

  method EncodeI128LE(value: int) returns (r: Result<seq<byte>, BorshError>)
    ensures r == Encoded(I128, value)
  {
    hide Pow256, LowBytes, NumberOf, Window;
    WideRanges();
    if value < -0x8000_0000_0000_0000_0000_0000_0000_0000 || value > 0x7fff_ffff_ffff_ffff_ffff_ffff_ffff_ffff {
      return Err(OutOfRange);
    }
    var out := UnsignedLE(if value < 0 then value + 0x1_0000_0000_0000_0000_0000_0000_0000_0000 else value, 16);
    LowBytesPeriodic(value, 1, 16);
    return Ok(out[..]);
  }

  method DecodeU64LE(data: seq<byte>, offset: int) returns (value: int)
    ensures value == Decoded(U64, data, offset)
  {
    hide Pow256, LowBytes, NumberOf, Window;
    WideRanges();
    NumberOfBound(Window(data, offset, 8));
    value := UnsignedAt(data, offset, 8);
  }

  method DecodeU128LE(data: seq<byte>, offset: int) returns (value: int)
    ensures value == Decoded(U128, data, offset)
  {
    hide Pow256, LowBytes, NumberOf, Window;
    WideRanges();
    NumberOfBound(Window(data, offset, 16));
    value := UnsignedAt(data, offset, 16);
  }

  method DecodeI64LE(data: seq<byte>, offset: int) returns (value: int)
    ensures value == Decoded(I64, data, offset)
  {
    hide Pow256, LowBytes, NumberOf, Window;
    WideRanges();
    value := UnsignedAt(data, offset, 8);
    if value >= 0x8000_0000_0000_0000 {
      value := value - 0x1_0000_0000_0000_0000;
    }
  }

  method DecodeI128LE(data: seq<byte>, offset: int) returns (value: int)
    ensures value == Decoded(I128, data, offset)
  {
    hide Pow256, LowBytes, NumberOf, Window;
    WideRanges();
    value := UnsignedAt(data, offset, 16);
    if value >= 0x8000_0000_0000_0000_0000_0000_0000_0000 {
      value := value - 0x1_0000_0000_0000_0000_0000_0000_0000_0000;
    }
  }

  /** Adding a multiple of the modulus does not change the low bytes. */
  lemma {:induction false} LowBytesPeriodic(v: int, k: int, n: nat)
    ensures LowBytes(v + k * Pow256(n), n) == LowBytes(v, n)
    decreases n
  {
    if n > 0 {
      PeriodStep(v, k, Pow256(n - 1));
      LowBytesPeriodic(v / 256, k, n - 1);
    }
  }

  lemma PeriodStep(v: int, k: int, p: nat)
    ensures (v + k * (256 * p)) / 256 == v / 256 + k * p && (v + k * (256 * p)) % 256 == v % 256
  {
    assert k * (256 * p) == 256 * (k * p);
    UniqueRemainder(v + k * (256 * p), 256, v / 256 + k * p, v % 256);
  }

  // ---------- the number codecs are the reference ones ----------

  lemma LowBytesOfTwo(v: int)
    ensures LowBytes(v, 2) == [ToByte(v), ToByte(v / 256)]
  {
  }

  lemma LowBytesOfFour(v: int)
    ensures LowBytes(v, 4) == FourBytes(v)
  {
    hide ToByte;
    LowBytesOfTwo(v / 65536);
    DivideTwice(v, 256);
    DivideTwice(v / 256, 256);
    DivideTwice(v, 65536);
    LowBytesTail(v, 3);
    LowBytesTail(v / 256, 2);
  }

  lemma LowBytesTail(v: int, n: nat)
    ensures LowBytes(v, n + 1) == [ToByte(v)] + LowBytes(v / 256, n)
  {
  }

  /** The encoders of numbers accept exactly the integers of their type and write its reference bytes. */
  lemma NumberEncoders(value: real)
    ensures EncodeU16LE(value) == if value == value.Floor as real then Encoded(U16, value.Floor) else Err(OutOfRange)
    ensures EncodeU32LE(value) == if value == value.Floor as real then Encoded(U32, value.Floor) else Err(OutOfRange)
    ensures EncodeI32LE(value) == if value == value.Floor as real then Encoded(I32, value.Floor) else Err(OutOfRange)
  {
    hide LowBytes;
    LowBytesOfTwo(value.Floor);
    LowBytesOfFour(value.Floor);
  }

  lemma NumberDecoders(data: seq<byte>, offset: int)
    ensures DecodeU16LE(data, offset) == Decoded(U16, data, offset)
    ensures DecodeU32LE(data, offset) == Decoded(U32, data, offset)
    ensures DecodeI32LE(data, offset) == Decoded(I32, data, offset)
  {
    hide NumberOf, Window;
    NumberOfTwo(Window(data, offset, 2));
    NumberOfFour(Window(data, offset, 4));
    WindowAt(data, offset, 2, 0);
    WindowAt(data, offset, 2, 1);
    WindowAt(data, offset, 4, 0);
    WindowAt(data, offset, 4, 1);
    WindowAt(data, offset, 4, 2);
    WindowAt(data, offset, 4, 3);
  }

  // ---------- main results, for every integer type ----------

  lemma WindowOfPart(prefix: seq<byte>, part: seq<byte>, suffix: seq<byte>)
    ensures Window(prefix + part + suffix, |prefix|, |part|) == part
  {
    var all := prefix + part + suffix;
    forall i | 0 <= i < |part| ensures Window(all, |prefix|, |part|)[i] == part[i] {
      WindowAt(all, |prefix|, |part|, i);
      assert all[|prefix| + i] == part[i];
    }
  }

  /** Decoding gives back every encodable value, at any offset inside any buffer. */
  lemma DecodeUndoesEncode(t: IntType, v: int, prefix: seq<byte>, suffix: seq<byte>)
    requires t.Holds(v)
    ensures Encoded(t, v).Ok? && Decoded(t, prefix + Encoded(t, v).value + suffix, |prefix|) == v
  {
    hide LowBytes, NumberOf, Window;
    var m := t.Modulus();
    WindowOfPart(prefix, LowBytes(v, t.width), suffix);
    NumberOfLowBytes(v, t.width);
    if v >= 0 {
      UniqueRemainder(v, m, 0, v);
    } else {
      UniqueRemainder(v, m, -1, v + m);
    }
  }

  lemma DecodedInRange(t: IntType, data: seq<byte>, offset: int)
    ensures t.Holds(Decoded(t, data, offset))
  {
    hide NumberOf, Window;
    NumberOfBound(Window(data, offset, t.width));
  }

  /** Encoding a decoded value gives back the bytes it was read from, missing bytes as zeros. */
  lemma EncodeUndoesDecode(t: IntType, data: seq<byte>, offset: int)
    ensures Encoded(t, Decoded(t, data, offset)) == Ok(Window(data, offset, t.width))
  {
    hide LowBytes, NumberOf, Window;
    var w := Window(data, offset, t.width);
    var u := NumberOf(w);
    DecodedInRange(t, data, offset);
    LowBytesOfNumber(w);
    LowBytesPeriodic(u, -1, t.width);
  }

  lemma FullWindow(data: seq<byte>, offset: nat, n: nat)
    requires offset + n <= |data|
    ensures Window(data, offset, n) == data[offset..offset + n]
  {
    forall i | 0 <= i < n ensures Window(data, offset, n)[i] == data[offset..offset + n][i] {
      WindowAt(data, offset, n, i);
    }
  }

  /** On a full-width slice the two are inverse, so no two byte strings spell the same value. */
  lemma EncodeUndoesDecodeInside(t: IntType, data: seq<byte>, offset: nat)
    requires offset + t.width <= |data|
    ensures Encoded(t, Decoded(t, data, offset)) == Ok(data[offset..offset + t.width])
  {
    hide Encoded, Decoded;
    EncodeUndoesDecode(t, data, offset);
    FullWindow(data, offset, t.width);
  }

  /** Short data reads as if padded with zeros. */
  lemma ShortDataReadsAsPadded(t: IntType, data: seq<byte>, offset: int, zeros: seq<byte>)
    requires forall i :: 0 <= i < |zeros| ==> zeros[i] == 0
    ensures Decoded(t, data, offset) == Decoded(t, data + zeros, offset)
  {
    hide NumberOf, Wrapped;
    forall i | 0 <= i < t.width ensures Window(data, offset, t.width)[i] == Window(data + zeros, offset, t.width)[i] {
      WindowAt(data, offset, t.width, i);
      WindowAt(data + zeros, offset, t.width, i);
    }
    assert Window(data, offset, t.width) == Window(data + zeros, offset, t.width);
  }

  /** Bytes before the data read as zeros, too. */
  lemma NegativeOffsetReadsAsPadded(t: IntType, data: seq<byte>, offset: int, zeros: seq<byte>)
    requires forall i :: 0 <= i < |zeros| ==> zeros[i] == 0
    ensures Decoded(t, data, offset) == Decoded(t, zeros + data, offset + |zeros|)
  {
    hide NumberOf, Wrapped;
    var shifted := Window(zeros + data, offset + |zeros|, t.width);
    forall i | 0 <= i < t.width ensures Window(data, offset, t.width)[i] == shifted[i] {
      WindowAt(data, offset, t.width, i);
      WindowAt(zeros + data, offset + |zeros|, t.width, i);
    }
    assert Window(data, offset, t.width) == shifted;
  }

  // ---------- the types and their bytes, in numbers ----------

  /** The ranges of the seven types. */
  lemma IntegerRanges()
    ensures U16.Min() == 0 && U16.Max() == 65535 && U16.width == 2
    ensures U32.Min() == 0 && U32.Max() == 4294967295 && U32.width == 4
    ensures I32.Min() == -2147483648 && I32.Max() == 2147483647 && I32.width == 4
    ensures U64.Min() == 0 && U64.Max() == 18446744073709551615 && U64.width == 8
    ensures I64.Min() == -9223372036854775808 && I64.Max() == 9223372036854775807 && I64.width == 8
    ensures U128.Min() == 0 && U128.Max() == 340282366920938463463374607431768211455 && U128.width == 16
    ensures I128.Min() == -170141183460469231731687303715884105728 && I128.width == 16
    ensures I128.Max() == 170141183460469231731687303715884105727
  {
    hide Pow256;
    TwoBytePower();
    FourBytePower();
    WideRanges();
  }

  lemma TwoBytePower()
    ensures Pow256(2) == 65536
  {
  }

  /** The bytes of a value: as many as the type is wide, spelling the value, a negative one plus the modulus; a value
      outside the range has none. */
  lemma EncodedMeaning(t: IntType, v: int)
    ensures Encoded(t, v).Ok? <==> t.Min() <= v <= t.Max()
    ensures Encoded(t, v).Ok? ==>
      && |Encoded(t, v).value| == t.width
      && NumberOf(Encoded(t, v).value) == if v >= 0 then v else v + Pow256(t.width)
  {
    hide LowBytes, NumberOf, Pow256;
    NumberOfLowBytes(v, t.width);
    if t.Holds(v) {
      if v >= 0 {
        UniqueRemainder(v, Pow256(t.width), 0, v);
      } else {
        UniqueRemainder(v, Pow256(t.width), -1, v + Pow256(t.width));
      }
    }
  }

  /** The value of bytes: the one in the range of the type that is their number, or their number less the modulus. */
  lemma DecodedMeaning(t: IntType, data: seq<byte>, offset: nat)
    requires offset + t.width <= |data|
    ensures var v := Decoded(t, data, offset);
            && t.Min() <= v <= t.Max()
            && NumberOf(data[offset..offset + t.width]) == if v >= 0 then v else v + Pow256(t.width)
  {
    hide NumberOf, Window, Pow256;
    FullWindow(data, offset, t.width);
    NumberOfBound(Window(data, offset, t.width));
  }

  // ---------- the DataView helper of the instruction builders ----------

  function U64ToLeBytes(num: int): seq<byte> {
    LowBytes(num % 0x1_0000_0000, 4) + LowBytes(num / 0x1_0000_0000 % 0x1_0000_0000, 4)
  }

  lemma {:induction false} LowBytesSplit(v: int, n: nat, m: nat)
    ensures LowBytes(v, n + m) == LowBytes(v % Pow256(n), n) + LowBytes(v / Pow256(n), m)
    decreases n
  {
    if n > 0 {
      var p := Pow256(n - 1);
      var h := v / 256;
      DivModStep(v, p);
      var w := v % Pow256(n);
      assert w == v % 256 + 256 * (h % p);
      assert w / 256 == h % p && w % 256 == v % 256;
      LowBytesSplit(h, n - 1, m);
      DivideTwice(v, p);
    } else {
      assert LowBytes(v % 1, 0) == [];
    }
  }

  lemma DivideTwice(v: int, p: nat)
    requires p > 0
    ensures v / 256 / p == v / (256 * p)
  {
    var q, r := v / 256 / p, v / 256 % p;
    assert v / 256 == p * q + r;
    assert v == 256 * (p * q) + (256 * r + v % 256);
    assert 256 * (p * q) == (256 * p) * q;
    UniqueRemainder(v, 256 * p, q, 256 * r + v % 256);
  }

  /** The helper writes the low eight bytes of any integer; unlike the checked encoder it never refuses, and the two
      agree exactly on the range of u64. */
  lemma U64ToLeBytesMeaning(num: int)
    ensures U64ToLeBytes(num) == LowBytes(num, 8)
    ensures Encoded(U64, num) == Ok(U64ToLeBytes(num)) <==> 0 <= num < 0x1_0000_0000_0000_0000
    ensures NumberOf(U64ToLeBytes(num)) == num % 0x1_0000_0000_0000_0000
  {
    hide LowBytes, NumberOf, Pow256;
    FourBytePower();
    WideRanges();
    var h := num / 0x1_0000_0000;
    LowBytesSplit(num, 4, 4);
    LowBytesPeriodic(h % 0x1_0000_0000, h / 0x1_0000_0000, 4);
    NumberOfLowBytes(num, 8);
  }
}
