/** Little-endian bytes of an integer, least significant first; negative integers in two's complement. */
module LittleEndian {
  import opened Prelude

  function Pow256(n: nat): (p: nat)
    ensures p > 0
  {
    if n == 0 then 1 else 256 * Pow256(n - 1)
  }

  lemma {:induction false} Pow256Add(a: nat, b: nat)
    ensures Pow256(a + b) == Pow256(a) * Pow256(b)
  {
    if a > 0 {
      Pow256Add(a - 1, b);
      assert 256 * (Pow256(a - 1) * Pow256(b)) == Pow256(a) * Pow256(b);
    }
  }

  lemma FourBytePower()
    ensures Pow256(4) == 0x1_0000_0000
  {
  }

  function ToByte(v: int): byte {
    v % 256
  }

  /** The low `n` bytes of `v`. */
  function LowBytes(v: int, n: nat): (b: seq<byte>)
    ensures |b| == n
    decreases n, v
  {
    if n == 0 then [] else [ToByte(v)] + LowBytes(v / 256, n - 1)
  }

  /** The number that the bytes spell. */
  function NumberOf(b: seq<byte>): nat {
    if b == [] then 0 else b[0] + 256 * NumberOf(b[1..])
  }

  lemma {:induction false} NumberOfBound(b: seq<byte>)
    ensures NumberOf(b) < Pow256(|b|)
  {
    if b == [] {
    } else {
      NumberOfBound(b[1..]);
    }
  }

  lemma ProductGrows(d: int, k: int)
    requires d > 0
    ensures k >= 1 ==> d * k >= d
    ensures k <= -1 ==> d * k <= -d
  {
    if k >= 1 {
      assert d * k >= d * 1;
    } else if k <= -1 {
      assert d * k <= d * -1;
    }
  }

  lemma UniqueRemainder(v: int, d: nat, q: int, r: int)
    requires d > 0 && v == d * q + r && 0 <= r < d
    ensures v % d == r && v / d == q
  {
    var q', r' := v / d, v % d;
    assert v == d * q' + r';
    assert d * (q - q') == d * q - d * q';
    ProductGrows(d, q - q');
  }

  lemma DivModStep(v: int, p: nat)
    requires p > 0
    ensures v % (256 * p) == v % 256 + 256 * (v / 256 % p)
  {
    var h := v / 256;
    var q, r := h / p, h % p;
    assert h == p * q + r;
    assert v == v % 256 + 256 * (p * q + r);
    assert 256 * (p * q) == (256 * p) * q;
    UniqueRemainder(v, 256 * p, q, v % 256 + 256 * r);
  }

  /** Reading back the low bytes gives the integer modulo the width. */
  lemma {:induction false} NumberOfLowBytes(v: int, n: nat)
    ensures NumberOf(LowBytes(v, n)) == v % Pow256(n)
    decreases n
  {
    if n == 0 {
    } else {
      NumberOfLowBytes(v / 256, n - 1);
      DivModStep(v, Pow256(n - 1));
      assert LowBytes(v, n)[1..] == LowBytes(v / 256, n - 1);
    }
  }

  /** A full-width byte string is the encoding of the number it spells. */
  lemma {:induction false} LowBytesOfNumber(b: seq<byte>)
    ensures LowBytes(NumberOf(b), |b|) == b
  {
    if b == [] {
    } else {
      LowBytesOfNumber(b[1..]);
      UniqueRemainder(NumberOf(b), 256, NumberOf(b[1..]), b[0]);
    }
  }

  lemma NumberOfOne(b: seq<byte>)
    requires |b| == 1
    ensures NumberOf(b) == b[0]
  {
    assert b[1..] == [];
  }

  lemma NumberOfTwo(b: seq<byte>)
    requires |b| == 2
    ensures NumberOf(b) == (b[0] as nat) + 256 * (b[1] as nat)
  {
    NumberOfOne(b[1..]);
  }

  lemma NumberOfFour(b: seq<byte>)
    requires |b| == 4
    ensures NumberOf(b) == (b[0] as nat) + 256 * (b[1] as nat) + 65536 * (b[2] as nat) + 16777216 * (b[3] as nat)
  {
    NumberOfTwo(b[2..]);
    assert b[1..][1..] == b[2..];
  }
}
