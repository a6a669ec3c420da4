/** Big-endian numbers: the value of a byte string, and the byte string of a value. */
module BigEndian {
  import opened Prelude
  import opened LittleEndian

  function ValueOf(b: seq<byte>): nat {
    if b == [] then 0 else 256 * ValueOf(b[..|b| - 1]) + b[|b| - 1]
  }

  /** The low `n` bytes of `v`, most significant first. */
  function BytesOf(v: nat, n: nat): (b: seq<byte>)
    ensures |b| == n
    decreases n, v
  {
    if n == 0 then [] else BytesOf(v / 256, n - 1) + [ToByte(v)]
  }

  lemma {:induction false} ValueBound(b: seq<byte>)
    ensures ValueOf(b) < Pow256(|b|)
  {
    if b == [] {
    } else {
      ValueBound(b[..|b| - 1]);
    }
  }

  lemma {:induction false} ValueOfBytes(v: nat, n: nat)
    requires v < Pow256(n)
    ensures ValueOf(BytesOf(v, n)) == v
    decreases n
  {
    if n == 0 {
    } else {
      ValueOfBytes(v / 256, n - 1);
      assert BytesOf(v, n)[..n - 1] == BytesOf(v / 256, n - 1);
    }
  }

  lemma {:induction false} BytesOfValue(b: seq<byte>)
    ensures BytesOf(ValueOf(b), |b|) == b
  {
    if b == [] {
    } else {
      BytesOfValue(b[..|b| - 1]);
      UniqueRemainder(ValueOf(b), 256, ValueOf(b[..|b| - 1]), b[|b| - 1]);
    }
  }

  function LeadingZeros(b: seq<byte>): (n: nat)
    ensures n <= |b|
  {
    if b == [] || b[0] != 0 then 0 else 1 + LeadingZeros(b[1..])
  }

  lemma {:induction false} LeadingZerosMeaning(b: seq<byte>)
    ensures var n := LeadingZeros(b);
            (forall i :: 0 <= i < n ==> b[i] == 0) && (n < |b| ==> b[n] != 0)
  {
    if b == [] || b[0] != 0 {
    } else {
      LeadingZerosMeaning(b[1..]);
      assert forall i :: 1 <= i < |b| ==> b[i] == b[1..][i - 1];
    }
  }

  /** A nonzero leading byte bounds the value from below. */
  lemma {:induction false} ValueAtLeast(b: seq<byte>)
    requires b != [] && b[0] != 0
    ensures ValueOf(b) >= Pow256(|b| - 1)
  {
    if |b| == 1 {
    } else {
      ValueAtLeast(b[..|b| - 1]);
    }
  }

  lemma {:induction false} ZerosDoNotCount(b: seq<byte>, n: nat)
    requires n <= |b| && forall i :: 0 <= i < n ==> b[i] == 0
    ensures ValueOf(b) == ValueOf(b[n..])
    decreases |b|
  {
    if n == |b| {
      if b != [] {
        ZerosDoNotCount(b[..n - 1], n - 1);
        assert b[..n - 1][n - 1..] == [] == b[n..];
      }
    } else {
      var init := b[..|b| - 1];
      ZerosDoNotCount(init, n);
      assert b[n..][..|b[n..]| - 1] == init[n..];
    }
  }

  /** Two byte strings without leading zeros that have the same value are the same. */
  lemma {:induction false} ValueIsInjective(a: seq<byte>, b: seq<byte>)
    requires LeadingZeros(a) == 0 && LeadingZeros(b) == 0 && ValueOf(a) == ValueOf(b)
    ensures a == b
    decreases |a|
  {
    if a == [] {
      if b != [] {
        ValueAtLeast(b);
      }
    } else if b == [] {
      ValueAtLeast(a);
    } else {
      var a', b' := a[..|a| - 1], b[..|b| - 1];
      assert ValueOf(a') == ValueOf(b') && a[|a| - 1] == b[|b| - 1];
      ValueIsInjective(a', b');
      assert a == a' + [a[|a| - 1]] && b == b' + [b[|b| - 1]];
    }
  }
}
