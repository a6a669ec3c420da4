/** Base58 text of byte strings and keys (src/codec/bytes.ts): two carry loops in opposite directions. */
module Base58 {
  import opened Prelude
  import opened LittleEndian
  import opened BigEndian

  /** The Bitcoin alphabet, cut at the letters it skips. */
  const ALPHABET := "123456789" + "ABCDEFGH" + "JKLMN" + "PQRSTUVWXYZ" + "abcdefghijk" + "mnopqrstuvwxyz"

  const KEY_SIZE := 32

  type digit = n: nat | n < 58

  datatype Base58Error = InvalidCharacter | ExceedsKeySize

  // ---------- the alphabet ----------

  function CharOf(d: digit): char {
    if d < 9 then '1' + d as char
    else if d < 17 then 'A' + (d - 9) as char
    else if d < 22 then 'J' + (d - 17) as char
    else if d < 33 then 'P' + (d - 22) as char
    else if d < 44 then 'a' + (d - 33) as char
    else 'm' + (d - 44) as char
  }

  lemma AlphabetChars(d: digit)
    ensures |ALPHABET| == 58 && ALPHABET[d] == CharOf(d)
  {
  }

  lemma AlphabetDistinct()
    ensures |ALPHABET| == 58 && NoDup(ALPHABET)
  {
    forall i, j | 0 <= i < j < 58 ensures CharOf(i) != CharOf(j) {
    }
    forall d: digit ensures |ALPHABET| == 58 && ALPHABET[d] == CharOf(d) {
      AlphabetChars(d);
    }
  }

  /** The alphabet in the order of the character codes: the ASCII digits and letters but 0 (48), I (73), O (79) and
      l (108). */
  lemma AlphabetIsAscending()
    ensures |ALPHABET| == 58 && forall i, j :: 0 <= i < j < 58 ==> ALPHABET[i] < ALPHABET[j]
  {
    forall i, j | 0 <= i < j < 58 ensures CharOf(i) < CharOf(j) {
    }
    forall d: digit ensures |ALPHABET| == 58 && ALPHABET[d] == CharOf(d) {
      AlphabetChars(d);
    }
  }

  lemma AlphabetMembers(c: char)
    ensures c in ALPHABET <==>
      49 <= c as int <= 57 || (65 <= c as int <= 90 && c as int != 73 && c as int != 79)
      || (97 <= c as int <= 122 && c as int != 108)
  {
    var code := c as int;
    if c in ALPHABET {
      AlphabetDistinct();
      var i :| 0 <= i < 58 && ALPHABET[i] == c;
      AlphabetChars(i);
    } else if 49 <= code <= 57 {
      AlphabetChars(code - 49);
    } else if 65 <= code <= 72 {
      AlphabetChars(code - 56);
    } else if 74 <= code <= 78 {
      AlphabetChars(code - 57);
    } else if 80 <= code <= 90 {
      AlphabetChars(code - 58);
    } else if 97 <= code <= 107 {
      AlphabetChars(code - 64);
    } else if 109 <= code <= 122 {
      AlphabetChars(code - 65);
    }
  }

  /** The position of a character in the alphabet, 58 for a foreign one. */
  function CharIndex(c: char): (i: nat)
    ensures i <= 58
  {
    AlphabetDistinct();
    IndexOf(ALPHABET, c)
  }

  predicate Base58Char(c: char) {
    c in ALPHABET
  }

  lemma CharIndexMeaning(c: char)
    ensures CharIndex(c) < 58 <==> Base58Char(c)
    ensures CharIndex(c) < 58 ==> |ALPHABET| == 58 && ALPHABET[CharIndex(c)] == c
  {
    AlphabetDistinct();
  }

  lemma CharIndexOfChar(d: digit)
    ensures |ALPHABET| == 58 && CharIndex(ALPHABET[d]) == d
  {
    AlphabetDistinct();
    IndexOfUnique(ALPHABET, d);
  }

  // ---------- the reference: digits of a number, text of a byte string ----------

  /** The base-58 digits of `n`, least significant first, without leading zeros; none for zero. */
  function Digits(n: nat): seq<digit> {
    if n == 0 then [] else [ToDigit(n)] + Digits(n / 58)
  }

  function ToDigit(n: nat): digit {
    n % 58
  }

  /** The number that digits spell, least significant first. */
  function DigitsValue(ds: seq<digit>): nat {
    if ds == [] then 0 else ds[0] + 58 * DigitsValue(ds[1..])
  }

  /** The characters of digits, most significant first. */
  function Spell(ds: seq<digit>): (s: string)
    ensures |s| == |ds|
  {
    if ds == [] then [] else AlphabetChars(ds[0]); Spell(ds[1..]) + [ALPHABET[ds[0]]]
  }

  function Ones(n: nat): (s: string)
    ensures |s| == n && forall i :: 0 <= i < n ==> s[i] == '1'
  {
    seq(n, i => '1')
  }

  function Text(b: seq<byte>): string {
    Ones(LeadingZeros(b)) + Spell(Digits(ValueOf(b)))
  }

  /** The number a text spells, or the first error: characters are read left to right. */
  function Decoded(text: string): (r: Result<nat, Base58Error>)
    ensures r.Ok? ==> r.value < Pow256(KEY_SIZE)
  {
    if text == [] then Ok(0) else
      var init := Decoded(text[..|text| - 1]);
      if init.Err? then init else
        var d := CharIndex(text[|text| - 1]);
        if d == 58 then Err(InvalidCharacter)
        else if 58 * init.value + d >= Pow256(KEY_SIZE) then Err(ExceedsKeySize)
        else Ok(58 * init.value + d)
  }

  // ---------- encoding: multiply the digits by 256 and add a byte ----------

  function MulAdd(ds: seq<digit>, carry: nat): seq<digit> {
    if ds == [] then Digits(carry)
    else [ToDigit(256 * ds[0] + carry)] + MulAdd(ds[1..], (256 * ds[0] + carry) / 58)
  }

  lemma {:induction false} MulAddIsDigits(n: nat, carry: nat)
    ensures MulAdd(Digits(n), carry) == Digits(256 * n + carry)
  {
    if n == 0 {
    } else {
      var t := 256 * (n % 58) + carry;
      assert 256 * n + carry == 58 * (256 * (n / 58) + t / 58) + t % 58;
      UniqueRemainder(256 * n + carry, 58, 256 * (n / 58) + t / 58, t % 58);
      assert Digits(n)[1..] == Digits(n / 58);
      MulAddIsDigits(n / 58, t / 58);
    }
  }

  /** The digit list of the loop: a single zero stands for zero. */
  function LoopDigits(n: nat): seq<digit> {
    if n == 0 then [0] else Digits(n)
  }

  lemma MulAddIsLoopDigits(n: nat, b: byte)
    ensures MulAdd(LoopDigits(n), b) == LoopDigits(256 * n + b)
  {
    if n == 0 {
      assert LoopDigits(n)[1..] == [];
      assert MulAdd([0], b) == [ToDigit(b)] + Digits(b / 58);
    } else {
      MulAddIsDigits(n, b);
    }
  }

  method CountLeadingZeros(bytes: seq<byte>) returns (leadingZeros: nat)
    ensures leadingZeros == LeadingZeros(bytes)
  {
    leadingZeros := 0;
    while leadingZeros < |bytes| && bytes[leadingZeros] == 0
      invariant leadingZeros <= |bytes|
      invariant LeadingZeros(bytes) == leadingZeros + LeadingZeros(bytes[leadingZeros..])
    {
      assert bytes[leadingZeros..][1..] == bytes[leadingZeros + 1..];
      leadingZeros := leadingZeros + 1;
    }
  }

  lemma EncodingCarry(d: digit, carry: nat)
    requires carry <= 255
    ensures (256 * d + carry) / 58 <= 255
  {
  }

  lemma MulAddNothing(carry: nat)
    ensures MulAdd([], carry) == Digits(carry)
  {
  }

  lemma MulAddStep(prefix: seq<digit>, ds: seq<digit>, carry: nat)
    requires ds != []
    ensures var t := 256 * ds[0] + carry;
            prefix + MulAdd(ds, carry) == (prefix + [ToDigit(t)]) + MulAdd(ds[1..], t / 58)
  {
  }

  /** One pass of the inner loop. The carry stays a byte, and what is left of it is pushed as new digits. */
  method PushByte(digits: seq<digit>, value: byte) returns (digits': seq<digit>)
    ensures digits' == MulAdd(digits, value)
  {
    hide Digits, MulAdd, ToDigit;
    digits' := digits;
    assert digits[0..] == digits;
    var carry: nat := value;
    for i := 0 to |digits|
      invariant |digits'| == |digits| && digits'[i..] == digits[i..]
      invariant carry <= 255
      invariant digits'[..i] + MulAdd(digits[i..], carry) == MulAdd(digits, value)
    {
      assert digits'[i] == digits'[i..][0] == digits[i];
      assert digits[i..][1..] == digits[i + 1..];
      EncodingCarry(digits'[i], carry);
      MulAddStep(digits'[..i], digits[i..], carry);
      carry := 256 * digits'[i] + carry;
      ghost var before := digits';
      digits' := digits'[i := ToDigit(carry)];
      assert digits'[..i + 1] == before[..i] + [ToDigit(carry)];
      assert digits'[i + 1..] == before[i..][1..];
      carry := carry / 58;
    }
    assert digits'[..|digits|] == digits' && digits[|digits|..] == [];
    MulAddNothing(carry);
    digits' := PushCarry(digits', carry);
  }

  method PushCarry(digits: seq<digit>, carry: nat) returns (digits': seq<digit>)
    ensures digits' == digits + Digits(carry)
  {
    digits' := digits;
    var rest := carry;
    while rest > 0
      invariant digits' + Digits(rest) == digits + Digits(carry)
    {
      digits' := digits' + [ToDigit(rest)];
      rest := rest / 58;
    }
  }

  method BytesToBase58(bytes: seq<byte>) returns (out: string)
    ensures out == Text(bytes)
  {
    var leadingZeros := CountLeadingZeros(bytes);
    LeadingZerosMeaning(bytes);
    if leadingZeros == |bytes| {
      ZerosDoNotCount(bytes, leadingZeros);
      assert Text(bytes) == Ones(leadingZeros);
      return Ones(leadingZeros);
    }
    var digits: seq<digit> := [0];
    for k := 0 to |bytes|
      invariant digits == LoopDigits(ValueOf(bytes[..k]))
    {
      MulAddIsLoopDigits(ValueOf(bytes[..k]), bytes[k]);
      digits := PushByte(digits, bytes[k]);
      assert bytes[..k + 1][..k] == bytes[..k];
    }
    assert bytes[..|bytes|] == bytes;
    NonzeroHasValue(bytes);
    out := Ones(leadingZeros);
    var spelled := SpellDigits(digits);
    out := out + spelled;
  }

  method SpellDigits(digits: seq<digit>) returns (out: string)
    ensures out == Spell(digits)
  {
    AlphabetDistinct();
    out := "";
    var i := |digits|;
    assert digits[..i] == digits;
    while i > 0
      invariant i <= |digits|
      invariant out + Spell(digits[..i]) == Spell(digits)
    {
      i := i - 1;
      SpellLast(digits[..i + 1]);
      assert digits[..i + 1][..i] == digits[..i];
      out := out + [ALPHABET[digits[i]]];
    }
  }

  lemma NonzeroHasValue(b: seq<byte>)
    requires LeadingZeros(b) < |b|
    ensures ValueOf(b) > 0
  {
    var n := LeadingZeros(b);
    LeadingZerosMeaning(b);
    ZerosDoNotCount(b, n);
    ValueAtLeast(b[n..]);
  }

  lemma {:induction false} SpellLast(ds: seq<digit>)
    requires ds != []
    ensures |ALPHABET| == 58 && Spell(ds) == [ALPHABET[ds[|ds| - 1]]] + Spell(ds[..|ds| - 1])
  {
    AlphabetDistinct();
    if |ds| > 1 {
      SpellLast(ds[1..]);
      assert ds[1..][..|ds| - 2] == ds[..|ds| - 1][1..];
    }
  }

  // ---------- decoding: multiply the bytes by 58 and add a digit ----------

  /** The bytes after one pass, and the carry out of the most significant one. */
  function Shifted(b: seq<byte>, carry: nat): (r: (seq<byte>, nat))
    ensures |r.0| == |b|
  {
    if b == [] then ([], carry) else
      var t: nat := carry + 58 * (b[|b| - 1] as nat);
      var (hi, out) := Shifted(b[..|b| - 1], t / 256);
      (hi + [ToByte(t)], out)
  }

  lemma {:induction false} ShiftedValue(b: seq<byte>, carry: nat)
    ensures var (r, out) := Shifted(b, carry);
            58 * ValueOf(b) + carry == ValueOf(r) + out * Pow256(|b|)
  {
    if b == [] {
    } else {
      var init, last := b[..|b| - 1], b[|b| - 1];
      var t: nat := carry + 58 * (last as nat);
      var (hi, out) := Shifted(init, t / 256);
      ShiftedValue(init, t / 256);
      assert (hi + [ToByte(t)])[..|hi|] == hi;
      CarriedValue(ValueOf(init), last, carry, ValueOf(hi), out, Pow256(|init|));
    }
  }

  lemma CarriedValue(init: nat, last: nat, carry: nat, hi: nat, out: nat, p: nat)
    requires 58 * init + (carry + 58 * last) / 256 == hi + out * p
    ensures 58 * (256 * init + last) + carry == 256 * hi + (carry + 58 * last) % 256 + out * (256 * p)
  {
    assert out * (256 * p) == 256 * (out * p);
  }

  lemma DecodingCarry(b: byte, carry: nat)
    requires carry <= 57
    ensures (carry + 58 * (b as nat)) / 256 <= 57
  {
  }

  lemma ShiftedStep(b: seq<byte>, carry: nat, low: seq<byte>)
    requires b != []
    ensures var init, t: nat := b[..|b| - 1], carry + 58 * (b[|b| - 1] as nat);
            && Shifted(b, carry).0 + low == Shifted(init, t / 256).0 + ([ToByte(t)] + low)
            && Shifted(b, carry).1 == Shifted(init, t / 256).1
  {
  }

  lemma ShiftedNothing(carry: nat)
    ensures Shifted([], carry) == ([], carry)
  {
  }

  /** One pass of the in-place loop over the key. Between bytes the carry stays a digit. */
  method ShiftInPlace(bytes: array<byte>, value: digit) returns (carry: nat)
    modifies bytes
    ensures Shifted(old(bytes[..]), value) == (bytes[..], carry)
  {
    hide Shifted;
    carry := value;
    ghost var was := bytes[..];
    var i := bytes.Length;
    assert was[..i] == was;
    assert Shifted(was, value).0 + [] == Shifted(was, value).0;
    while i > 0
      invariant 0 <= i <= bytes.Length
      invariant carry <= 57
      invariant bytes[..i] == was[..i]
      invariant Shifted(was[..i], carry).0 + bytes[i..] == Shifted(was, value).0
      invariant Shifted(was[..i], carry).1 == Shifted(was, value).1
    {
      i := i - 1;
      ghost var after := bytes[i + 1..];
      assert bytes[i] == bytes[..i + 1][i] == was[i];
      assert was[..i + 1][..i] == was[..i];
      DecodingCarry(bytes[i], carry);
      ShiftedStep(was[..i + 1], carry, after);
      carry := carry + 58 * (bytes[i] as nat);
      bytes[i] := ToByte(carry);
      assert bytes[i..] == [ToByte(carry)] + after;
      carry := carry / 256;
    }
    ShiftedNothing(carry);
    assert was[..0] == [] && [] + bytes[0..] == bytes[..];
  }

  /** Whether the carry is lost tells exactly whether the value still fits. */
  lemma ShiftedBytes(v: nat, d: digit, n: nat)
    requires v < Pow256(n)
    ensures var (r, out) := Shifted(BytesOf(v, n), d);
            && (out > 0 <==> 58 * v + d >= Pow256(n))
            && (out == 0 ==> r == BytesOf(58 * v + d, n))
  {
    hide Shifted, BytesOf, ValueOf, Pow256;
    var b := BytesOf(v, n);
    var (r, out) := Shifted(b, d);
    ValueOfBytes(v, n);
    ShiftedValue(b, d);
    ValueBound(r);
    BytesOfValue(r);
    ProductGrows(Pow256(n), out);
    assert out * Pow256(n) == Pow256(n) * out;
  }

  method Base58ToBytes(text: string) returns (r: Result<seq<byte>, Base58Error>)
    ensures r == match Decoded(text) case Ok(v) => Ok(BytesOf(v, KEY_SIZE)) case Err(e) => Err(e)
  {
    hide Shifted, BytesOf, Pow256, CharIndex;
    var bytes := new byte[KEY_SIZE](i => 0);
    ZeroBytes(KEY_SIZE, bytes[..]);
    ghost var v: nat := 0;
    for k := 0 to |text|
      invariant v < Pow256(KEY_SIZE)
      invariant Decoded(text[..k]) == Ok(v)
      invariant bytes[..] == BytesOf(v, KEY_SIZE)
    {
      assert text[..k + 1][..k] == text[..k];
      var index := CharIndex(text[k]);
      if index == 58 {
        DecodeErrorStays(text, k + 1);
        return Err(InvalidCharacter);
      }
      ShiftedBytes(v, index, KEY_SIZE);
      var carry := ShiftInPlace(bytes, index);
      if carry > 0 {
        DecodeErrorStays(text, k + 1);
        return Err(ExceedsKeySize);
      }
      v := 58 * v + index;
    }
    assert text[..|text|] == text;
    return Ok(bytes[..]);
  }

  lemma {:induction false} ZeroBytes(n: nat, b: seq<byte>)
    requires |b| == n && forall i :: 0 <= i < n ==> b[i] == 0
    ensures b == BytesOf(0, n)
  {
    if n == 0 {
    } else {
      ZeroBytes(n - 1, b[..n - 1]);
    }
  }

  lemma {:induction false} DecodeErrorStays(text: string, n: nat)
    requires n <= |text| && Decoded(text[..n]).Err?
    ensures Decoded(text) == Decoded(text[..n])
    decreases |text|
  {
    if n == |text| {
      assert text[..n] == text;
    } else {
      var init := text[..|text| - 1];
      assert init[..n] == text[..n];
      DecodeErrorStays(init, n);
    }
  }
}
