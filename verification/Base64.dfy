/** Base64 decoding with a bit accumulator (src/codec/bytes.ts), against the group-by-group reading of section 7 of
    the WHATWG Infra Standard and the encoder of section 4 of RFC 4648. */
module Base64 {
  import opened LittleEndian
  import opened Prelude

  type sextet = n: nat | n < 64

  const ALPHABET := "ABCDEFGHIJKLM" + "NOPQRSTUVWXYZ" + "abcdefghijklm" + "nopqrstuvwxyz" + "0123456789+/"

  datatype Base64Error = InvalidBase64

  // ---------- the alphabet ----------

  function CharOf(d: sextet): char {
    if d < 26 then 'A' + d as char
    else if d < 52 then 'a' + (d - 26) as char
    else if d < 62 then '0' + (d - 52) as char
    else if d == 62 then '+' else '/'
  }

  lemma AlphabetChars(d: sextet)
    ensures |ALPHABET| == 64 && ALPHABET[d] == CharOf(d)
  {
  }

  lemma AlphabetDistinct()
    ensures |ALPHABET| == 64 && NoDup(ALPHABET)
  {
    forall i, j | 0 <= i < j < 64 ensures CharOf(i) != CharOf(j) {
    }
    forall d: sextet ensures |ALPHABET| == 64 && ALPHABET[d] == CharOf(d) {
      AlphabetChars(d);
    }
  }

  predicate Base64Char(c: char) {
    c in ALPHABET
  }

  function SextetOf(c: char): (d: sextet)
    requires Base64Char(c)
  {
    AlphabetDistinct();
    IndexOf(ALPHABET, c)
  }

  lemma SextetOfChar(d: sextet)
    ensures Base64Char(CharOf(d)) && SextetOf(CharOf(d)) == d
    ensures CharOf(d) != '=' && !Whitespace(CharOf(d))
  {
    AlphabetDistinct();
    AlphabetChars(d);
    IndexOfUnique(ALPHABET, d);
  }

  /** The characters of table 1 of RFC 4648, and no others. */
  lemma AlphabetMembers(c: char)
    ensures Base64Char(c) <==> 'A' <= c <= 'Z' || 'a' <= c <= 'z' || '0' <= c <= '9' || c == '+' || c == '/'
  {
    if Base64Char(c) {
      AlphabetDistinct();
      var i :| 0 <= i < 64 && ALPHABET[i] == c;
      AlphabetChars(i);
    } else {
      NoCharOf(c);
    }
  }

  lemma NoCharOf(c: char)
    requires !Base64Char(c)
    ensures !('A' <= c <= 'Z') && !('a' <= c <= 'z') && !('0' <= c <= '9') && c != '+' && c != '/'
  {
    hide Base64Char, SextetOf;
    var code := c as int;
    var d: sextet := if 65 <= code <= 90 then code - 65 else if 97 <= code <= 122 then code - 71
                     else if 48 <= code <= 57 then code + 4 else if c == '+' then 62 else 63;
    SextetOfChar(d);
  }

  /** Their values in that table. */
  lemma AlphabetValues(c: char)
    requires Base64Char(c)
    ensures 'A' <= c <= 'Z' ==> SextetOf(c) == c as int - 65
    ensures 'a' <= c <= 'z' ==> SextetOf(c) == c as int - 97 + 26
    ensures '0' <= c <= '9' ==> SextetOf(c) == c as int - 48 + 52
    ensures c == '+' ==> SextetOf(c) == 62
    ensures c == '/' ==> SextetOf(c) == 63
  {
    hide Base64Char, SextetOf;
    var code := c as int;
    var d: sextet := if 65 <= code <= 90 then code - 65 else if 97 <= code <= 122 then code - 71
                     else if 48 <= code <= 57 then code + 4 else if c == '+' then 62 else 63;
    SextetOfChar(d);
  }

  lemma PaddingIsForeign()
    ensures !Base64Char('=')
  {
    if Base64Char('=') {
      AlphabetDistinct();
      var i :| 0 <= i < 64 && ALPHABET[i] == '=';
      AlphabetChars(i);
    }
  }

  // ---------- the text before the digits are read ----------

  predicate Whitespace(c: char) {
    c == '\t' || c == '\n' || c == 12 as char || c == '\r' || c == ' '
  }

  function WithoutWhitespace(text: string): string {
    if text == [] then []
    else (if Whitespace(text[0]) then [] else [text[0]]) + WithoutWhitespace(text[1..])
  }

  function EndsWith(text: string, suffix: string): bool {
    |suffix| <= |text| && text[|text| - |suffix|..] == suffix
  }

  /** Up to two padding characters are dropped when the length is a multiple of four. */
  function WithoutPadding(body: string): string {
    if |body| % 4 == 0 && EndsWith(body, "==") then body[..|body| - 2]
    else if |body| % 4 == 0 && EndsWith(body, "=") then body[..|body| - 1]
    else body
  }

  predicate AllBase64(body: string) {
    forall i :: 0 <= i < |body| ==> Base64Char(body[i])
  }

  function Sextets(body: string): (ds: seq<sextet>)
    requires AllBase64(body)
    ensures |ds| == |body|
  {
    seq(|body|, i requires 0 <= i < |body| => SextetOf(body[i]))
  }

  // ---------- the reference: groups of four digits are 24-bit numbers ----------

  function ByteAt(v: nat, shift: nat): byte
    requires shift > 0
  {
    v / shift % 256
  }

  function Join2(a: nat, b: nat): nat {
    64 * a + b
  }

  function Join3(a: nat, b: nat, c: nat): nat {
    4096 * a + 64 * b + c
  }

  function Join4(a: nat, b: nat, c: nat, d: nat): nat {
    262144 * a + 4096 * b + 64 * c + d
  }

  function ThreeBytes(a: sextet, b: sextet, c: sextet, d: sextet): seq<byte> {
    var v := Join4(a, b, c, d);
    [ByteAt(v, 65536), ByteAt(v, 256), ByteAt(v, 1)]
  }

  /** Four digits give three bytes; a last group of three (two) gives two (one), its two (four) low bits dropped. */
  function Quanta(ds: seq<sextet>): seq<byte> {
    if |ds| >= 4 then ThreeBytes(ds[0], ds[1], ds[2], ds[3]) + Quanta(ds[4..])
    else if |ds| == 3 then
      var v := Join3(ds[0], ds[1], ds[2]) / 4;
      [ByteAt(v, 256), ByteAt(v, 1)]
    else if |ds| == 2 then
      [ByteAt(Join2(ds[0], ds[1]) / 16, 1)]
    else []
  }

  function DecodeBase64(text: string): Result<seq<byte>, Base64Error> {
    var body := WithoutPadding(WithoutWhitespace(text));
    if |body| % 4 == 1 || !AllBase64(body) then Err(InvalidBase64) else Ok(Quanta(Sextets(body)))
  }

  // ---------- the accumulator ----------

  /** The bits of the last incomplete byte, as the accumulator holds them, and how many they are. */
  function Pending(ds: seq<sextet>): nat {
    var r := |ds| % 4;
    if r == 0 then 0 else if r == 1 then ds[|ds| - 1] else if r == 2 then ds[|ds| - 1] % 16 else ds[|ds| - 1] % 4
  }

  function PendingBits(n: nat): nat {
    var r := n % 4;
    if r == 0 then 0 else 8 - 2 * r
  }

  function Unit(bits: nat): nat {
    if bits == 0 then 1 else if bits == 2 then 4 else if bits == 4 then 16 else 64
  }

  /** The byte, if any, that one more digit completes. */
  function CompletedBytes(ds: seq<sextet>, d: sextet): seq<byte> {
    if |ds| % 4 == 0 then [] else [ByteAt(Join2(Pending(ds), d), Unit(PendingBits(|ds| + 1)))]
  }

  /** The bytes of a third digit: the first byte is already settled. */
  lemma ThirdDigit(a: sextet, b: sextet, c: sextet)
    ensures ByteAt(Join3(a, b, c) / 4, 256) == ByteAt(Join2(a, b) / 16, 1)
    ensures ByteAt(Join3(a, b, c) / 4, 1) == ByteAt(Join2(b % 16, c), 4)
  {
    var q: nat, r: nat, low: nat := 4 * a + b / 16, b % 16, 64 * (b % 16) + c;
    UniqueRemainder(Join2(a, b), 16, q, r);
    UniqueRemainder(Join3(a, b, c), 4, 256 * q + low / 4, low % 4);
    UniqueRemainder(Join3(a, b, c) / 4, 256, q, low / 4);
    OneByte(low / 4);
  }

  /** The bytes of a fourth digit: the first two are already settled. */
  lemma FourthDigit(a: sextet, b: sextet, c: sextet, d: sextet)
    ensures ByteAt(Join4(a, b, c, d), 65536) == ByteAt(Join3(a, b, c) / 4, 256)
    ensures ByteAt(Join4(a, b, c, d), 256) == ByteAt(Join3(a, b, c) / 4, 1)
    ensures ByteAt(Join4(a, b, c, d), 1) == ByteAt(Join2(c % 4, d), 1)
  {
    hide Join2, Join3, Join4;
    var h: nat := 1024 * a + 16 * b + c / 4;
    JoinsSplit(a, b, c, d);
    HighByte(Join4(a, b, c, d), h, Join2(c % 4, d));
  }

  lemma JoinsSplit(a: sextet, b: sextet, c: sextet, d: sextet)
    ensures var h := 1024 * a + 16 * b + c / 4;
            Join3(a, b, c) / 4 == h && Join4(a, b, c, d) == 256 * h + Join2(c % 4, d) && Join2(c % 4, d) < 256
  {
    UniqueRemainder(Join3(a, b, c), 4, 1024 * a + 16 * b + c / 4, c % 4);
  }

  lemma HighByte(v: nat, h: nat, low: nat)
    requires v == 256 * h + low && low < 256
    ensures ByteAt(v, 65536) == ByteAt(h, 256) && ByteAt(v, 256) == ByteAt(h, 1) && ByteAt(v, 1) == ByteAt(low, 1)
  {
    UniqueRemainder(v, 256, h, low);
    UniqueRemainder(v, 65536, h / 256, 256 * (h % 256) + low);
    OneByte(low);
  }

  lemma OneByte(v: nat)
    ensures v / 1 == v && (v < 256 ==> ByteAt(v, 1) == v)
  {
  }

  lemma QuantaOfThree(a: sextet, b: sextet, c: sextet)
    ensures Quanta([a, b, c]) == Quanta([a, b]) + [ByteAt(Join2(b % 16, c), 4)]
  {
    ThirdDigit(a, b, c);
  }

  lemma QuantaOfFour(a: sextet, b: sextet, c: sextet, d: sextet)
    ensures Quanta([a, b, c, d]) == Quanta([a, b, c]) + [ByteAt(Join2(c % 4, d), 1)]
  {
    FourthDigit(a, b, c, d);
    assert [a, b, c, d][4..] == [];
  }

  lemma QuantaOfOne(a: sextet)
    ensures Quanta([a]) == Quanta([])
  {
  }

  lemma QuantaOfTwo(a: sextet, b: sextet)
    ensures Quanta([a, b]) == Quanta([a]) + [ByteAt(Join2(a, b), 16)]
  {
  }

  lemma SnocToOne(ds: seq<sextet>, d: sextet)
    requires |ds| == 0
    ensures Quanta(ds + [d]) == Quanta(ds) + CompletedBytes(ds, d)
  {
    hide Quanta;
    assert ds == [] && ds + [d] == [d];
    QuantaOfOne(d);
  }

  lemma SnocToTwo(ds: seq<sextet>, d: sextet)
    requires |ds| == 1
    ensures Quanta(ds + [d]) == Quanta(ds) + CompletedBytes(ds, d)
  {
    hide Quanta, ByteAt, Join2;
    assert ds == [ds[0]] && ds + [d] == [ds[0], d];
    QuantaOfTwo(ds[0], d);
  }

  lemma SnocToThree(ds: seq<sextet>, d: sextet)
    requires |ds| == 2
    ensures Quanta(ds + [d]) == Quanta(ds) + CompletedBytes(ds, d)
  {
    hide Quanta, ByteAt, Join2;
    assert ds == [ds[0], ds[1]] && ds + [d] == [ds[0], ds[1], d];
    QuantaOfThree(ds[0], ds[1], d);
  }

  lemma SnocToFour(ds: seq<sextet>, d: sextet)
    requires |ds| == 3
    ensures Quanta(ds + [d]) == Quanta(ds) + CompletedBytes(ds, d)
  {
    hide Quanta, ByteAt, Join2;
    assert ds == [ds[0], ds[1], ds[2]] && ds + [d] == [ds[0], ds[1], ds[2], d];
    QuantaOfFour(ds[0], ds[1], ds[2], d);
  }

  lemma QuantaUnfold(ds: seq<sextet>)
    requires |ds| >= 4
    ensures Quanta(ds) == ThreeBytes(ds[0], ds[1], ds[2], ds[3]) + Quanta(ds[4..])
  {
  }

  /** One more digit either stays pending or completes exactly one byte. */
  lemma {:induction false} QuantaSnoc(ds: seq<sextet>, d: sextet)
    ensures Quanta(ds + [d]) == Quanta(ds) + CompletedBytes(ds, d)
    decreases |ds|
  {
    hide ByteAt, Join2, ThreeBytes, Unit, Quanta;
    if |ds| >= 4 {
      var all := ds + [d];
      assert all[4..] == ds[4..] + [d];
      assert all[0] == ds[0] && all[1] == ds[1] && all[2] == ds[2] && all[3] == ds[3];
      assert Pending(ds[4..]) == Pending(ds) && PendingBits(|ds[4..]| + 1) == PendingBits(|ds| + 1);
      assert CompletedBytes(ds[4..], d) == CompletedBytes(ds, d);
      QuantaUnfold(ds);
      QuantaUnfold(all);
      QuantaSnoc(ds[4..], d);
    } else if |ds| == 0 {
      SnocToOne(ds, d);
    } else if |ds| == 1 {
      SnocToTwo(ds, d);
    } else if |ds| == 2 {
      SnocToThree(ds, d);
    } else {
      SnocToFour(ds, d);
    }
  }

  // ---------- the code ----------

  /** The number of whole bytes in `n` digits. */
  lemma {:induction false} QuantaSize(ds: seq<sextet>)
    ensures |Quanta(ds)| == |ds| * 3 / 4
    decreases |ds|
  {
    if |ds| >= 4 {
      QuantaSize(ds[4..]);
    }
  }

  lemma PendingIsSmall(ds: seq<sextet>)
    ensures Pending(ds) < Unit(PendingBits(|ds|))
  {
  }

  /** The pending bits after one more digit: the low bits of the buffer. */
  lemma PendingSnoc(ds: seq<sextet>, d: sextet)
    ensures var buffer, bits := Join2(Pending(ds), d), PendingBits(|ds|) + 6;
            && (bits < 8 ==> bits == PendingBits(|ds| + 1) && buffer == Pending(ds + [d]))
            && (bits >= 8 ==> bits - 8 == PendingBits(|ds| + 1) && buffer % Unit(bits - 8) == Pending(ds + [d]))
            && (bits < 8 <==> |ds| % 4 == 0)
  {
    hide Join2;
    var all := ds + [d];
    assert all[|ds|] == d;
    LowBits(Pending(ds), d);
    NextRemainder(|ds|);
  }

  lemma LowBits(p: nat, d: sextet)
    ensures Join2(p, d) % 16 == d % 16 && Join2(p, d) % 4 == d % 4 && Join2(p, d) % 1 == 0 && Join2(0, d) == d
  {
    UniqueRemainder(Join2(p, d), 16, 4 * p + d / 16, d % 16);
    UniqueRemainder(Join2(p, d), 4, 16 * p + d / 4, d % 4);
  }

  lemma NextRemainder(n: nat)
    ensures (n + 1) % 4 == if n % 4 == 3 then 0 else n % 4 + 1
  {
    UniqueRemainder(n + 1, 4, if n % 4 == 3 then n / 4 + 1 else n / 4, if n % 4 == 3 then 0 else n % 4 + 1);
  }

  /** What one turn of the loop does: the accumulator follows `Pending`, and the completed byte is stored. */
  lemma AccumulatorStep(ds: seq<sextet>, d: sextet)
    ensures var buffer, bits := Join2(Pending(ds), d), PendingBits(|ds|) + 6; var all := ds + [d];
            if bits < 8 then
              bits == PendingBits(|all|) && buffer == Pending(all) && buffer < Unit(bits) && Quanta(all) == Quanta(ds)
            else
              && bits - 8 == PendingBits(|all|) && buffer % Unit(bits - 8) == Pending(all)
              && Quanta(all) == Quanta(ds) + [ByteAt(buffer, Unit(bits - 8))]
  {
    hide Quanta, ByteAt, Join2, Pending, PendingBits, Unit;
    QuantaSnoc(ds, d);
    PendingSnoc(ds, d);
    PendingIsSmall(ds + [d]);
  }

  lemma SextetsStep(body: string, k: nat)
    requires AllBase64(body) && k < |body|
    ensures Sextets(body)[..k + 1] == Sextets(body)[..k] + [SextetOf(body[k])]
  {
    hide SextetOf, Base64Char;
    assert Sextets(body)[k] == SextetOf(body[k]);
  }

  method DecodeBody(body: string) returns (out: array<byte>)
    requires |body| % 4 != 1 && AllBase64(body)
    ensures fresh(out) && out[..] == Quanta(Sextets(body))
  {
    hide Quanta, ByteAt, Join2, Pending, PendingBits, Unit, Sextets, SextetOf, Base64Char;
    ghost var ds := Sextets(body);
    QuantaSize(ds);
    out := new byte[|body| * 3 / 4];
    var buffer: nat, bits: nat, index: nat := 0, 0, 0;
    NothingPending();
    for k := 0 to |body|
      invariant buffer == Pending(ds[..k]) && bits == PendingBits(k) && buffer < Unit(bits)
      invariant index == |Quanta(ds[..k])| <= out.Length
      invariant out[..index] == Quanta(ds[..k])
    {
      var d := SextetOf(body[k]);
      SextetsStep(body, k);
      AccumulatorStep(ds[..k], d);
      PendingIsSmall(ds[..k + 1]);
      QuantaSize(ds[..k + 1]);
      buffer := Join2(buffer, d);  // the shift leaves six zero bits for the digit
      bits := bits + 6;
      if bits >= 8 {
        bits := bits - 8;
        out[index] := ByteAt(buffer, Unit(bits));
        index := index + 1;
        buffer := buffer % Unit(bits);
      }
    }
    assert ds[..|body|] == ds;
  }

  lemma NothingPending()
    ensures Pending([]) == 0 && PendingBits(0) == 0 && Unit(0) == 1 && Quanta([]) == []
  {
  }

  method DecodeBase64Text(text: string) returns (r: Result<seq<byte>, Base64Error>)
    ensures r == DecodeBase64(text)
  {
    var body := WithoutPadding(WithoutWhitespace(text));
    if |body| % 4 == 1 || !AllBase64(body) {
      return Err(InvalidBase64);
    }
    var out := DecodeBody(body);
    return Ok(out[..]);
  }
}
