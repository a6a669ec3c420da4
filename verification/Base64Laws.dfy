/** Base64 laws: decoding undoes the standard encoding under any whitespace and padding, accepts exactly the forgiving
    grammar, and loses nothing but the dropped low bits. */
module Base64Laws {
  import opened LittleEndian
  import opened BigEndian
  import opened Prelude
  import opened Base64

  // ---------- the encoder of section 4 of RFC 4648 ----------

  function Cut(v: nat, shift: nat): sextet
    requires shift > 0
  {
    v / shift % 64
  }

  function Bytes3(a: nat, b: nat, c: nat): nat {
    65536 * a + 256 * b + c
  }

  /** Three bytes give four digits; a last group of two (one) gives three (two), filled up with zero bits. */
  function Encoded(b: seq<byte>): seq<sextet> {
    if |b| >= 3 then FourDigits(b[0], b[1], b[2]) + Encoded(b[3..])
    else if |b| == 2 then FourDigits(b[0], b[1], 0)[..3]
    else if |b| == 1 then FourDigits(b[0], 0, 0)[..2]
    else []
  }

  function FourDigits(a: byte, b: byte, c: byte): (ds: seq<sextet>)
    ensures |ds| == 4
  {
    var v := Bytes3(a, b, c);
    [Cut(v, 262144), Cut(v, 4096), Cut(v, 64), Cut(v, 1)]
  }

  function Chars(ds: seq<sextet>): (s: string)
    ensures |s| == |ds|
  {
    seq(|ds|, i requires 0 <= i < |ds| => CharOf(ds[i]))
  }

  function UnpaddedText(b: seq<byte>): string {
    Chars(Encoded(b))
  }

  function Padding(b: seq<byte>): string {
    if |b| % 3 == 0 then "" else if |b| % 3 == 1 then "==" else "="
  }

  function PaddedText(b: seq<byte>): string {
    UnpaddedText(b) + Padding(b)
  }

  // ---------- digits of bytes ----------

  lemma RecomposeDigits(v: nat)
    requires v < 16777216
    ensures Join4(Cut(v, 262144), Cut(v, 4096), Cut(v, 64), Cut(v, 1)) == v
  {
    var x: nat, y: nat, z: nat := v / 64, v / 64 / 64, v / 64 / 64 / 64;
    UniqueRemainder(v, 4096, y, 64 * (x % 64) + v % 64);
    UniqueRemainder(v, 262144, z, 4096 * (y % 64) + 64 * (x % 64) + v % 64);
    assert z < 64;
  }

  lemma RecomposeBytes(v: nat)
    requires v < 16777216
    ensures Bytes3(ByteAt(v, 65536), ByteAt(v, 256), ByteAt(v, 1)) == v
  {
    var x: nat, y: nat := v / 256, v / 256 / 256;
    UniqueRemainder(v, 65536, y, 256 * (x % 256) + v % 256);
    assert y < 256;
  }

  lemma CutsOfJoin4(a: sextet, b: sextet, c: sextet, d: sextet)
    ensures var v := Join4(a, b, c, d);
            Cut(v, 262144) == a && Cut(v, 4096) == b && Cut(v, 64) == c && Cut(v, 1) == d
  {
    var v: nat, h: nat, g: nat := Join4(a, b, c, d), Join3(a, b, c), Join2(a, b);
    UniqueRemainder(v, 64, h, d);
    UniqueRemainder(h, 64, g, c);
    UniqueRemainder(v, 4096, g, 64 * c + d);
    UniqueRemainder(g, 64, a, b);
    UniqueRemainder(v, 262144, a, 4096 * b + 64 * c + d);
  }

  lemma EncodedValue(a: byte, b: byte, c: byte)
    ensures var ds := FourDigits(a, b, c); Join4(ds[0], ds[1], ds[2], ds[3]) == Bytes3(a, b, c)
  {
    hide Join4, Cut;
    RecomposeDigits(Bytes3(a, b, c));
  }

  lemma BytesOfValue3(a: byte, b: byte, c: byte)
    ensures var v := Bytes3(a, b, c); ByteAt(v, 65536) == a && ByteAt(v, 256) == b && ByteAt(v, 1) == c
  {
    var v: nat, h: nat := Bytes3(a, b, c), 256 * (a as nat) + b;
    UniqueRemainder(v, 256, h, c);
    UniqueRemainder(h, 256, a, b);
    UniqueRemainder(v, 65536, a, 256 * (b as nat) + c);
  }

  lemma ThreeBytesBack(a: byte, b: byte, c: byte)
    ensures var ds := FourDigits(a, b, c); ThreeBytes(ds[0], ds[1], ds[2], ds[3]) == [a, b, c]
  {
    hide FourDigits, Join4, ByteAt, Bytes3;
    EncodedValue(a, b, c);
    BytesOfValue3(a, b, c);
  }

  /** Digits past a group's bytes carry nothing: three digits already spell the first two bytes, two the first. */
  lemma PrefixOfGroup(a: sextet, b: sextet, c: sextet, d: sextet)
    ensures Quanta([a, b, c]) == ThreeBytes(a, b, c, d)[..2]
    ensures Quanta([a, b]) == ThreeBytes(a, b, c, d)[..1]
  {
    hide ByteAt, Join2, Join3, Join4;
    ThirdDigit(a, b, c);
    FourthDigit(a, b, c, d);
    assert Quanta([a, b, c]) == [ByteAt(Join3(a, b, c) / 4, 256), ByteAt(Join3(a, b, c) / 4, 1)];
    assert Quanta([a, b]) == [ByteAt(Join2(a, b) / 16, 1)];
  }

  /** Reading the digits of any byte string gives it back. */
  lemma {:induction false} QuantaOfEncoded(b: seq<byte>)
    ensures Quanta(Encoded(b)) == b
  {
    hide Quanta, FourDigits, ThreeBytes;
    if |b| >= 3 {
      var ds := FourDigits(b[0], b[1], b[2]);
      var all := Encoded(b);
      ThreeBytesBack(b[0], b[1], b[2]);
      assert all[4..] == Encoded(b[3..]);
      QuantaUnfold(all);
      QuantaOfEncoded(b[3..]);
      assert b == [b[0], b[1], b[2]] + b[3..];
    } else if |b| == 2 {
      var ds := FourDigits(b[0], b[1], 0);
      ThreeBytesBack(b[0], b[1], 0);
      PrefixOfGroup(ds[0], ds[1], ds[2], ds[3]);
      assert ds[..3] == [ds[0], ds[1], ds[2]] && b == [b[0], b[1], 0][..2];
    } else if |b| == 1 {
      var ds := FourDigits(b[0], 0, 0);
      ThreeBytesBack(b[0], 0, 0);
      PrefixOfGroup(ds[0], ds[1], ds[2], ds[3]);
      assert ds[..2] == [ds[0], ds[1]] && b == [b[0], 0, 0][..1];
    } else {
      QuantaOfNothing();
    }
  }

  lemma QuantaOfNothing()
    ensures Quanta([]) == []
  {
  }

  lemma {:induction false} EncodedSize(b: seq<byte>)
    ensures |Encoded(b)| == (4 * |b| + 2) / 3
    decreases |b|
  {
    hide FourDigits;
    if |b| >= 3 {
      EncodedSize(b[3..]);
    }
  }

  // ---------- from digits to text ----------

  lemma CharsDecode(ds: seq<sextet>)
    ensures AllBase64(Chars(ds)) && Sextets(Chars(ds)) == ds
    ensures forall i :: 0 <= i < |ds| ==> Chars(ds)[i] != '='
  {
    hide CharOf, SextetOf, Base64Char;
    forall i | 0 <= i < |ds|
      ensures Base64Char(Chars(ds)[i]) && SextetOf(Chars(ds)[i]) == ds[i] && Chars(ds)[i] != '=' {
      SextetOfChar(ds[i]);
    }
  }

  lemma SizeModFour(n: nat)
    ensures (4 * n + 2) / 3 % 4 == if n % 3 == 0 then 0 else n % 3 + 1
  {
    var q, r := n / 3, n % 3;
    assert n == 3 * q + r;
    assert (4 * n + 2) / 3 == 4 * q + (4 * r + 2) / 3;
  }

  /** Padding is removed exactly: from a padded text, and not from an unpadded one. */
  lemma PaddingDrops(b: seq<byte>)
    ensures WithoutPadding(PaddedText(b)) == UnpaddedText(b)
    ensures WithoutPadding(UnpaddedText(b)) == UnpaddedText(b)
    ensures |UnpaddedText(b)| % 4 != 1
  {
    hide Encoded, Chars, CharOf, WithoutPadding, AllBase64, Sextets;
    var t, p := UnpaddedText(b), Padding(b);
    EncodedSize(b);
    SizeModFour(|b|);
    CharsDecode(Encoded(b));
    NoPaddingAtEnd(t);
    if p == "" {
      assert t + p == t;
    } else {
      PaddingAtEnd(t, p);
    }
  }

  lemma EndsWithOne(t: string)
    ensures EndsWith(t, "=") <==> t != [] && t[|t| - 1] == '='
  {
    if t != [] {
      assert t[|t| - 1..] == [t[|t| - 1]];
    }
  }

  lemma EndsWithTwo(t: string)
    ensures EndsWith(t, "==") <==> |t| >= 2 && t[|t| - 2] == '=' && t[|t| - 1] == '='
  {
    if |t| >= 2 {
      assert t[|t| - 2..] == [t[|t| - 2], t[|t| - 1]];
    }
  }

  lemma NoPaddingAtEnd(t: string)
    requires t != [] ==> t[|t| - 1] != '='
    ensures WithoutPadding(t) == t
  {
    hide EndsWith;
    EndsWithOne(t);
    EndsWithTwo(t);
  }

  lemma PaddingAtEnd(t: string, padding: string)
    requires t != [] ==> t[|t| - 1] != '='
    requires padding == "=" || padding == "=="
    ensures (|t| + |padding|) % 4 == 0 ==> WithoutPadding(t + padding) == t
  {
    hide EndsWith;
    var all := t + padding;
    EndsWithOne(all);
    EndsWithTwo(all);
    assert all[..|t|] == t;
    if padding == "=" {
      assert |t| >= 1 ==> all[|all| - 2] == t[|t| - 1];
    }
  }

  /** Decoding undoes encoding for every byte string, padded or not, with ASCII whitespace anywhere in the text. */
  lemma DecodeUndoesEncode(text: string, b: seq<byte>)
    requires WithoutWhitespace(text) == PaddedText(b) || WithoutWhitespace(text) == UnpaddedText(b)
    ensures DecodeBase64(text) == Ok(b)
  {
    hide Encoded, Quanta, WithoutWhitespace, WithoutPadding, Padding, AllBase64, Sextets;
    PaddingDrops(b);
    CharsDecode(Encoded(b));
    QuantaOfEncoded(b);
  }

  // ---------- the accepted language ----------

  /** Whitespace aside: a body of alphabet characters whose length is not one more than a multiple of four, or one
      completed to a multiple of four by one or two padding characters. */
  ghost predicate ForgivingBase64(text: string) {
    exists body, padding ::
      && WithoutWhitespace(text) == body + padding
      && AllBase64(body)
      && ((padding == "" && |body| % 4 != 1)
          || ((padding == "=" || padding == "==") && (|body| + |padding|) % 4 == 0))
  }

  lemma AcceptsOnlyForgiving(text: string)
    requires DecodeBase64(text).Ok?
    ensures ForgivingBase64(text)
  {
    hide WithoutWhitespace, AllBase64, Quanta, Sextets;
    var stripped := WithoutWhitespace(text);
    var body := WithoutPadding(stripped);
    var padding := stripped[|body|..];
    assert stripped == body + padding;
    if padding != "" && padding != "==" {
      assert padding == "=";
    }
  }

  lemma PaddedBodyIsStripped(body: string, padding: string)
    requires AllBase64(body) && (padding == "=" || padding == "==") && (|body| + |padding|) % 4 == 0
    ensures WithoutPadding(body + padding) == body && |body| % 4 != 1
  {
    hide WithoutPadding;
    LastIsNotPadding(body);
    PaddingAtEnd(body, padding);
  }

  lemma LastIsNotPadding(body: string)
    requires AllBase64(body)
    ensures body != [] ==> body[|body| - 1] != '='
  {
    PaddingIsForeign();
  }

  /** Decoding accepts exactly the forgiving-base64 grammar. */
  lemma AcceptsIffForgiving(text: string)
    ensures DecodeBase64(text).Ok? <==> ForgivingBase64(text)
  {
    hide WithoutWhitespace, AllBase64, Quanta, Sextets, WithoutPadding;
    if DecodeBase64(text).Ok? {
      AcceptsOnlyForgiving(text);
    }
    if ForgivingBase64(text) {
      var body, padding :|
        && WithoutWhitespace(text) == body + padding
        && AllBase64(body)
        && ((padding == "" && |body| % 4 != 1)
            || ((padding == "=" || padding == "==") && (|body| + |padding|) % 4 == 0));
      if padding == "" {
        assert body + padding == body;
        LastIsNotPadding(body);
        NoPaddingAtEnd(body);
      } else {
        PaddedBodyIsStripped(body, padding);
      }
    }
  }

  // ---------- what decoding loses ----------

  lemma FourDigitsBack(a: sextet, b: sextet, c: sextet, d: sextet)
    ensures var bytes := ThreeBytes(a, b, c, d); FourDigits(bytes[0], bytes[1], bytes[2]) == [a, b, c, d]
  {
    hide Cut, ByteAt, Bytes3;
    RecomposeBytes(Join4(a, b, c, d));
    CutsOfJoin4(a, b, c, d);
  }

  lemma ThreeDigitsBack(a: sextet, b: sextet, c: sextet)
    ensures Encoded(Quanta([a, b, c])) == [a, b, c] <==> c % 4 == 0
  {
    hide FourDigits, ThreeBytes, Encoded;
    var c' := c - c % 4;
    var bytes := ThreeBytes(a, b, c', 0);
    PrefixOfGroup(a, b, c', 0);
    FourDigitsBack(a, b, c', 0);
    LastByteEmpty(a, b, c');
    SameThreeDigitBytes(a, b, c);
    EncodedTwo(bytes[0], bytes[1]);
    assert [a, b, c', 0][..3] == [a, b, c'];
    assert Encoded(Quanta([a, b, c])) == [a, b, c'];
    assert [a, b, c'][2] == c';
  }

  lemma EncodedTwo(a: byte, b: byte)
    ensures Encoded([a, b]) == FourDigits(a, b, 0)[..3]
  {
  }

  lemma EncodedOne(a: byte)
    ensures Encoded([a]) == FourDigits(a, 0, 0)[..2]
  {
  }

  lemma LastByteEmpty(a: sextet, b: sextet, c: sextet)
    requires c % 4 == 0
    ensures var bytes := ThreeBytes(a, b, c, 0); |bytes| == 3 && bytes[2] == 0 && bytes[..2] == [bytes[0], bytes[1]]
  {
    hide Join4;
    ThreeZeroLow(a, b, c);
  }

  lemma ThreeZeroLow(a: sextet, b: sextet, c: sextet)
    requires c % 4 == 0
    ensures ByteAt(Join4(a, b, c, 0), 1) == 0
  {
    UniqueRemainder(Join4(a, b, c, 0), 256, 1024 * a + 16 * b + c / 4, 0);
    OneByte(Join4(a, b, c, 0));
  }

  lemma SameThreeDigitBytes(a: sextet, b: sextet, c: sextet)
    ensures Quanta([a, b, c]) == Quanta([a, b, c - c % 4])
  {
    hide ByteAt, Join3;
    ThreeDigitsShifted(a, b, c);
  }

  lemma ThreeDigitsShifted(a: sextet, b: sextet, c: sextet)
    ensures Join3(a, b, c) / 4 == Join3(a, b, c - c % 4) / 4
  {
    UniqueRemainder(Join3(a, b, c), 4, 1024 * a + 16 * b + c / 4, c % 4);
    UniqueRemainder(Join3(a, b, c - c % 4), 4, 1024 * a + 16 * b + c / 4, 0);
  }

  lemma TwoDigitsBack(a: sextet, b: sextet)
    ensures Encoded(Quanta([a, b])) == [a, b] <==> b % 16 == 0
  {
    hide FourDigits, ThreeBytes, Encoded, Quanta;
    var b' := b - b % 16;
    SameTwoDigitBytes(a, b);
    TwoDigitsBackWhole(a, b');
    assert [a, b'][1] == b';
  }

  lemma TwoDigitsBackWhole(a: sextet, b: sextet)
    requires b % 16 == 0
    ensures Encoded(Quanta([a, b])) == [a, b]
  {
    hide FourDigits, ThreeBytes, Encoded, Quanta;
    var bytes := ThreeBytes(a, b, 0, 0);
    PrefixOfGroup(a, b, 0, 0);
    FourDigitsBack(a, b, 0, 0);
    LastTwoBytesEmpty(a, b);
    EncodedOne(bytes[0]);
    assert [a, b, 0, 0][..2] == [a, b];
  }

  lemma LastTwoBytesEmpty(a: sextet, b: sextet)
    requires b % 16 == 0
    ensures var bytes := ThreeBytes(a, b, 0, 0);
            |bytes| == 3 && bytes[1] == 0 && bytes[2] == 0 && bytes[..1] == [bytes[0]]
  {
    hide Join4;
    TwoZeroLow(a, b);
  }

  lemma TwoZeroLow(a: sextet, b: sextet)
    requires b % 16 == 0
    ensures ByteAt(Join4(a, b, 0, 0), 1) == 0 && ByteAt(Join4(a, b, 0, 0), 256) == 0
  {
    var v: nat, k: nat := Join4(a, b, 0, 0), 4 * a + b / 16;
    UniqueRemainder(v, 256, 256 * k, 0);
    UniqueRemainder(256 * k, 256, k, 0);
    OneByte(v);
  }

  lemma SameTwoDigitBytes(a: sextet, b: sextet)
    ensures Quanta([a, b]) == Quanta([a, b - b % 16])
  {
    hide ByteAt, Join2;
    TwoDigitsShifted(a, b);
  }

  lemma TwoDigitsShifted(a: sextet, b: sextet)
    ensures Join2(a, b) / 16 == Join2(a, b - b % 16) / 16
  {
    UniqueRemainder(Join2(a, b), 16, 4 * a + b / 16, b % 16);
    UniqueRemainder(Join2(a, b - b % 16), 16, 4 * a + b / 16, 0);
  }

  /** Encoding what was decoded gives the digits back exactly when the bits that decoding drops are zero. */
  lemma {:induction false} DigitsRoundTripIff(ds: seq<sextet>)
    requires |ds| % 4 != 1
    ensures Encoded(Quanta(ds)) == ds <==> |ds| % 4 == 0 || Pending(ds) == 0
    decreases |ds|
  {
    hide FourDigits, ThreeBytes, Quanta, Encoded;
    if |ds| >= 4 {
      var bytes, rest := ThreeBytes(ds[0], ds[1], ds[2], ds[3]), ds[4..];
      DigitsRoundTripIff(rest);
      QuantaUnfold(ds);
      FourDigitsBack(ds[0], ds[1], ds[2], ds[3]);
      EncodedUnfold(ds[0], ds[1], ds[2], ds[3], Quanta(rest));
      assert ds == [ds[0], ds[1], ds[2], ds[3]] + rest;
      assert Pending(rest) == Pending(ds);
    } else if |ds| == 3 {
      assert ds == [ds[0], ds[1], ds[2]];
      ThreeDigitsBack(ds[0], ds[1], ds[2]);
    } else if |ds| == 2 {
      assert ds == [ds[0], ds[1]];
      TwoDigitsBack(ds[0], ds[1]);
    } else {
      assert ds == [];
      QuantaOfNothing();
      EncodedNothing();
    }
  }

  lemma EncodedNothing()
    ensures Encoded([]) == []
  {
  }

  lemma EncodedUnfold(a: sextet, b: sextet, c: sextet, d: sextet, rest: seq<byte>)
    ensures var bytes := ThreeBytes(a, b, c, d);
            Encoded(bytes + rest) == FourDigits(bytes[0], bytes[1], bytes[2]) + Encoded(rest)
  {
    hide FourDigits;
    var bytes := ThreeBytes(a, b, c, d);
    assert (bytes + rest)[3..] == rest;
  }

  // ---------- the number that is decoded ----------

  /** The number that digits spell in base 64, most significant first. */
  function DigitsNumber(ds: seq<sextet>): nat {
    if ds == [] then 0 else 64 * DigitsNumber(ds[..|ds| - 1]) + ds[|ds| - 1]
  }

  lemma {:induction false} NumberWithPending(ds: seq<sextet>)
    ensures DigitsNumber(ds) == Unit(PendingBits(|ds|)) * ValueOf(Quanta(ds)) + Pending(ds)
  {
    hide Quanta, ByteAt, Join2, Pending;
    if ds == [] {
      NothingPending();
    } else {
      var init, d := ds[..|ds| - 1], ds[|ds| - 1];
      assert ds == init + [d];
      NumberWithPending(init);
      AccumulatorStep(init, d);
      PendingIsSmall(init);
      var buffer, bits := Join2(Pending(init), d), PendingBits(|init|) + 6;
      JoinedNumber(Pending(init), d);
      if bits >= 8 {
        var b := Quanta(ds);
        assert b[..|b| - 1] == Quanta(init);
        WholeByte(Unit(PendingBits(|init|)), Unit(bits - 8), ValueOf(Quanta(init)), Pending(init), d);
      }
    }
  }

  lemma JoinedNumber(p: nat, d: sextet)
    ensures Join2(p, d) == 64 * p + d
  {
  }

  /** The number after a digit that completes a byte. */
  lemma WholeByte(unit: nat, unit': nat, w: nat, p: nat, d: sextet)
    requires unit' > 0 && 64 * unit == 256 * unit' && p < unit
    ensures var buffer := 64 * p + d;
            64 * (unit * w + p) + d == unit' * (256 * w + ByteAt(buffer, unit')) + buffer % unit'
  {
    var buffer: nat := 64 * p + d;
    var q: nat := buffer / unit';
    assert buffer == unit' * q + buffer % unit';
    QuotientIsByte(buffer, unit');
    assert 64 * (unit * w) == unit' * (256 * w) by {
      assert 64 * (unit * w) == (64 * unit) * w;
    }
    assert unit' * (256 * w + q) == unit' * (256 * w) + unit' * q;
  }

  lemma QuotientIsByte(v: nat, unit: nat)
    requires unit > 0 && v < 256 * unit
    ensures v / unit < 256 && ByteAt(v, unit) == v / unit
  {
    var q := v / unit;
    assert v == unit * q + v % unit;
    ProductGrows(unit, q - 255);
    assert unit * (q - 255) == unit * q - unit * 255;
  }

  /** What is decoded is the number that the digits spell, without the bits of the incomplete byte at the end, in three
      bytes for four digits. */
  lemma DecodesNumber(ds: seq<sextet>)
    ensures |Quanta(ds)| == 3 * |ds| / 4
    ensures ValueOf(Quanta(ds)) ==
      DigitsNumber(ds) / (if |ds| % 4 == 0 then 1 else if |ds| % 4 == 1 then 64 else if |ds| % 4 == 2 then 16 else 4)
  {
    hide Quanta, DigitsNumber, Pending, ValueOf;
    QuantaSize(ds);
    NumberWithPending(ds);
    PendingIsSmall(ds);
    UniqueRemainder(DigitsNumber(ds), Unit(PendingBits(|ds|)), ValueOf(Quanta(ds)), Pending(ds));
  }

  // ---------- which characters are ignored, and which refused ----------

  function Kept(c: char): string {
    if Whitespace(c) then [] else [c]
  }

  lemma FirstCharacter(c: char, text: string)
    ensures WithoutWhitespace([c] + text) == Kept(c) + WithoutWhitespace(text)
  {
    assert ([c] + text)[1..] == text;
  }

  lemma Reassociate(a: string, b: string, c: string)
    ensures a + (b + c) == a + b + c
  {
  }

  lemma {:induction false} WhitespaceDropsApart(a: string, b: string)
    ensures WithoutWhitespace(a + b) == WithoutWhitespace(a) + WithoutWhitespace(b)
  {
    if a == [] {
      assert a + b == b;
    } else {
      hide WithoutWhitespace, Kept;
      var c, rest := a[0], a[1..];
      WhitespaceDropsApart(rest, b);
      FirstCharacter(c, rest);
      FirstCharacter(c, rest + b);
      assert a == [c] + rest;
      Reassociate([c], rest, b);
      Reassociate(Kept(c), WithoutWhitespace(rest), WithoutWhitespace(b));
    }
  }

  /** A tab, line feed, form feed, carriage return or space makes no difference anywhere. */
  lemma WhitespaceIgnored(a: string, c: char, b: string)
    requires c as int == 9 || c as int == 10 || c as int == 12 || c as int == 13 || c as int == 32
    ensures DecodeBase64(a + [c] + b) == DecodeBase64(a + b)
  {
    OneCharacter(c);
    hide WithoutWhitespace, WithoutPadding, Quanta, Sextets, AllBase64;
    WhitespaceDropsApart(a + [c], b);
    WhitespaceDropsApart(a, [c]);
    WhitespaceDropsApart(a, b);
    assert WithoutWhitespace(a + [c]) == WithoutWhitespace(a);
    assert WithoutWhitespace(a + [c] + b) == WithoutWhitespace(a + b);
  }

  lemma OneCharacter(c: char)
    ensures WithoutWhitespace([c]) ==
      if c as int == 9 || c as int == 10 || c as int == 12 || c as int == 13 || c as int == 32 then [] else [c]
  {
  }

  /** Any other character outside the alphabet, padding aside, makes the text invalid wherever it stands. */
  lemma ForeignRefused(a: string, c: char, b: string)
    requires !(c as int == 9 || c as int == 10 || c as int == 12 || c as int == 13 || c as int == 32)
    requires !Base64Char(c) && c != '='
    ensures DecodeBase64(a + [c] + b) == Err(InvalidBase64)
  {
    OneCharacter(c);
    hide Base64Char, Quanta, Sextets, WithoutWhitespace, WithoutPadding;
    var text := a + [c] + b;
    WhitespaceDropsApart(a + [c], b);
    WhitespaceDropsApart(a, [c]);
    var stripped := WithoutWhitespace(text);
    assert stripped == WithoutWhitespace(a) + [c] + WithoutWhitespace(b);
    StrippedStays(stripped, |WithoutWhitespace(a)|);
  }

  /** Only padding is stripped from the end. */
  lemma StrippedStays(stripped: string, i: nat)
    requires i < |stripped| && stripped[i] != '=' && !Base64Char(stripped[i])
    ensures !AllBase64(WithoutPadding(stripped))
  {
    hide Base64Char;
    var body := WithoutPadding(stripped);
    assert forall j :: 0 <= j < |body| ==> body[j] == stripped[j];
    EndsWithOne(stripped);
    EndsWithTwo(stripped);
    assert i < |body|;
  }
}
