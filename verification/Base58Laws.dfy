/** Base58 laws: encoding keeps the value and is injective, decoding accepts exactly the values of 32 bytes, and
    the two are inverse on keys. */
module Base58Laws {
  import opened Prelude
  import opened LittleEndian
  import opened BigEndian
  import opened Base58

  predicate InAlphabet(text: string) {
    forall i :: 0 <= i < |text| ==> Base58Char(text[i])
  }

  /** The number a text spells in base 58, most significant character first. */
  function TextValue(text: string): nat {
    if text == [] then 0 else 58 * TextValue(text[..|text| - 1]) + CharIndex(text[|text| - 1])
  }

  // ---------- when decoding succeeds ----------

  /** Decoding succeeds exactly on texts over the alphabet whose value fits 32 bytes: a value that overflows at a
      prefix never comes back into range. */
  lemma {:induction false} DecodesIff(text: string)
    ensures Decoded(text).Ok? <==> InAlphabet(text) && TextValue(text) < Pow256(32)
    ensures Decoded(text).Ok? ==> Decoded(text).value == TextValue(text)
  {
    hide Pow256, CharIndex, Base58Char;
    if text == [] {
      PowPositive(KEY_SIZE);
    } else {
      var init, last := text[..|text| - 1], text[|text| - 1];
      DecodesIff(init);
      CharIndexMeaning(last);
      assert InAlphabet(text) <==> InAlphabet(init) && Base58Char(last);
    }
  }

  lemma PowPositive(n: nat)
    ensures Pow256(n) > 0
  {
  }

  /** Which error: the first character that is foreign, or that takes the value beyond 32 bytes, decides. */
  lemma {:induction false} FirstFailure(text: string)
    requires Decoded(text).Err?
    ensures exists n: nat ::
      && n < |text| && InAlphabet(text[..n]) && TextValue(text[..n]) < Pow256(32)
      && Decoded(text).error ==
         (if !Base58Char(text[n]) then InvalidCharacter else ExceedsKeySize)
      && (Base58Char(text[n]) ==> 58 * TextValue(text[..n]) + CharIndex(text[n]) >= Pow256(32))
  {
    hide Pow256, CharIndex, Base58Char;
    var m: nat := |text| - 1;
    var init := text[..m];
    if Decoded(init).Err? {
      FirstFailure(init);
      var n: nat :|
        && n < |init| && InAlphabet(init[..n]) && TextValue(init[..n]) < Pow256(32)
        && Decoded(init).error == (if !Base58Char(init[n]) then InvalidCharacter else ExceedsKeySize)
        && (Base58Char(init[n]) ==> 58 * TextValue(init[..n]) + CharIndex(init[n]) >= Pow256(32));
      assert init[..n] == text[..n] && init[n] == text[n];
    } else {
      DecodesIff(init);
      CharIndexMeaning(text[m]);
    }
  }

  // ---------- the text of a byte string spells its value ----------

  lemma {:induction false} SpellValue(ds: seq<digit>)
    ensures InAlphabet(Spell(ds)) && TextValue(Spell(ds)) == DigitsValue(ds)
  {
    hide CharIndex, Base58Char;
    if ds == [] {
    } else {
      SpellValue(ds[1..]);
      CharIndexOfChar(ds[0]);
      CharIndexMeaning(ALPHABET[ds[0]]);
      var s := Spell(ds);
      assert s[..|s| - 1] == Spell(ds[1..]);
      assert forall i :: 0 <= i < |s| - 1 ==> s[i] == Spell(ds[1..])[i];
    }
  }

  lemma {:induction false} DigitsHaveValue(n: nat)
    ensures DigitsValue(Digits(n)) == n
  {
    if n == 0 {
    } else {
      DigitsHaveValue(n / 58);
      assert Digits(n)[1..] == Digits(n / 58);
    }
  }

  lemma OneIsZero()
    ensures Base58Char('1') && CharIndex('1') == 0
  {
    AlphabetChars(0);
    CharIndexOfChar(0);
  }

  lemma {:induction false} OnesDoNotCount(n: nat, s: string)
    ensures TextValue(Ones(n) + s) == TextValue(s)
    ensures InAlphabet(Ones(n) + s) <==> InAlphabet(s)
    decreases |s|, n
  {
    hide CharIndex, Base58Char;
    OneIsZero();
    var t := Ones(n) + s;
    if s != [] {
      OnesDoNotCount(n, s[..|s| - 1]);
      assert t[..|t| - 1] == Ones(n) + s[..|s| - 1];
      assert InAlphabet(s) <==> InAlphabet(s[..|s| - 1]) && Base58Char(s[|s| - 1]);
      assert InAlphabet(t) <==> InAlphabet(t[..|t| - 1]) && Base58Char(t[|t| - 1]);
    } else if n > 0 {
      OnesDoNotCount(n - 1, s);
      assert t[..|t| - 1] == Ones(n - 1) + s;
    }
  }

  /** Encoding keeps the number: the text spells the big-endian value of the bytes. */
  lemma TextSpellsValue(b: seq<byte>)
    ensures InAlphabet(Text(b)) && TextValue(Text(b)) == ValueOf(b)
  {
    hide TextValue, InAlphabet, Spell, Digits;
    var ds := Digits(ValueOf(b));
    SpellValue(ds);
    DigitsHaveValue(ValueOf(b));
    OnesDoNotCount(LeadingZeros(b), Spell(ds));
  }

  /** What decoding makes of the text of any byte string: the 32-byte form of its value, or the overflow error. */
  lemma DecodeOfText(b: seq<byte>)
    ensures Decoded(Text(b)).Ok? <==> ValueOf(b) < Pow256(32)
    ensures Decoded(Text(b)).Ok? ==> Decoded(Text(b)).value == ValueOf(b)
  {
    hide Decoded, Text, TextValue, Pow256;
    TextSpellsValue(b);
    DecodesIff(Text(b));
  }

  /** Decoding undoes encoding on every key. */
  lemma KeyRoundTrip(key: seq<byte>)
    requires |key| == 32
    ensures Decoded(Text(key)) == Ok(ValueOf(key))
    ensures BytesOf(Decoded(Text(key)).value, 32) == key
  {
    hide Decoded, Text, Pow256, BytesOf, ValueOf;
    ValueBound(key);
    DecodeOfText(key);
    BytesOfValue(key);
  }

  // ---------- leading characters ----------

  function LeadingOnes(text: string): (n: nat)
    ensures n <= |text|
  {
    if text == [] || text[0] != '1' then 0 else 1 + LeadingOnes(text[1..])
  }

  lemma {:induction false} OnesThenOther(n: nat, s: string)
    requires LeadingOnes(s) == 0
    ensures LeadingOnes(Ones(n) + s) == n
  {
    if n == 0 {
      assert Ones(n) + s == s;
    } else {
      OnesThenOther(n - 1, s);
      assert (Ones(n) + s)[1..] == Ones(n - 1) + s;
    }
  }

  lemma {:induction false} SplitAtOnes(text: string)
    ensures var n := LeadingOnes(text); text == Ones(n) + text[n..] && LeadingOnes(text[n..]) == 0
  {
    var n := LeadingOnes(text);
    if n == 0 {
      assert text == Ones(0) + text[0..];
    } else {
      SplitAtOnes(text[1..]);
      assert text[n..] == text[1..][n - 1..];
      OnesPrepend(n, text[n..]);
      assert text == ['1'] + text[1..];
    }
  }

  lemma OnesPrepend(n: nat, rest: string)
    requires n > 0
    ensures Ones(n) + rest == ['1'] + (Ones(n - 1) + rest)
  {
    assert Ones(n) == ['1'] + Ones(n - 1);
  }

  lemma {:induction false} SpelledNumberHasNoLeadingOne(n: nat)
    ensures LeadingOnes(Spell(Digits(n))) == 0
    ensures n > 0 ==> Digits(n) != []
  {
    if n == 0 {
    } else {
      var ds := Digits(n);
      SpelledNumberHasNoLeadingOne(n / 58);
      assert ds[1..] == Digits(n / 58);
      assert Spell(ds) == Spell(ds[1..]) + [ALPHABET[ds[0]]] by { AlphabetDistinct(); }
      if n < 58 {
        assert Digits(n / 58) == [];
        CharIndexOfChar(ds[0]);
        OneIsZero();
      } else {
        assert Spell(ds)[0] == Spell(ds[1..])[0];
      }
    }
  }

  /** Exactly one '1' per leading zero byte. */
  lemma OnePerLeadingZero(b: seq<byte>)
    ensures LeadingOnes(Text(b)) == LeadingZeros(b)
  {
    SpelledNumberHasNoLeadingOne(ValueOf(b));
    OnesThenOther(LeadingZeros(b), Spell(Digits(ValueOf(b))));
  }

  /** Different byte strings, of whatever lengths, have different texts. */
  lemma TextIsInjective(a: seq<byte>, b: seq<byte>)
    requires Text(a) == Text(b)
    ensures a == b
  {
    hide Text, TextValue, ValueOf;
    OnePerLeadingZero(a);
    OnePerLeadingZero(b);
    TextSpellsValue(a);
    TextSpellsValue(b);
    var n := LeadingZeros(a);
    LeadingZerosMeaning(a);
    LeadingZerosMeaning(b);
    ZerosDoNotCount(a, n);
    ZerosDoNotCount(b, n);
    NoMoreZeros(a);
    NoMoreZeros(b);
    ValueIsInjective(a[n..], b[n..]);
    assert a[..n] == b[..n];
    assert a == a[..n] + a[n..] && b == b[..n] + b[n..];
  }

  lemma NoMoreZeros(b: seq<byte>)
    ensures LeadingZeros(b[LeadingZeros(b)..]) == 0
  {
    LeadingZerosMeaning(b);
  }

  // ---------- texts that are their own re-encoding ----------

  /** A text over the alphabet that does not start with '1' is the spelling of its value. */
  lemma {:induction false} TextIsSpelledValue(text: string)
    requires InAlphabet(text) && LeadingOnes(text) == 0
    ensures text == Spell(Digits(TextValue(text)))
  {
    hide CharIndex, Base58Char, Spell, Digits;
    if text == [] {
      SpellNothing();
    } else {
      var init, last := text[..|text| - 1], text[|text| - 1];
      var v, d := TextValue(init), CharIndex(last);
      CharIndexMeaning(last);
      assert text == init + [last];
      if init == [] {
        FirstDigitNotZero(last);
        SpellNothing();
      } else {
        TextIsSpelledValue(init);
        SpellNothing();
      }
      SpellStep(v, d);
    }
  }

  lemma SpellNothing()
    ensures Spell(Digits(0)) == []
  {
  }

  lemma FirstDigitNotZero(c: char)
    requires c != '1' && Base58Char(c)
    ensures CharIndex(c) > 0
  {
    hide CharIndex, Base58Char;
    AlphabetChars(0);
    CharIndexMeaning(c);
  }

  lemma SpellStep(v: nat, d: digit)
    requires 58 * v + d > 0
    ensures |ALPHABET| == 58 && Spell(Digits(58 * v + d)) == Spell(Digits(v)) + [ALPHABET[d]]
  {
    AlphabetDistinct();
    assert (58 * v + d) / 58 == v && (58 * v + d) % 58 == d;
    assert Digits(58 * v + d)[1..] == Digits(v);
  }

  /** Re-encoding a decoded text gives it back exactly when it spells one '1' for each leading zero byte. */
  lemma TextRoundTripIff(text: string)
    requires Decoded(text).Ok?
    ensures var key := BytesOf(Decoded(text).value, 32);
            Text(key) == text <==> LeadingOnes(text) == LeadingZeros(key)
  {
    hide Decoded, TextValue, InAlphabet, Pow256, BytesOf, ValueOf, Spell, Digits;
    var v := Decoded(text).value;
    var key := BytesOf(v, KEY_SIZE);
    DecodesIff(text);
    ValueOfBytes(v, KEY_SIZE);
    OnePerLeadingZero(key);
    var n := LeadingOnes(text);
    SplitAtOnes(text);
    OnesDoNotCount(n, text[n..]);
    TextIsSpelledValue(text[n..]);
  }

  // ---------- lengths ----------

  function Pow58(n: nat): nat {
    if n == 0 then 1 else 58 * Pow58(n - 1)
  }

  lemma {:induction false} DigitCount(n: nat)
    ensures n < Pow58(|Digits(n)|)
    ensures n > 0 ==> |Digits(n)| > 0 && Pow58(|Digits(n)| - 1) <= n
  {
    if n == 0 {
    } else {
      DigitCount(n / 58);
      assert |Digits(n)| == 1 + |Digits(n / 58)|;
    }
  }

  lemma {:induction false} Pow58Monotone(a: nat, b: nat)
    requires a <= b
    ensures Pow58(a) <= Pow58(b)
  {
    if a < b {
      Pow58Monotone(a, b - 1);
    }
  }

  lemma {:induction false} Pow58Below(n: nat)
    ensures Pow58(n) <= Pow256(n)
  {
    if n > 0 {
      Pow58Below(n - 1);
    }
  }

  lemma {:induction false} Pow58Add(a: nat, b: nat)
    ensures Pow58(a + b) == Pow58(a) * Pow58(b)
  {
    if a > 0 {
      Pow58Add(a - 1, b);
      assert 58 * (Pow58(a - 1) * Pow58(b)) == Pow58(a) * Pow58(b);
    }
  }

  lemma SquaresKeepOrder(x: nat, y: nat)
    requires x <= y
    ensures x * x <= y * y
  {
    assert x * x <= x * y;
  }

  /** If `m` digits reach `n` bytes, twice as many reach twice as many. */
  lemma DoubledDigits(n: nat, m: nat)
    requires Pow256(n) <= Pow58(m)
    ensures Pow256(2 * n) <= Pow58(2 * m)
  {
    Pow256Add(n, n);
    Pow58Add(m, m);
    SquaresKeepOrder(Pow256(n), Pow58(m));
  }

  lemma EightBytesInElevenDigits()
    ensures Pow256(8) <= Pow58(11)
  {
  }

  /** Twelve more base-58 digits than bytes are enough, up to 32 bytes. */
  lemma {:induction false} TwelveMoreDigits(n: nat)
    requires n <= 32
    ensures Pow256(n) <= Pow58(n + 12)
    decreases 32 - n
  {
    if n == 32 {
      EightBytesInElevenDigits();
      DoubledDigits(8, 11);
      DoubledDigits(16, 22);
    } else {
      TwelveMoreDigits(n + 1);
    }
  }

  lemma DigitCountOfBytes(n: nat, size: nat)
    requires 0 < size <= 32 && Pow256(size - 1) <= n < Pow256(size)
    ensures size <= |Digits(n)| <= size + 12
  {
    var m := |Digits(n)|;
    DigitCount(n);
    TwelveMoreDigits(size);
    Pow58Below(size - 1);
    if m < size {
      Pow58Monotone(m, size - 1);
    } else if m > size + 12 {
      Pow58Monotone(size + 12, m - 1);
    }
  }

  /** A key's text has between 32 and 44 characters. */
  lemma KeyTextLength(key: seq<byte>)
    requires |key| == 32
    ensures 32 <= |Text(key)| <= 44
  {
    hide ValueOf, Digits, Pow256;
    var n := LeadingZeros(key);
    LeadingZerosMeaning(key);
    ZerosDoNotCount(key, n);
    if n < KEY_SIZE {
      ValueAtLeast(key[n..]);
      ValueBound(key[n..]);
      DigitCountOfBytes(ValueOf(key), KEY_SIZE - n);
    } else {
      NoDigitsOfNothing(key[n..]);
    }
  }

  lemma NoDigitsOfNothing(b: seq<byte>)
    ensures b == [] ==> Digits(ValueOf(b)) == []
  {
  }
}
