/** The address of the loader program (src/constants.ts) in base58, as it is published. */
module LoaderAddress {
  import opened Prelude
  import opened LittleEndian
  import opened BigEndian
  import opened Base58
  import opened Base58Laws
  import Loader

  lemma {:induction false} ValueOfConcat(a: seq<byte>, b: seq<byte>)
    ensures ValueOf(a + b) == ValueOf(a) * Pow256(|b|) + ValueOf(b)
  {
    if b == [] {
      assert a + b == a;
    } else {
      var init, last := b[..|b| - 1], b[|b| - 1];
      ValueOfConcat(a, init);
      assert (a + b)[..|a + b| - 1] == a + init;
      assert ValueOf(a) * Pow256(|b|) == 256 * (ValueOf(a) * Pow256(|init|));
    }
  }

  lemma Spelled(text: string, d: digit)
    requires InAlphabet(text)
    ensures InAlphabet(text + [CharOf(d)]) && TextValue(text + [CharOf(d)]) == 58 * TextValue(text) + d
  {
    hide CharIndex, Base58Char;
    AlphabetChars(d);
    CharIndexOfChar(d);
    CharIndexMeaning(CharOf(d));
    var t := text + [CharOf(d)];
    assert t[..|t| - 1] == text;
  }

  lemma {:induction false} SpelledBeforeOnes(text: string, n: nat)
    requires InAlphabet(text)
    ensures InAlphabet(text + Ones(n)) && TextValue(text + Ones(n)) == TextValue(text) * Pow58(n)
  {
    hide InAlphabet, TextValue;
    if n == 0 {
      assert text + Ones(n) == text;
    } else {
      SpelledBeforeOnes(text, n - 1);
      Spelled(text + Ones(n - 1), 0);
      assert text + Ones(n) == text + Ones(n - 1) + [CharOf(0)];
      assert TextValue(text) * Pow58(n) == 58 * (TextValue(text) * Pow58(n - 1));
    }
  }

  lemma LettersSpelled()
    ensures InAlphabet("BpfLoader") && TextValue("BpfLoader") == 1385865681271179
  {
    hide TextValue, InAlphabet;
    var digits: seq<digit> := [10, 47, 38, 19, 46, 33, 36, 37, 49];
    var values := [0, 10, 627, 36404, 2111451, 122464204, 7102923865, 411969584206, 23894235883985, 1385865681271179];
    var text := "";
    NothingSpelled();
    for k := 0 to 9
      invariant |text| == k && forall i :: 0 <= i < k ==> text[i] == CharOf(digits[i])
      invariant InAlphabet(text) && TextValue(text) == values[k]
    {
      Spelled(text, digits[k]);
      text := text + [CharOf(digits[k])];
    }
    assert text == "BpfLoader";
  }

  lemma NothingSpelled()
    ensures InAlphabet("") && TextValue("") == 0
  {
  }

  lemma PowersOf58()
    ensures Pow58(34) == 904798310844700775313327215140493940623303545877497699631104
  {
    assert Pow58(8) == 128063081718016;
    assert Pow58(9) == 7427658739644928;
    Pow58Add(8, 9);
    Pow58Add(17, 17);
  }

  lemma FourBytesValue(a: byte, b: byte, c: byte, d: byte)
    ensures ValueOf([a, b, c, d]) == 16777216 * (a as nat) + 65536 * (b as nat) + 256 * (c as nat) + d
  {
    assert [a][..0] == [] && ValueOf([a]) == a;
    assert [a, b][..1] == [a] && ValueOf([a, b]) == 256 * (a as nat) + b;
    assert [a, b, c][..2] == [a, b];
    assert ValueOf([a, b, c]) == 65536 * (a as nat) + 256 * (b as nat) + c;
    assert [a, b, c, d][..3] == [a, b, c];
  }

  lemma AppendFour(prefix: seq<byte>, a: byte, b: byte, c: byte, d: byte)
    ensures ValueOf(prefix + [a, b, c, d]) ==
      0x1_0000_0000 * ValueOf(prefix) + 16777216 * (a as nat) + 65536 * (b as nat) + 256 * (c as nat) + d
  {
    hide ValueOf, Pow256;
    FourBytePower();
    ValueOfConcat(prefix, [a, b, c, d]);
    FourBytesValue(a, b, c, d);
  }

  lemma FirstHalf()
    ensures ValueOf([2, 197, 178, 216, 231, 45, 42, 178, 55, 139, 51, 119, 73, 71, 125, 120]) ==
      3684965926439386424588948828596960632
  {
    hide ValueOf;
    NothingValue();
    AppendFour([], 2, 197, 178, 216);
    AppendFour([] + [2, 197, 178, 216], 231, 45, 42, 178);
    AppendFour([] + [2, 197, 178, 216] + [231, 45, 42, 178], 55, 139, 51, 119);
    AppendFour([] + [2, 197, 178, 216] + [231, 45, 42, 178] + [55, 139, 51, 119], 73, 71, 125, 120);
    assert [2, 197, 178, 216, 231, 45, 42, 178, 55, 139, 51, 119, 73, 71, 125, 120] ==
      [] + [2, 197, 178, 216] + [231, 45, 42, 178] + [55, 139, 51, 119] + [73, 71, 125, 120];
  }

  lemma SecondHalf()
    ensures ValueOf([122, 208, 19, 239, 94, 121, 232, 49, 230, 137, 68, 140, 0, 0, 0, 0]) ==
      163246217562887258388819720473803751424
  {
    hide ValueOf;
    NothingValue();
    AppendFour([], 122, 208, 19, 239);
    AppendFour([] + [122, 208, 19, 239], 94, 121, 232, 49);
    AppendFour([] + [122, 208, 19, 239] + [94, 121, 232, 49], 230, 137, 68, 140);
    AppendFour([] + [122, 208, 19, 239] + [94, 121, 232, 49] + [230, 137, 68, 140], 0, 0, 0, 0);
    assert [122, 208, 19, 239, 94, 121, 232, 49, 230, 137, 68, 140, 0, 0, 0, 0] ==
      [] + [122, 208, 19, 239] + [94, 121, 232, 49] + [230, 137, 68, 140] + [0, 0, 0, 0];
  }

  lemma SixteenBytePower()
    ensures Pow256(16) == 0x1_0000_0000_0000_0000_0000_0000_0000_0000
  {
    hide Pow256;
    FourBytePower();
    Pow256Add(4, 4);
    Pow256Add(8, 8);
  }

  lemma ProgramIdValue()
    ensures ValueOf(Loader.BPF_LOADER_PROGRAM_ID) ==
      1253928927471803226357387320935206906572872139401519924342707342430087151616
  {
    hide ValueOf, Pow256;
    FirstHalf();
    SecondHalf();
    SixteenBytePower();
    ValueOfConcat([2, 197, 178, 216, 231, 45, 42, 178, 55, 139, 51, 119, 73, 71, 125, 120],
                  [122, 208, 19, 239, 94, 121, 232, 49, 230, 137, 68, 140, 0, 0, 0, 0]);
    assert Loader.BPF_LOADER_PROGRAM_ID ==
      [2, 197, 178, 216, 231, 45, 42, 178, 55, 139, 51, 119, 73, 71, 125, 120]
      + [122, 208, 19, 239, 94, 121, 232, 49, 230, 137, 68, 140, 0, 0, 0, 0];
  }

  lemma NothingValue()
    ensures ValueOf([]) == 0
  {
  }

  /** The program id spells BpfLoader and then 34 ones. */
  lemma PublishedAddress()
    ensures Text(Loader.BPF_LOADER_PROGRAM_ID) == "BpfLoader" + Ones(34)
  {
    hide TextValue, InAlphabet, ValueOf, Spell, Digits, Pow58;
    var id, text := Loader.BPF_LOADER_PROGRAM_ID, "BpfLoader" + Ones(34);
    LettersSpelled();
    SpelledBeforeOnes("BpfLoader", 34);
    PowersOf58();
    ProgramIdValue();
    TextIsSpelledValue(text);
    assert LeadingZeros(id) == 0;
    assert Text(id) == Ones(0) + text;
  }
}
