/** Chunked program upload: loader write instructions and the largest payload that fits one transaction
    (src/system-instructions/loader-instructions.ts). */
module Loader {
  import opened Prelude
  import opened Borsh
  import opened LittleEndian
  import opened TypedArrays
  import opened Instructions
  import opened CompiledKeyTables
  import opened SanitizedMessages
  import opened MessageRoles
  import opened MessageMeaning
  import opened MessageOnWire
  import opened Wire

  const BPF_LOADER_PROGRAM_ID: Pubkey := [
    2, 197, 178, 216, 231, 45, 42, 178, 55, 139, 51, 119, 73, 71, 125, 120, 122,
    208, 19, 239, 94, 121, 232, 49, 230, 137, 68, 140, 0, 0, 0, 0]

  const WRITE := 0  // the discriminant of LoaderInstruction.Write

  function U32ToLeBytes(num: int): seq<byte> {
    LowBytes(num, 4)
  }

  function WriteBytes(bytes: seq<byte>): seq<byte> {
    U64ToLeBytes(|bytes|) + bytes
  }

  method EncodeWriteBytes(bytes: seq<byte>) returns (data: array<byte>)
    ensures fresh(data) && data[..] == WriteBytes(bytes)
  {
    var len := U64ToLeBytes(|bytes|);
    data := new byte[|len| + |bytes|];
    Set(data, len, 0);
    Set(data, bytes, |len|);
  }

  function Write(programAccount: Pubkey, authority: Pubkey, offset: int, bytes: seq<byte>): Instruction {
    Instruction(
      BPF_LOADER_PROGRAM_ID,
      [AccountMeta(programAccount, false, true), AccountMeta(authority, true, false)],
      U32ToLeBytes(WRITE) + U32ToLeBytes(offset) + WriteBytes(bytes))
  }

  /** The message of a single write. */
  ghost function WriteMessage(program: Pubkey, authority: Pubkey, offset: int, bytes: seq<byte>,
                              payer: Option<Pubkey>, recentBlockhash: seq<byte>): Result<SanitizedMessage, CreateError>
  {
    MessageOf([Write(program, authority, offset, bytes)], payer, recentBlockhash)
  }

  function Filled(b: byte, n: nat): (s: seq<byte>)
    ensures |s| == n && forall i :: 0 <= i < n ==> s[i] == b
  {
    seq(n, i => b)
  }

  /** The payload bound, computed as the source does: what an empty write leaves of the limit. */
  ghost function ExtendBytesMaxLen(): Result<int, CreateError> {
    var message := WriteMessage(Filled(1, 32), Filled(2, 32), 0, [], None, Filled(0, 32));
    if message.Err? then Err(message.error)
    else Ok(RUNTIME_TX_SIZE_LIMIT - |Serialize(RuntimeTransaction(0, [Filled(0, 64)], message.value)).value|)
  }

  // ---------- the bytes of a write ----------

  /** The data of a write: variant 0, the offset, the payload's length in eight bytes, the payload; for the loader
      program, the program account writable, the authority signing. */
  lemma WriteLayout(program: Pubkey, authority: Pubkey, offset: int, bytes: seq<byte>)
    ensures var ix := Write(program, authority, offset, bytes); var d := ix.data;
            && ix.programId == BPF_LOADER_PROGRAM_ID
            && ix.accounts == [AccountMeta(program, false, true), AccountMeta(authority, true, false)]
            && |d| == 16 + |bytes|
            && NumberOf(d[0..4]) == 0
            && NumberOf(d[4..8]) == offset % 0x1_0000_0000
            && NumberOf(d[8..16]) == |bytes| % 0x1_0000_0000_0000_0000
            && d[16..] == bytes
  {
    hide NumberOf, LowBytes, U64ToLeBytes, Pow256;
    FourBytePower();
    NumberOfLowBytes(WRITE, 4);
    NumberOfLowBytes(offset, 4);
    U64ToLeBytesMeaning(|bytes|);
    Slices(U32ToLeBytes(WRITE), U32ToLeBytes(offset), U64ToLeBytes(|bytes|), bytes);
    var d := Write(program, authority, offset, bytes).data;
    assert d == U32ToLeBytes(WRITE) + U32ToLeBytes(offset) + U64ToLeBytes(|bytes|) + bytes;
  }

  /** In the message of a write exactly the authority and the payer sign, and exactly the program account and the payer
      are writable. */
  lemma WriteRoles(program: Pubkey, authority: Pubkey, offset: int, bytes: seq<byte>,
                   payer: Option<Pubkey>, recentBlockhash: seq<byte>, i: nat)
    requires WriteMessage(program, authority, offset, bytes, payer, recentBlockhash).Ok?
    requires i < |WriteMessage(program, authority, offset, bytes, payer, recentBlockhash).value.accountKeys|
    ensures var m := WriteMessage(program, authority, offset, bytes, payer, recentBlockhash).value;
            var k := m.accountKeys[i];
            && (SignerAt(m.header, i) <==> k == authority || payer == Some(k))
            && (WritableAt(m.header, |m.accountKeys|, i) <==> k == program || payer == Some(k))
  {
    hide MessageOf, SignerAt, WritableAt, BPF_LOADER_PROGRAM_ID;
    var ix := Write(program, authority, offset, bytes);
    var k := WriteMessage(program, authority, offset, bytes, payer, recentBlockhash).value.accountKeys[i];
    HeaderRolesAreLeast([ix], payer, recentBlockhash, i);
    assert ix.accounts[0] == AccountMeta(program, false, true) && ix.accounts[1] == AccountMeta(authority, true, false);
    assert AsksSigner(ix, k) <==> k == authority;
    assert AsksWritable(ix, k) <==> k == program;
    assert [ix][0] == ix;
  }

  // ---------- the keys of a write ----------

  ghost function WriteKeys(program: Pubkey, authority: Pubkey, payer: Option<Pubkey>): set<Pubkey> {
    {BPF_LOADER_PROGRAM_ID, program, authority} + (if payer.Some? then {payer.value} else {})
  }

  lemma WriteNames(program: Pubkey, authority: Pubkey, offset: int, bytes: seq<byte>, k: Pubkey)
    ensures Names(Write(program, authority, offset, bytes), k)
       <==> k == BPF_LOADER_PROGRAM_ID || k == program || k == authority
  {
    var ix := Write(program, authority, offset, bytes);
    assert ix.accounts[0].pubkey == program && ix.accounts[1].pubkey == authority;
  }

  lemma WriteNamedKeys(program: Pubkey, authority: Pubkey, offset: int, bytes: seq<byte>, payer: Option<Pubkey>)
    ensures NamedKeys([Write(program, authority, offset, bytes)], payer) == WriteKeys(program, authority, payer)
  {
    hide Names, Write;
    var ixs := [Write(program, authority, offset, bytes)];
    forall k ensures k in NamedKeys(ixs, payer) <==> k in WriteKeys(program, authority, payer) {
      WriteNames(program, authority, offset, bytes, k);
      assert Names(ixs[0], k) ==> Named(ixs, payer, k);
    }
  }

  lemma WriteCompiles(program: Pubkey, authority: Pubkey, offset: int, bytes: seq<byte>,
                      payer: Option<Pubkey>, recentBlockhash: seq<byte>)
    ensures WriteMessage(program, authority, offset, bytes, payer, recentBlockhash).Ok?
  {
    hide NamedKeys, Write, GrantsSigner, GrantsWritable, MessageOf;
    var ixs := [Write(program, authority, offset, bytes)];
    WriteNamedKeys(program, authority, offset, bytes, payer);
    SubsetCardinality(SignerKeys(ixs, payer), NamedKeys(ixs, payer));
    SubsetCardinality(ReadonlyNonSignerKeys(ixs, payer), NamedKeys(ixs, payer));
    SucceedsIffCountsFit(ixs, payer, recentBlockhash);
  }

  // ---------- the size of a write transaction ----------

  lemma WriteDataSize(program: Pubkey, authority: Pubkey, offset: int, bytes: seq<byte>)
    ensures |Write(program, authority, offset, bytes).data| == 16 + |bytes|
    ensures |Write(program, authority, offset, bytes).accounts| == 2
  {
  }

  /** The exact size, for any keys, payer, offset and payload: 139 bytes, 32 for each distinct key, and the payload. */
  lemma WriteTransactionSize(program: Pubkey, authority: Pubkey, offset: int, bytes: seq<byte>,
                             payer: Option<Pubkey>, recentBlockhash: seq<byte>, version: nat, signature: seq<byte>)
    requires |program| == 32 && |authority| == 32 && (payer.Some? ==> |payer.value| == 32)
    requires |recentBlockhash| == 32 && |signature| == 64
    ensures var message := WriteMessage(program, authority, offset, bytes, payer, recentBlockhash);
            && message.Ok?
            && var bytes' := Serialize(RuntimeTransaction(version, [signature], message.value));
               bytes'.Ok? && |bytes'.value| == 139 + 32 * |WriteKeys(program, authority, payer)| + |bytes|
  {
    hide MessageOf, Write, NamedKeys, Serialize;
    var ixs := [Write(program, authority, offset, bytes)];
    WriteCompiles(program, authority, offset, bytes, payer, recentBlockhash);
    var m := WriteMessage(program, authority, offset, bytes, payer, recentBlockhash).value;
    WriteMessageShape(program, authority, offset, bytes, payer, recentBlockhash);
    OneSignatureSerializes(version, signature, m);
    SerializedSize(RuntimeTransaction(version, [signature], m));
  }

  lemma OneSignatureSerializes(version: nat, signature: seq<byte>, m: SanitizedMessage)
    ensures Serialize(RuntimeTransaction(version, [signature], m)).Ok?
  {
  }

  lemma WriteMessageShape(program: Pubkey, authority: Pubkey, offset: int, bytes: seq<byte>,
                          payer: Option<Pubkey>, recentBlockhash: seq<byte>)
    requires |program| == 32 && |authority| == 32 && (payer.Some? ==> |payer.value| == 32)
    requires WriteMessage(program, authority, offset, bytes, payer, recentBlockhash).Ok?
    ensures var m := WriteMessage(program, authority, offset, bytes, payer, recentBlockhash).value;
            && m.recentBlockhash == recentBlockhash
            && |m.accountKeys| == |WriteKeys(program, authority, payer)| && AllOfLength(m.accountKeys, 32)
            && InstructionsSize(m.instructions) == 27 + |bytes|
  {
    hide MessageOf, Write, NamedKeys, Named, Resolvable;
    var ixs := [Write(program, authority, offset, bytes)];
    var m := MessageOf(ixs, payer, recentBlockhash).value;
    CompiledNumbersFit(ixs, payer, recentBlockhash);
    NamedCount(ixs, payer, recentBlockhash);
    WriteNamedKeys(program, authority, offset, bytes, payer);
    KeysAreExactlyTheNamed(ixs, payer, recentBlockhash);
    forall i | 0 <= i < |m.accountKeys| ensures |m.accountKeys[i]| == 32 {
      assert m.accountKeys[i] in m.accountKeys;
      assert m.accountKeys[i] in NamedKeys(ixs, payer);
    }
    InstructionsRefer(ixs, payer, recentBlockhash);
    assert Refers(m.instructions[0], ixs[0], m.accountKeys);
    WriteDataSize(program, authority, offset, bytes);
    assert m.instructions[1..] == [];
  }

  // ---------- main results ----------

  lemma ThreeKeys(a: Pubkey, b: Pubkey, c: Pubkey)
    ensures |{a, b, c}| <= 3
    ensures a != b && a != c && b != c ==> |{a, b, c}| == 3
  {
    assert {a, b, c} == {a} + {b} + {c};
  }

  /** The bound is 3861 bytes. */
  lemma ExtendBytesMaxLenValue()
    ensures ExtendBytesMaxLen() == Ok(3861)
  {
    hide MessageOf, Write, Serialize;
    var p, a: seq<byte> := Filled(1, 32), Filled(2, 32);
    WriteTransactionSize(p, a, 0, [], None, Filled(0, 32), 0, Filled(0, 64));
    assert BPF_LOADER_PROGRAM_ID[1] == 197 && p[1] == 1 && a[1] == 2;
    assert WriteKeys(p, a, None) == {BPF_LOADER_PROGRAM_ID, p, a};
    ThreeKeys(BPF_LOADER_PROGRAM_ID, p, a);
  }

  /** A one-signature write fits the limit iff its payload is within the bound, adjusted by 32 bytes for each
      distinct key fewer or more than three. */
  lemma WriteFitsIff(program: Pubkey, authority: Pubkey, offset: int, bytes: seq<byte>,
                     payer: Option<Pubkey>, recentBlockhash: seq<byte>, version: nat, signature: seq<byte>)
    requires |program| == 32 && |authority| == 32 && (payer.Some? ==> |payer.value| == 32)
    requires |recentBlockhash| == 32 && |signature| == 64
    ensures var message := WriteMessage(program, authority, offset, bytes, payer, recentBlockhash);
            && message.Ok? && ExtendBytesMaxLen().Ok?
            && (CheckTxSizeLimit(RuntimeTransaction(version, [signature], message.value)) == Fits
                <==> |bytes| <= ExtendBytesMaxLen().value + 32 * (3 - |WriteKeys(program, authority, payer)|))
  {
    hide MessageOf, Write, Serialize, WriteKeys, WriteMessage, ExtendBytesMaxLen;
    WriteTransactionSize(program, authority, offset, bytes, payer, recentBlockhash, version, signature);
    ExtendBytesMaxLenValue();
  }

  /** The documented use, payer absent or the authority: with three distinct keys the bound is exact, and with
      fewer it is still safe. */
  lemma ExtendBytesMaxLenIsTight(program: Pubkey, authority: Pubkey, offset: int, bytes: seq<byte>,
                                 payer: Option<Pubkey>, recentBlockhash: seq<byte>, version: nat, signature: seq<byte>)
    requires |program| == 32 && |authority| == 32 && (payer == None || payer == Some(authority))
    requires |recentBlockhash| == 32 && |signature| == 64
    ensures var message := WriteMessage(program, authority, offset, bytes, payer, recentBlockhash);
            && message.Ok? && ExtendBytesMaxLen().Ok?
            && var check := CheckTxSizeLimit(RuntimeTransaction(version, [signature], message.value));
               && (|bytes| <= ExtendBytesMaxLen().value ==> check == Fits)
               && (check == Fits && program != authority && BPF_LOADER_PROGRAM_ID !in {program, authority}
                   ==> |bytes| <= ExtendBytesMaxLen().value)
  {
    hide MessageOf, Write, Serialize, WriteMessage, ExtendBytesMaxLen, CheckTxSizeLimit;
    WriteFitsIff(program, authority, offset, bytes, payer, recentBlockhash, version, signature);
    assert WriteKeys(program, authority, payer) == {BPF_LOADER_PROGRAM_ID, program, authority};
    ThreeKeys(BPF_LOADER_PROGRAM_ID, program, authority);
  }
}
