/** From instructions to bytes and back: what the bytes of a compiled message determine. */
module MessageOnWire {
  import opened Prelude
  import opened Instructions
  import opened CompiledKeyTables
  import opened SanitizedMessages
  import opened MessageRoles
  import opened MessageMeaning
  import opened Wire

  /** The sizes that JavaScript arrays and 32-byte keys impose on a caller. */
  ghost predicate InputFits(ixs: seq<Instruction>, payer: Option<Pubkey>, recentBlockhash: seq<byte>) {
    && (forall k :: Named(ixs, payer, k) ==> |k| == 32)
    && |recentBlockhash| == 32
    && |ixs| < 0x1_0000_0000
    && forall i :: 0 <= i < |ixs| ==> |ixs[i].accounts| < 0x1_0000_0000 && |ixs[i].data| < 0x1_0000_0000
  }

  predicate IndicesFit(ix: SanitizedInstruction) {
    ix.programIdIndex < 256 && forall j :: 0 <= j < |ix.accounts| ==> ix.accounts[j] < 256
  }

  lemma InstructionIndicesFit(ix: Instruction, keys: seq<Pubkey>)
    requires IndexedInstruction(ix, keys).Ok?
    ensures IndicesFit(IndexedInstruction(ix, keys).value)
  {
    hide IndexedAccounts, IndexedKey;
    var s := IndexedInstruction(ix, keys).value;
    forall j | 0 <= j < |s.accounts| ensures s.accounts[j] < 256 {
      assert s.accounts[j] in s.accounts;
    }
  }

  lemma {:induction false} IndicesAreBytes(ixs: seq<Instruction>, keys: seq<Pubkey>)
    requires IndexedInstructions(ixs, keys).Ok?
    ensures var r := IndexedInstructions(ixs, keys).value; forall i :: 0 <= i < |r| ==> IndicesFit(r[i])
  {
    hide IndexedInstruction, IndicesFit;
    if ixs == [] {
    } else {
      IndicesAreBytes(ixs[..|ixs| - 1], keys);
      InstructionIndicesFit(ixs[|ixs| - 1], keys);
    }
  }

  lemma HeaderCountsAreBytes(t: Table, payer: Option<Pubkey>)
    requires t.Valid() && ComponentsOf(t, payer).Ok?
    ensures var h := ComponentsOf(t, payer).value.header;
            h.numRequiredSignatures < 256 && h.numReadonlySigned < 256 && h.numReadonlyUnsigned < 256
  {
  }

  lemma CompiledNumbersFit(ixs: seq<Instruction>, payer: Option<Pubkey>, recentBlockhash: seq<byte>)
    requires MessageOf(ixs, payer, recentBlockhash).Ok?
    ensures var m := MessageOf(ixs, payer, recentBlockhash).value;
            && m.recentBlockhash == recentBlockhash
            && m.header.numRequiredSignatures < 256 && m.header.numReadonlySigned < 256
            && m.header.numReadonlyUnsigned < 256
            && forall i :: 0 <= i < |m.instructions| ==> IndicesFit(m.instructions[i])
  {
    hide Summary, Mentions, IndexedInstructions, ComponentsOf, IndicesFit;
    HeaderCountsAreBytes(Summary(Mentions(ixs, payer)), payer);
    IndicesAreBytes(ixs, MessageOf(ixs, payer, recentBlockhash).value.accountKeys);
  }

  /** Every message the compiler produces from inputs of these sizes fits its wire widths: nothing is cut. */
  lemma CompiledMessageFits(ixs: seq<Instruction>, payer: Option<Pubkey>, recentBlockhash: seq<byte>)
    requires InputFits(ixs, payer, recentBlockhash) && MessageOf(ixs, payer, recentBlockhash).Ok?
    ensures MessageFits(MessageOf(ixs, payer, recentBlockhash).value)
  {
    hide MessageOf, Summary, Mentions, Named, NamedKeys, SignerKeys, ReadonlyNonSignerKeys, ComponentsOf, Resolvable;
    var m := MessageOf(ixs, payer, recentBlockhash).value;
    CompiledNumbersFit(ixs, payer, recentBlockhash);
    KeysAreExactlyTheNamed(ixs, payer, recentBlockhash);
    InstructionsRefer(ixs, payer, recentBlockhash);
    SucceedsIffCountsFit(ixs, payer, recentBlockhash);
    NamedCount(ixs, payer, recentBlockhash);
    forall i | 0 <= i < |m.accountKeys| ensures |m.accountKeys[i]| == 32 {
      assert m.accountKeys[i] in m.accountKeys;
    }
    forall i | 0 <= i < |m.instructions| ensures InstructionFits(m.instructions[i]) {
      assert Refers(m.instructions[i], ixs[i], m.accountKeys) && IndicesFit(m.instructions[i]);
    }
  }

  lemma NamedCount(ixs: seq<Instruction>, payer: Option<Pubkey>, recentBlockhash: seq<byte>)
    requires MessageOf(ixs, payer, recentBlockhash).Ok?
    ensures |MessageOf(ixs, payer, recentBlockhash).value.accountKeys| == |NamedKeys(ixs, payer)|
  {
    KeyCount(ixs, payer);
    ComponentsOutcome(Summary(Mentions(ixs, payer)), payer);
  }

  /** Compile, serialize, parse, decompile: the reader gets the same programs, accounts and data, with exactly the
      union of the roles asked for. */
  lemma WireCarriesMeaning(ixs: seq<Instruction>, payer: Option<Pubkey>, recentBlockhash: seq<byte>, suffix: seq<byte>)
    requires InputFits(ixs, payer, recentBlockhash) && MessageOf(ixs, payer, recentBlockhash).Ok?
    ensures var r := ParseMessage(SerializeMessage(MessageOf(ixs, payer, recentBlockhash).value) + suffix);
            && r.Parsed? && r.rest == suffix
            && Resolvable(r.value) && r.value.recentBlockhash == recentBlockhash
            && Decompile(r.value) == Promoted(ixs, payer)
  {
    CompiledMessageFits(ixs, payer, recentBlockhash);
    DecompileCompile(ixs, payer, recentBlockhash);
    hide MessageOf, Promoted, MessageFits;
    MessageParses(MessageOf(ixs, payer, recentBlockhash).value, suffix);
  }

  /** The bytes to be signed are the same exactly when the instructions mean the same. */
  lemma SameBytesIffSameMeaning(ixs: seq<Instruction>, ixs': seq<Instruction>, payer: Option<Pubkey>,
                                hash: seq<byte>, hash': seq<byte>)
    requires InputFits(ixs, payer, hash) && MessageOf(ixs, payer, hash).Ok?
    requires InputFits(ixs', payer, hash') && MessageOf(ixs', payer, hash').Ok?
    ensures SerializeMessage(MessageOf(ixs, payer, hash).value) == SerializeMessage(MessageOf(ixs', payer, hash').value)
       <==> Promoted(ixs, payer) == Promoted(ixs', payer) && hash == hash'
  {
    WireCarriesMeaning(ixs, payer, hash, []);
    WireCarriesMeaning(ixs', payer, hash', []);
    SameMessageIffSameMeaning(ixs, ixs', payer, hash);
  }
}
