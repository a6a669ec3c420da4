/** Compilation succeeds exactly when the counts fit, preserves meaning, and is stable under recompilation. */
module MessageMeaning {
  import opened Prelude
  import opened OrderedMaps
  import opened Instructions
  import opened CompiledKeyTables
  import opened SanitizedMessages
  import opened MessageRoles

  // ---------- indexing a list of instructions against a complete key list ----------

  ghost predicate Covers(keys: seq<Pubkey>, ixs: seq<Instruction>) {
    forall k :: Named(ixs, None, k) ==> k in keys
  }

  /** `s` is `ix` with every key replaced by its position in `keys`. */
  ghost predicate Refers(s: SanitizedInstruction, ix: Instruction, keys: seq<Pubkey>) {
    && s.data == ix.data
    && s.programIdIndex < |keys| && keys[s.programIdIndex] == ix.programId
    && |s.accounts| == |ix.accounts|
    && forall j :: 0 <= j < |s.accounts| ==> s.accounts[j] < |keys| && keys[s.accounts[j]] == ix.accounts[j].pubkey
  }

  lemma {:induction false} IndexedAccountsMeaning(accounts: seq<AccountMeta>, keys: seq<Pubkey>)
    requires forall j :: 0 <= j < |accounts| ==> accounts[j].pubkey in keys
    ensures IndexedAccounts(accounts, keys) ==
      Ok(seq(|accounts|, j requires 0 <= j < |accounts| => IndexOf(keys, accounts[j].pubkey)))
  {
    if accounts == [] {
      assert [] == seq(|accounts|, j requires 0 <= j < |accounts| => IndexOf(keys, accounts[j].pubkey));
    } else {
      var init := accounts[..|accounts| - 1];
      IndexedAccountsMeaning(init, keys);
      assert forall j :: 0 <= j < |init| ==> accounts[j] == init[j];
      var all := seq(|accounts|, j requires 0 <= j < |accounts| => IndexOf(keys, accounts[j].pubkey));
      assert IndexedAccounts(accounts, keys).value == all;
    }
  }

  lemma IndexedInstructionMeaning(ix: Instruction, keys: seq<Pubkey>)
    requires forall k :: Names(ix, k) ==> k in keys
    ensures var r := IndexedInstruction(ix, keys);
            && (r.Ok? <==> forall k :: Names(ix, k) ==> IndexOf(keys, k) <= 255)
            && (r.Err? ==> r.error == OVERFLOW)
            && (r.Ok? ==> Refers(r.value, ix, keys))
  {
    hide IndexedAccounts, IndexOf;
    forall j | 0 <= j < |ix.accounts| ensures ix.accounts[j].pubkey in keys {
      assert Names(ix, ix.accounts[j].pubkey);
    }
    assert Names(ix, ix.programId);
    IndexedAccountsMeaning(ix.accounts, keys);
    var indices := IndexedAccounts(ix.accounts, keys).value;
    if forall k :: Names(ix, k) ==> IndexOf(keys, k) <= 255 {
      forall a | a in indices ensures a <= 255 {
        var j :| 0 <= j < |indices| && indices[j] == a;
        assert Names(ix, ix.accounts[j].pubkey);
      }
    } else {
      var k :| Names(ix, k) && IndexOf(keys, k) > 255;
      if k != ix.programId {
        var j :| 0 <= j < |ix.accounts| && ix.accounts[j].pubkey == k;
        assert indices[j] == IndexOf(keys, k) && indices[j] in indices;
      }
    }
  }

  lemma {:induction false} IndexedInstructionsMeaning(ixs: seq<Instruction>, keys: seq<Pubkey>)
    requires Covers(keys, ixs)
    ensures var r := IndexedInstructions(ixs, keys);
            && (r.Ok? <==> forall k :: Named(ixs, None, k) ==> IndexOf(keys, k) <= 255)
            && (r.Err? ==> r.error == OVERFLOW)
            && (r.Ok? ==> forall i :: 0 <= i < |ixs| ==> Refers(r.value[i], ixs[i], keys))
  {
    if ixs == [] {
    } else {
      var init, last := ixs[..|ixs| - 1], ixs[|ixs| - 1];
      forall k ensures Named(ixs, None, k) <==> Named(init, None, k) || Names(last, k) {
        assert forall i :: 0 <= i < |init| ==> ixs[i] == init[i];
      }
      IndexedInstructionsMeaning(init, keys);
      IndexedInstructionMeaning(last, keys);
    }
  }

  /** The keys of a table suffice for its own instructions. */
  lemma KeyListCovers(ixs: seq<Instruction>, payer: Option<Pubkey>)
    ensures Covers(KeyList(Summary(Mentions(ixs, payer)), payer), ixs)
  {
    var t := Summary(Mentions(ixs, payer));
    SummaryHasPayer(ixs, payer);
    KeyListDistinct(t, payer);
    forall k | Named(ixs, None, k) ensures k in KeyList(t, payer) {
      TableMeaning(ixs, payer, k);
      assert k in Elements(KeyList(t, payer));
    }
  }

  // ---------- the exact success condition ----------

  ghost function NamedKeys(ixs: seq<Instruction>, payer: Option<Pubkey>): (s: set<Pubkey>)
    ensures forall k :: k in s <==> Named(ixs, payer, k)
  {
    forall k ensures k in Summary(Mentions(ixs, payer)).values.Keys <==> Named(ixs, payer, k) {
      TableMeaning(ixs, payer, k);
    }
    Summary(Mentions(ixs, payer)).values.Keys
  }

  ghost function SignerKeys(ixs: seq<Instruction>, payer: Option<Pubkey>): set<Pubkey> {
    set k | k in NamedKeys(ixs, payer) && GrantsSigner(ixs, payer, k)
  }

  ghost function ReadonlyNonSignerKeys(ixs: seq<Instruction>, payer: Option<Pubkey>): set<Pubkey> {
    set k | k in NamedKeys(ixs, payer) && !GrantsSigner(ixs, payer, k) && !GrantsWritable(ixs, payer, k)
  }

  lemma SignerCount(ixs: seq<Instruction>, payer: Option<Pubkey>)
    ensures var t := Summary(Mentions(ixs, payer));
            |WritableSigners(t, payer)| + |ReadonlySigners(t, payer)| == |SignerKeys(ixs, payer)|
  {
    hide Summary, Mentions, Bucket, GrantsSigner, Named, OrderedMap.Valid, HasPayer;
    var t := Summary(Mentions(ixs, payer));
    SummaryHasPayer(ixs, payer);
    KeyListDistinct(t, payer);
    var signers := WritableSigners(t, payer) + ReadonlySigners(t, payer);
    forall k ensures k in Elements(signers) <==> k in SignerKeys(ixs, payer) {
      TableMeaning(ixs, payer, k);
      GroupMeaning(t, payer, k);
    }
    assert Elements(signers) == SignerKeys(ixs, payer);
    NoDupCardinality(signers);
  }

  lemma ReadonlyNonSignerCount(ixs: seq<Instruction>, payer: Option<Pubkey>)
    ensures var t := Summary(Mentions(ixs, payer));
            |ReadonlyNonSigners(t, payer)| == |ReadonlyNonSignerKeys(ixs, payer)|
  {
    hide Summary, Mentions, ReadonlyNonSigners, GrantsSigner, GrantsWritable, Named, OrderedMap.Valid, HasPayer;
    var t := Summary(Mentions(ixs, payer));
    SummaryHasPayer(ixs, payer);
    GroupMeaning(t, payer, []);
    var rn := ReadonlyNonSigners(t, payer);
    forall k ensures k in Elements(rn) <==> k in ReadonlyNonSignerKeys(ixs, payer) {
      TableMeaning(ixs, payer, k);
      GroupMeaning(t, payer, k);
    }
    assert Elements(rn) == ReadonlyNonSignerKeys(ixs, payer);
    NoDupCardinality(rn);
  }

  lemma KeyCount(ixs: seq<Instruction>, payer: Option<Pubkey>)
    ensures |KeyList(Summary(Mentions(ixs, payer)), payer)| == |NamedKeys(ixs, payer)|
  {
    var t := Summary(Mentions(ixs, payer));
    SummaryHasPayer(ixs, payer);
    KeyListDistinct(t, payer);
    NoDupCardinality(KeyList(t, payer));
  }

  /** A key past position 255 is always referenced by an instruction: only the payer may be unreferenced,
      and it sits at position 0. */
  lemma LateKeyIsReferenced(ixs: seq<Instruction>, payer: Option<Pubkey>)
    ensures var keys := KeyList(Summary(Mentions(ixs, payer)), payer);
            (forall k :: Named(ixs, None, k) ==> IndexOf(keys, k) <= 255) <==> |keys| <= 256
  {
    var t := Summary(Mentions(ixs, payer));
    var keys := KeyList(t, payer);
    SummaryHasPayer(ixs, payer);
    KeyListDistinct(t, payer);
    KeyListCovers(ixs, payer);
    if |keys| > 256 {
      var k := keys[256];
      assert k in Elements(keys);
      TableMeaning(ixs, payer, k);
      IndexOfUnique(keys, 256);
      assert payer.Some? ==> keys[0] == payer.value;
      assert Named(ixs, None, k);
    }
  }

  /** A message is produced exactly when there are at most 256 keys, 255 signers and 255 read-only non-signers;
      the only other outcome is the overflow error, so the "not found" exception is unreachable. */
  lemma SucceedsIffCountsFit(ixs: seq<Instruction>, payer: Option<Pubkey>, recentBlockhash: seq<byte>)
    ensures var r := MessageOf(ixs, payer, recentBlockhash);
            && (r.Ok? <==>
                  && |NamedKeys(ixs, payer)| <= 256
                  && |SignerKeys(ixs, payer)| <= 255
                  && |ReadonlyNonSignerKeys(ixs, payer)| <= 255)
            && (r.Err? ==> r.error == OVERFLOW)
  {
    var t := Summary(Mentions(ixs, payer));
    var keys := KeyList(t, payer);
    ComponentsOutcome(t, payer);
    SignerCount(ixs, payer);
    ReadonlyNonSignerCount(ixs, payer);
    KeyCount(ixs, payer);
    SecondStageOutcome(ixs, payer);
  }

  lemma ComponentsOutcome(t: Table, payer: Option<Pubkey>)
    requires t.Valid()
    ensures var r := ComponentsOf(t, payer);
            && (r.Ok? <==> |WritableSigners(t, payer)| + |ReadonlySigners(t, payer)| <= 255
                           && |ReadonlyNonSigners(t, payer)| <= 255)
            && (r.Ok? ==> r.value.accountKeys == KeyList(t, payer))
            && (r.Err? ==> r.error == AccountIndexOverflow)
  {
  }

  lemma SecondStageOutcome(ixs: seq<Instruction>, payer: Option<Pubkey>)
    ensures var keys := KeyList(Summary(Mentions(ixs, payer)), payer);
            var r := IndexedInstructions(ixs, keys);
            (r.Ok? <==> |keys| <= 256) && (r.Err? ==> r.error == OVERFLOW)
  {
    KeyListCovers(ixs, payer);
    IndexedInstructionsMeaning(ixs, KeyList(Summary(Mentions(ixs, payer)), payer));
    LateKeyIsReferenced(ixs, payer);
  }

  // ---------- meaning ----------

  ghost predicate Resolvable(m: SanitizedMessage) {
    forall i :: 0 <= i < |m.instructions| ==>
      && m.instructions[i].programIdIndex < |m.accountKeys|
      && forall j :: 0 <= j < |m.instructions[i].accounts| ==> m.instructions[i].accounts[j] < |m.accountKeys|
  }

  function AccountAt(m: SanitizedMessage, i: nat): AccountMeta
    requires i < |m.accountKeys|
  {
    AccountMeta(m.accountKeys[i], SignerAt(m.header, i), WritableAt(m.header, |m.accountKeys|, i))
  }

  /** What a reader of the message understands: keys by index, roles from the header. */
  ghost function Decompile(m: SanitizedMessage): seq<Instruction>
    requires Resolvable(m)
  {
    seq(|m.instructions|, i requires 0 <= i < |m.instructions| =>
      var s := m.instructions[i];
      Instruction(m.accountKeys[s.programIdIndex],
                  seq(|s.accounts|, j requires 0 <= j < |s.accounts| => AccountAt(m, s.accounts[j])),
                  s.data))
  }

  ghost function PromotedAccount(ixs: seq<Instruction>, payer: Option<Pubkey>, a: AccountMeta): AccountMeta {
    AccountMeta(a.pubkey, GrantsSigner(ixs, payer, a.pubkey), GrantsWritable(ixs, payer, a.pubkey))
  }

  ghost function PromotedAccounts(ixs: seq<Instruction>, payer: Option<Pubkey>, accounts: seq<AccountMeta>):
      seq<AccountMeta>
  {
    seq(|accounts|, j requires 0 <= j < |accounts| => PromotedAccount(ixs, payer, accounts[j]))
  }

  ghost function PromotedInstruction(ixs: seq<Instruction>, payer: Option<Pubkey>, ix: Instruction): Instruction {
    Instruction(ix.programId, PromotedAccounts(ixs, payer, ix.accounts), ix.data)
  }

  /** The instructions of `part`, with every account entry carrying all the roles that `ixs` and the payer grant
      to its key anywhere. */
  ghost function PromotedPart(ixs: seq<Instruction>, payer: Option<Pubkey>, part: seq<Instruction>): seq<Instruction> {
    seq(|part|, i requires 0 <= i < |part| => PromotedInstruction(ixs, payer, part[i]))
  }

  ghost function Promoted(ixs: seq<Instruction>, payer: Option<Pubkey>): seq<Instruction> {
    PromotedPart(ixs, payer, ixs)
  }

  lemma InstructionsRefer(ixs: seq<Instruction>, payer: Option<Pubkey>, recentBlockhash: seq<byte>)
    requires MessageOf(ixs, payer, recentBlockhash).Ok?
    ensures var m := MessageOf(ixs, payer, recentBlockhash).value;
            && |m.instructions| == |ixs|
            && (forall i :: 0 <= i < |ixs| ==> Refers(m.instructions[i], ixs[i], m.accountKeys))
            && Resolvable(m) && m.recentBlockhash == recentBlockhash
  {
    KeyListCovers(ixs, payer);
    IndexedInstructionsMeaning(ixs, KeyList(Summary(Mentions(ixs, payer)), payer));
  }

  /** Compilation preserves meaning: programs, account keys in order, and data come back unchanged, and each
      account has exactly the union of the roles asked for. */
  lemma DecompileCompile(ixs: seq<Instruction>, payer: Option<Pubkey>, recentBlockhash: seq<byte>)
    requires MessageOf(ixs, payer, recentBlockhash).Ok?
    ensures var m := MessageOf(ixs, payer, recentBlockhash).value;
            Resolvable(m) && m.recentBlockhash == recentBlockhash && Decompile(m) == Promoted(ixs, payer)
  {
    hide MessageOf, GrantsSigner, GrantsWritable, SignerAt, WritableAt;
    var m := MessageOf(ixs, payer, recentBlockhash).value;
    InstructionsRefer(ixs, payer, recentBlockhash);
    forall i | 0 <= i < |ixs| ensures Decompile(m)[i] == Promoted(ixs, payer)[i] {
      var s, ix := m.instructions[i], ixs[i];
      assert Refers(s, ix, m.accountKeys);
      forall j | 0 <= j < |ix.accounts|
        ensures AccountAt(m, s.accounts[j]) == PromotedAccount(ixs, payer, ix.accounts[j])
      {
        HeaderRolesAreLeast(ixs, payer, recentBlockhash, s.accounts[j]);
      }
      assert Decompile(m)[i].accounts == Promoted(ixs, payer)[i].accounts;
    }
  }

  // ---------- recompiling ----------

  lemma PromotedInstructionSame(ixs: seq<Instruction>, payer: Option<Pubkey>, i: nat, k: Pubkey)
    requires i < |ixs|
    ensures Names(Promoted(ixs, payer)[i], k) <==> Names(ixs[i], k)
    ensures AsksSigner(Promoted(ixs, payer)[i], k) ==> GrantsSigner(ixs, payer, k)
    ensures AsksSigner(ixs[i], k) ==> AsksSigner(Promoted(ixs, payer)[i], k)
    ensures AsksWritable(Promoted(ixs, payer)[i], k) ==> GrantsWritable(ixs, payer, k)
    ensures AsksWritable(ixs[i], k) ==> AsksWritable(Promoted(ixs, payer)[i], k)
  {
    var ix, p := ixs[i], Promoted(ixs, payer)[i];
    assert p == PromotedInstruction(ixs, payer, ix);
    forall j | 0 <= j < |ix.accounts|
      ensures p.accounts[j].pubkey == ix.accounts[j].pubkey
      ensures p.accounts[j].isSigner == GrantsSigner(ixs, payer, ix.accounts[j].pubkey)
      ensures p.accounts[j].isWritable == GrantsWritable(ixs, payer, ix.accounts[j].pubkey)
      ensures ix.accounts[j].isSigner ==> AsksSigner(ix, ix.accounts[j].pubkey)
      ensures ix.accounts[j].isWritable ==> AsksWritable(ix, ix.accounts[j].pubkey)
    {
    }
  }

  /** Promoting grants no new role and drops none. */
  lemma PromotedGrantsTheSame(ixs: seq<Instruction>, payer: Option<Pubkey>, k: Pubkey)
    ensures Named(Promoted(ixs, payer), payer, k) <==> Named(ixs, payer, k)
    ensures GrantsSigner(Promoted(ixs, payer), payer, k) <==> GrantsSigner(ixs, payer, k)
    ensures GrantsWritable(Promoted(ixs, payer), payer, k) <==> GrantsWritable(ixs, payer, k)
  {
    forall i | 0 <= i < |ixs|
      ensures Names(Promoted(ixs, payer)[i], k) <==> Names(ixs[i], k)
      ensures AsksSigner(Promoted(ixs, payer)[i], k) ==> GrantsSigner(ixs, payer, k)
      ensures AsksSigner(ixs[i], k) ==> AsksSigner(Promoted(ixs, payer)[i], k)
      ensures AsksWritable(Promoted(ixs, payer)[i], k) ==> GrantsWritable(ixs, payer, k)
      ensures AsksWritable(ixs[i], k) ==> AsksWritable(Promoted(ixs, payer)[i], k)
    {
      PromotedInstructionSame(ixs, payer, i, k);
    }
  }

  /** The same keys, invoked in the same places. */
  ghost predicate SameOccurrences(a: seq<Mention>, b: seq<Mention>) {
    |a| == |b| && forall i :: 0 <= i < |a| ==> a[i].key == b[i].key && a[i].roles.invoked == b[i].roles.invoked
  }

  lemma {:induction false} SameFirstMentions(a: seq<Mention>, b: seq<Mention>)
    requires SameOccurrences(a, b)
    ensures FirstMentions(a) == FirstMentions(b)
  {
    if a == [] {
    } else {
      SameFirstMentions(a[..|a| - 1], b[..|b| - 1]);
    }
  }

  lemma {:induction false} PromotedOccurrences(ixs: seq<Instruction>, payer: Option<Pubkey>, part: seq<Instruction>)
    ensures SameOccurrences(AllMentions(PromotedPart(ixs, payer, part)), AllMentions(part))
  {
    hide SameOccurrences, InstructionMentions, PromotedInstruction;
    if part == [] {
      assert PromotedPart(ixs, payer, part) == [];
      NoOccurrences();
    } else {
      var init := part[..|part| - 1];
      var promoted := PromotedPart(ixs, payer, part);
      PromotedOccurrences(ixs, payer, init);
      assert promoted[..|promoted| - 1] == PromotedPart(ixs, payer, init);
      PromotedInstructionOccurrences(ixs, payer, part[|part| - 1]);
      SameOccurrencesConcat(AllMentions(PromotedPart(ixs, payer, init)), AllMentions(init),
                            InstructionMentions(promoted[|part| - 1]), InstructionMentions(part[|part| - 1]));
    }
  }

  lemma NoOccurrences()
    ensures SameOccurrences([], [])
  {
  }

  lemma SameOccurrencesConcat(a: seq<Mention>, b: seq<Mention>, c: seq<Mention>, d: seq<Mention>)
    requires SameOccurrences(a, b) && SameOccurrences(c, d)
    ensures SameOccurrences(a + c, b + d)
  {
  }

  lemma PromotedInstructionOccurrences(ixs: seq<Instruction>, payer: Option<Pubkey>, ix: Instruction)
    ensures SameOccurrences(InstructionMentions(PromotedInstruction(ixs, payer, ix)), InstructionMentions(ix))
  {
  }

  lemma PromotedSameOccurrences(ixs: seq<Instruction>, payer: Option<Pubkey>)
    ensures SameOccurrences(Mentions(Promoted(ixs, payer), payer), Mentions(ixs, payer))
  {
    PromotedOccurrences(ixs, payer, ixs);
  }

  lemma PromotedRoles(ixs: seq<Instruction>, payer: Option<Pubkey>, k: Pubkey)
    requires k in Summary(Mentions(ixs, payer)).values
    ensures UnionRoles(Mentions(Promoted(ixs, payer), payer), k) == UnionRoles(Mentions(ixs, payer), k)
  {
    var a, b := Mentions(Promoted(ixs, payer), payer), Mentions(ixs, payer);
    TableMeaning(ixs, payer, k);
    TableMeaning(Promoted(ixs, payer), payer, k);
    PromotedGrantsTheSame(ixs, payer, k);
    PromotedSameOccurrences(ixs, payer);
    SameInvoked(a, b, k);
    assert Summary(a).values[k] == UnionRoles(a, k);
    assert Summary(b).values[k] == UnionRoles(b, k);
  }

  /** The table of the promoted instructions is the table itself, order included. */
  lemma PromotedTable(ixs: seq<Instruction>, payer: Option<Pubkey>)
    ensures Summary(Mentions(Promoted(ixs, payer), payer)) == Summary(Mentions(ixs, payer))
  {
    hide SameOccurrences, UnionRoles, FirstMentions, Mentions, Promoted;
    var a, b := Mentions(Promoted(ixs, payer), payer), Mentions(ixs, payer);
    PromotedSameOccurrences(ixs, payer);
    SameFirstMentions(a, b);
    forall k | k in FirstMentions(b) ensures UnionRoles(a, k) == UnionRoles(b, k) {
      PromotedRoles(ixs, payer, k);
    }
  }

  lemma SameInvoked(a: seq<Mention>, b: seq<Mention>, k: Pubkey)
    requires SameOccurrences(a, b)
    ensures SomeInvoked(a, k) <==> SomeInvoked(b, k)
  {
  }

  lemma {:induction false} PromotedAccountIndices(ixs: seq<Instruction>, payer: Option<Pubkey>,
                                                  accounts: seq<AccountMeta>, keys: seq<Pubkey>)
    ensures IndexedAccounts(PromotedAccounts(ixs, payer, accounts), keys) == IndexedAccounts(accounts, keys)
  {
    var promoted := PromotedAccounts(ixs, payer, accounts);
    if accounts == [] {
    } else {
      var init := accounts[..|accounts| - 1];
      PromotedAccountIndices(ixs, payer, init, keys);
      assert promoted[..|promoted| - 1] == PromotedAccounts(ixs, payer, init);
    }
  }

  lemma PromotedInstructionIndices(ixs: seq<Instruction>, payer: Option<Pubkey>, ix: Instruction, keys: seq<Pubkey>)
    ensures IndexedInstruction(PromotedInstruction(ixs, payer, ix), keys) == IndexedInstruction(ix, keys)
  {
    PromotedAccountIndices(ixs, payer, ix.accounts, keys);
  }

  lemma {:induction false} PromotedIndices(ixs: seq<Instruction>, payer: Option<Pubkey>,
                                           part: seq<Instruction>, keys: seq<Pubkey>)
    ensures IndexedInstructions(PromotedPart(ixs, payer, part), keys) == IndexedInstructions(part, keys)
  {
    if part == [] {
    } else {
      var init := part[..|part| - 1];
      var promoted := PromotedPart(ixs, payer, part);
      PromotedIndices(ixs, payer, init, keys);
      assert promoted[..|promoted| - 1] == PromotedPart(ixs, payer, init);
      PromotedInstructionIndices(ixs, payer, part[|part| - 1], keys);
    }
  }

  /** Compiling the promoted instructions gives the same outcome: message for message, error for error. */
  lemma PromotedCompilesTheSame(ixs: seq<Instruction>, payer: Option<Pubkey>, recentBlockhash: seq<byte>)
    ensures MessageOf(Promoted(ixs, payer), payer, recentBlockhash) == MessageOf(ixs, payer, recentBlockhash)
  {
    PromotedTable(ixs, payer);
    PromotedIndices(ixs, payer, ixs, KeyList(Summary(Mentions(ixs, payer)), payer));
  }

  /** Recompiling what a message says gives back the identical message. */
  lemma RecompileIsFixpoint(ixs: seq<Instruction>, payer: Option<Pubkey>, recentBlockhash: seq<byte>)
    requires MessageOf(ixs, payer, recentBlockhash).Ok?
    ensures var m := MessageOf(ixs, payer, recentBlockhash).value;
            Resolvable(m) && MessageOf(Decompile(m), payer, recentBlockhash) == Ok(m)
  {
    DecompileCompile(ixs, payer, recentBlockhash);
    PromotedCompilesTheSame(ixs, payer, recentBlockhash);
  }

  /** Two lists of instructions compile to the same message exactly when they mean the same: the same programs,
      accounts and data in order, with the same union of roles. */
  lemma SameMessageIffSameMeaning(ixs: seq<Instruction>, ixs': seq<Instruction>, payer: Option<Pubkey>,
                                  recentBlockhash: seq<byte>)
    requires MessageOf(ixs, payer, recentBlockhash).Ok?
    ensures MessageOf(ixs', payer, recentBlockhash) == MessageOf(ixs, payer, recentBlockhash)
       <==> Promoted(ixs', payer) == Promoted(ixs, payer)
  {
    DecompileCompile(ixs, payer, recentBlockhash);
    PromotedCompilesTheSame(ixs, payer, recentBlockhash);
    PromotedCompilesTheSame(ixs', payer, recentBlockhash);
    if MessageOf(ixs', payer, recentBlockhash) == MessageOf(ixs, payer, recentBlockhash) {
      DecompileCompile(ixs', payer, recentBlockhash);
    }
  }
}
