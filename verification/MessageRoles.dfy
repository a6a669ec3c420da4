/** What the header and the key list of a compiled message say, in terms of the instructions alone. */
module MessageRoles {
  import opened Prelude
  import opened OrderedMaps
  import opened Instructions
  import opened CompiledKeyTables
  import opened SanitizedMessages

  // ---------- what the instructions and the payer say about a key ----------

  ghost predicate Names(ix: Instruction, k: Pubkey) {
    ix.programId == k || exists j :: 0 <= j < |ix.accounts| && ix.accounts[j].pubkey == k
  }

  ghost predicate AsksSigner(ix: Instruction, k: Pubkey) {
    exists j :: 0 <= j < |ix.accounts| && ix.accounts[j].pubkey == k && ix.accounts[j].isSigner
  }

  ghost predicate AsksWritable(ix: Instruction, k: Pubkey) {
    exists j :: 0 <= j < |ix.accounts| && ix.accounts[j].pubkey == k && ix.accounts[j].isWritable
  }

  ghost predicate Named(ixs: seq<Instruction>, payer: Option<Pubkey>, k: Pubkey) {
    payer == Some(k) || exists i :: 0 <= i < |ixs| && Names(ixs[i], k)
  }

  ghost predicate GrantsSigner(ixs: seq<Instruction>, payer: Option<Pubkey>, k: Pubkey) {
    payer == Some(k) || exists i :: 0 <= i < |ixs| && AsksSigner(ixs[i], k)
  }

  ghost predicate GrantsWritable(ixs: seq<Instruction>, payer: Option<Pubkey>, k: Pubkey) {
    payer == Some(k) || exists i :: 0 <= i < |ixs| && AsksWritable(ixs[i], k)
  }

  // ---------- what a header says about a position ----------

  predicate SignerAt(h: MessageHeader, i: nat) {
    i < h.numRequiredSignatures
  }

  predicate WritableAt(h: MessageHeader, n: nat, i: nat) {
    i < h.numRequiredSignatures - h.numReadonlySigned
    || h.numRequiredSignatures <= i < n - h.numReadonlyUnsigned
  }

  // ---------- the table holds exactly what the instructions say ----------

  lemma MentionsOfInstruction(ix: Instruction, k: Pubkey)
    ensures SomeKey(InstructionMentions(ix), k) <==> Names(ix, k)
    ensures SomeSigner(InstructionMentions(ix), k) <==> AsksSigner(ix, k)
    ensures SomeWritable(InstructionMentions(ix), k) <==> AsksWritable(ix, k)
  {
    var ms := InstructionMentions(ix);
    assert ms[0] == Mention(ix.programId, Roles(false, false, true));
    assert forall i :: 1 <= i < |ms| ==> ms[i] == AccountMentions(ix.accounts)[i - 1];
    forall j | 0 <= j < |ix.accounts|
      ensures ix.accounts[j].pubkey == ms[j + 1].key
      ensures ix.accounts[j].isSigner == ms[j + 1].roles.signer
      ensures ix.accounts[j].isWritable == ms[j + 1].roles.writable
    {
    }
    forall i | 1 <= i < |ms|
      ensures ms[i].key == ix.accounts[i - 1].pubkey
      ensures ms[i].roles == Roles(ix.accounts[i - 1].isSigner, ix.accounts[i - 1].isWritable, false)
    {
    }
  }

  ghost predicate SomeKey(ms: seq<Mention>, k: Pubkey) {
    exists i :: 0 <= i < |ms| && ms[i].key == k
  }

  lemma MentionsConcat(a: seq<Mention>, b: seq<Mention>, k: Pubkey)
    ensures SomeKey(a + b, k) <==> SomeKey(a, k) || SomeKey(b, k)
    ensures UnionRoles(a + b, k) == UnionRoles(a, k).Or(UnionRoles(b, k))
  {
    var ab := a + b;
    assert forall i :: 0 <= i < |a| ==> ab[i] == a[i];
    assert forall i :: 0 <= i < |b| ==> ab[|a| + i] == b[i];
    assert forall i :: |a| <= i < |ab| ==> ab[i] == b[i - |a|];
  }

  lemma {:induction false} MentionsOfAll(ixs: seq<Instruction>, k: Pubkey)
    ensures SomeKey(AllMentions(ixs), k) <==> Named(ixs, None, k)
    ensures SomeSigner(AllMentions(ixs), k) <==> GrantsSigner(ixs, None, k)
    ensures SomeWritable(AllMentions(ixs), k) <==> GrantsWritable(ixs, None, k)
  {
    if ixs == [] {
    } else {
      hide SomeKey, SomeSigner, SomeWritable, Named, GrantsSigner, GrantsWritable, Names, AsksSigner, AsksWritable,
        InstructionMentions;
      var init, last := ixs[..|ixs| - 1], ixs[|ixs| - 1];
      MentionsOfAll(init, k);
      MentionsOfInstruction(last, k);
      MentionsConcat(AllMentions(init), InstructionMentions(last), k);
      NamedSnoc(ixs, k);
    }
  }

  lemma NamedSnoc(ixs: seq<Instruction>, k: Pubkey)
    requires ixs != []
    ensures var init, last := ixs[..|ixs| - 1], ixs[|ixs| - 1];
            && (Named(ixs, None, k) <==> Named(init, None, k) || Names(last, k))
            && (GrantsSigner(ixs, None, k) <==> GrantsSigner(init, None, k) || AsksSigner(last, k))
            && (GrantsWritable(ixs, None, k) <==> GrantsWritable(init, None, k) || AsksWritable(last, k))
  {
    hide Names, AsksSigner, AsksWritable;
    var init := ixs[..|ixs| - 1];
    assert forall i :: 0 <= i < |init| ==> ixs[i] == init[i];
  }

  /** The table of a list of instructions: which keys it has, and with which roles. */
  lemma TableMeaning(ixs: seq<Instruction>, payer: Option<Pubkey>, k: Pubkey)
    ensures var t := Summary(Mentions(ixs, payer));
            && (k in t.values <==> Named(ixs, payer, k))
            && (k in t.values ==> (t.values[k].signer <==> GrantsSigner(ixs, payer, k)))
            && (k in t.values ==> (t.values[k].writable <==> GrantsWritable(ixs, payer, k)))
  {
    var ms := PayerMentions(payer);
    MentionsOfAll(ixs, k);
    MentionsConcat(AllMentions(ixs), ms, k);
    if payer.Some? {
      assert ms[0] == Mention(payer.value, Roles(true, true, false));
    }
    assert SomeKey(ms, k) <==> payer == Some(k);
    assert SomeSigner(ms, k) <==> payer == Some(k);
    assert SomeWritable(ms, k) <==> payer == Some(k);
  }

  lemma {:induction false} InvokedByAll(ixs: seq<Instruction>, k: Pubkey)
    ensures SomeInvoked(AllMentions(ixs), k) <==> exists i :: 0 <= i < |ixs| && ixs[i].programId == k
  {
    if ixs == [] {
    } else {
      var init, last := ixs[..|ixs| - 1], ixs[|ixs| - 1];
      InvokedByAll(init, k);
      MentionsConcat(AllMentions(init), InstructionMentions(last), k);
      assert InstructionMentions(last)[0] == Mention(last.programId, Roles(false, false, true));
      assert forall i :: 0 <= i < |init| ==> ixs[i] == init[i];
    }
  }

  /** A key of the table is marked as invoked exactly when it is the program of some instruction. */
  lemma TableInvoked(ixs: seq<Instruction>, payer: Option<Pubkey>, k: Pubkey)
    requires k in Summary(Mentions(ixs, payer)).values
    ensures Summary(Mentions(ixs, payer)).values[k].invoked <==> exists i :: 0 <= i < |ixs| && ixs[i].programId == k
  {
    InvokedByAll(ixs, k);
    MentionsConcat(AllMentions(ixs), PayerMentions(payer), k);
  }

  // ---------- the four-way split ----------

  /** The key list of a table: the four groups in order, whether or not the counts fit. */
  ghost function KeyList(t: Table, payer: Option<Pubkey>): seq<Pubkey>
    requires t.Valid()
  {
    WritableSigners(t, payer) + ReadonlySigners(t, payer) + WritableNonSigners(t, payer) + ReadonlyNonSigners(t, payer)
  }

  lemma GroupMeaning(t: Table, payer: Option<Pubkey>, k: Pubkey)
    requires t.Valid() && HasPayer(t, payer)
    ensures k in WritableSigners(t, payer) <==> k in t.values && t.values[k].signer && t.values[k].writable
    ensures k in ReadonlySigners(t, payer) <==> k in t.values && t.values[k].signer && !t.values[k].writable
    ensures k in WritableNonSigners(t, payer) <==> k in t.values && !t.values[k].signer && t.values[k].writable
    ensures k in ReadonlyNonSigners(t, payer) <==> k in t.values && !t.values[k].signer && !t.values[k].writable
    ensures NoDup(WritableSigners(t, payer)) && NoDup(ReadonlySigners(t, payer))
    ensures NoDup(WritableNonSigners(t, payer)) && NoDup(ReadonlyNonSigners(t, payer))
  {
    assert k in t.values <==> k in t.keys;
    NoDupConcat(PayerKeys(payer), Bucket(t.keys, t.values, payer, true, true));
  }

  lemma KeyListDistinct(t: Table, payer: Option<Pubkey>)
    requires t.Valid() && HasPayer(t, payer)
    ensures NoDup(KeyList(t, payer))
    ensures NoDup(WritableSigners(t, payer) + ReadonlySigners(t, payer))
    ensures Elements(KeyList(t, payer)) == t.values.Keys
  {
    var ws, rs := WritableSigners(t, payer), ReadonlySigners(t, payer);
    var wn, rn := WritableNonSigners(t, payer), ReadonlyNonSigners(t, payer);
    forall k ensures k in ws ==> k !in rs {
      GroupMeaning(t, payer, k);
    }
    forall k ensures k in ws + rs ==> k !in wn {
      GroupMeaning(t, payer, k);
    }
    forall k ensures k in ws + rs + wn ==> k !in rn {
      GroupMeaning(t, payer, k);
    }
    forall k ensures k in KeyList(t, payer) <==> k in t.values {
      GroupMeaning(t, payer, k);
    }
    GroupMeaning(t, payer, []);
    NoDupConcat(ws, rs);
    NoDupConcat(ws + rs, wn);
    NoDupConcat(ws + rs + wn, rn);
  }

  ghost function KeysWith(t: Table, signer: bool, writable: bool): set<Pubkey> {
    set k | k in t.values && t.values[k].signer == signer && t.values[k].writable == writable
  }

  lemma GroupSizes(t: Table, payer: Option<Pubkey>)
    requires t.Valid() && HasPayer(t, payer)
    ensures |WritableSigners(t, payer)| == |KeysWith(t, true, true)|
    ensures |ReadonlySigners(t, payer)| == |KeysWith(t, true, false)|
    ensures |WritableNonSigners(t, payer)| == |KeysWith(t, false, true)|
    ensures |ReadonlyNonSigners(t, payer)| == |KeysWith(t, false, false)|
  {
    hide WritableSigners, ReadonlySigners, WritableNonSigners, ReadonlyNonSigners, HasPayer, NoDup;
    GroupMeaning(t, payer, []);
    NoDupCardinality(WritableSigners(t, payer));
    NoDupCardinality(ReadonlySigners(t, payer));
    NoDupCardinality(WritableNonSigners(t, payer));
    NoDupCardinality(ReadonlyNonSigners(t, payer));
    forall k
      ensures k in WritableSigners(t, payer) <==> k in KeysWith(t, true, true)
      ensures k in ReadonlySigners(t, payer) <==> k in KeysWith(t, true, false)
      ensures k in WritableNonSigners(t, payer) <==> k in KeysWith(t, false, true)
      ensures k in ReadonlyNonSigners(t, payer) <==> k in KeysWith(t, false, false)
    {
      GroupMeaning(t, payer, k);
    }
    assert Elements(WritableSigners(t, payer)) == KeysWith(t, true, true);
    assert Elements(ReadonlySigners(t, payer)) == KeysWith(t, true, false);
    assert Elements(WritableNonSigners(t, payer)) == KeysWith(t, false, true);
    assert Elements(ReadonlyNonSigners(t, payer)) == KeysWith(t, false, false);
  }

  /** The header of any table counts its signers and its read-only keys; there is one exactly when the counts are
      bytes. */
  lemma ComponentsCount(t: Table, payer: Option<Pubkey>)
    requires t.Valid() && HasPayer(t, payer)
    ensures var c := ComponentsOf(t, payer);
            var signers := |KeysWith(t, true, true)| + |KeysWith(t, true, false)|;
            && (c.Ok? <==> signers <= 255 && |KeysWith(t, false, false)| <= 255)
            && (c.Ok? ==>
                  && c.value.header.numRequiredSignatures == signers
                  && c.value.header.numReadonlySigned == |KeysWith(t, true, false)|
                  && c.value.header.numReadonlyUnsigned == |KeysWith(t, false, false)|)
  {
    hide WritableSigners, ReadonlySigners, WritableNonSigners, ReadonlyNonSigners, HasPayer, KeysWith;
    GroupSizes(t, payer);
  }

  /** Reading the header at a position gives back exactly the roles of the key at that position. */
  lemma HeaderReadsRoles(t: Table, payer: Option<Pubkey>, i: nat)
    requires t.Valid() && HasPayer(t, payer)
    requires i < |KeyList(t, payer)| && ComponentsOf(t, payer).Ok?
    ensures var c := ComponentsOf(t, payer).value; var k := c.accountKeys[i];
            && k in t.values
            && (SignerAt(c.header, i) <==> t.values[k].signer)
            && (WritableAt(c.header, |c.accountKeys|, i) <==> t.values[k].writable)
  {
    hide WritableSigners, ReadonlySigners, WritableNonSigners, ReadonlyNonSigners, HasPayer;
    var ws, rs := WritableSigners(t, payer), ReadonlySigners(t, payer);
    var wn, rn := WritableNonSigners(t, payer), ReadonlyNonSigners(t, payer);
    var keys := KeyList(t, payer);
    var k := keys[i];
    GroupMeaning(t, payer, k);
    if i < |ws| {
      assert k == ws[i];
    } else if i < |ws| + |rs| {
      assert k == rs[i - |ws|];
    } else if i < |ws| + |rs| + |wn| {
      assert k == wn[i - |ws| - |rs|];
    } else {
      assert k == rn[i - |ws| - |rs| - |wn|];
    }
  }

  // ---------- main results ----------

  /** The keys of a message: each named key once, nothing else, and a given payer first. */
  lemma KeysAreExactlyTheNamed(ixs: seq<Instruction>, payer: Option<Pubkey>, recentBlockhash: seq<byte>)
    requires MessageOf(ixs, payer, recentBlockhash).Ok?
    ensures var keys := MessageOf(ixs, payer, recentBlockhash).value.accountKeys;
            && NoDup(keys)
            && (forall k :: k in keys <==> Named(ixs, payer, k))
            && (payer.Some? ==> |keys| > 0 && keys[0] == payer.value)
  {
    var t := Summary(Mentions(ixs, payer));
    SummaryHasPayer(ixs, payer);
    KeyListDistinct(t, payer);
    forall k ensures k in KeyList(t, payer) <==> Named(ixs, payer, k) {
      TableMeaning(ixs, payer, k);
      assert k in KeyList(t, payer) <==> k in Elements(KeyList(t, payer));
    }
  }

  /** A position is a signer (writable) exactly when the payer or some account entry asks for it: no role is
      lost and none is added. */
  lemma HeaderRolesAreLeast(ixs: seq<Instruction>, payer: Option<Pubkey>, recentBlockhash: seq<byte>, i: nat)
    requires MessageOf(ixs, payer, recentBlockhash).Ok?
    requires i < |MessageOf(ixs, payer, recentBlockhash).value.accountKeys|
    ensures var m := MessageOf(ixs, payer, recentBlockhash).value; var k := m.accountKeys[i];
            && (SignerAt(m.header, i) <==> GrantsSigner(ixs, payer, k))
            && (WritableAt(m.header, |m.accountKeys|, i) <==> GrantsWritable(ixs, payer, k))
  {
    var t := Summary(Mentions(ixs, payer));
    SummaryHasPayer(ixs, payer);
    HeaderReadsRoles(t, payer, i);
    TableMeaning(ixs, payer, KeyList(t, payer)[i]);
  }
}
