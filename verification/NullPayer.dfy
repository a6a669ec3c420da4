/** Without a payer, which key leads the message. The comment on createSanitizedMessage says it is the first signer
    encountered; the code puts writable signers before read-only ones, each in the order of first mention, so that holds
    only under a condition. The comment can be read in two ways, by key and by entry; both are treated. */
module NullPayer {
  import opened Prelude
  import opened OrderedMaps
  import opened Instructions
  import opened CompiledKeyTables
  import opened SanitizedMessages
  import opened MessageRoles
  import opened MessageMeaning

  /** The keys in the order in which the instructions first mention them. */
  ghost function EncounterOrder(ixs: seq<Instruction>): seq<Pubkey> {
    Summary(Mentions(ixs, None)).keys
  }

  /** The comment by key: the first-mentioned key that any entry, at that place or later, marks as a signer. */
  ghost predicate IsFirstSigner(ixs: seq<Instruction>, i: nat) {
    var order := EncounterOrder(ixs);
    i < |order| && GrantsSigner(ixs, None, order[i]) && forall j :: 0 <= j < i ==> !GrantsSigner(ixs, None, order[j])
  }

  lemma {:induction false} BucketHead(keys: seq<Pubkey>, roles: map<Pubkey, Roles>, signer: bool,
                                    writable: bool, i: nat)
    requires forall k :: k in keys ==> k in roles
    requires i < |keys| && roles[keys[i]].signer == signer && roles[keys[i]].writable == writable
    requires forall j :: 0 <= j < i ==> !(roles[keys[j]].signer == signer && roles[keys[j]].writable == writable)
    ensures var b := Bucket(keys, roles, None, signer, writable); b != [] && b[0] == keys[i]
  {
    var init := keys[..|keys| - 1];
    var b := Bucket(init, roles, None, signer, writable);
    if i < |init| {
      BucketHead(init, roles, signer, writable, i);
    } else {
      HeadIsElement(b);
      assert b == [];
    }
  }

  lemma HeadIsElement<T>(s: seq<T>)
    ensures s != [] ==> s[0] in s
  {
  }

  /** The same statement about a table. */
  lemma TableLeadsWithFirstSignerIff(t: Table, i: nat)
    requires t.Valid() && i < |t.keys| && t.values[t.keys[i]].signer
    requires forall j :: 0 <= j < i ==> !t.values[t.keys[j]].signer
    ensures var keys := KeyList(t, None);
            keys != [] &&
            (keys[0] == t.keys[i]
             <==> t.values[t.keys[i]].writable
                  || forall k :: k in t.values && t.values[k].signer ==> !t.values[k].writable)
  {
    var first, ws := t.keys[i], WritableSigners(t, None);
    HeadIsElement(ws);
    if t.values[first].writable {
      BucketHead(t.keys, t.values, true, true, i);
    } else if ws == [] {
      BucketHead(t.keys, t.values, true, false, i);
      forall k ensures k in t.values && t.values[k].signer ==> !t.values[k].writable {
        GroupMeaning(t, None, k);
      }
    } else {
      GroupMeaning(t, None, ws[0]);
    }
  }

  /** With no payer given, the leading key is the first-mentioned signer iff that key is writable or no signer
      is writable. */
  lemma LeadsWithFirstSignerIff(ixs: seq<Instruction>, recentBlockhash: seq<byte>, i: nat)
    requires MessageOf(ixs, None, recentBlockhash).Ok? && IsFirstSigner(ixs, i)
    ensures var keys := MessageOf(ixs, None, recentBlockhash).value.accountKeys; var first := EncounterOrder(ixs)[i];
            keys != [] &&
            (keys[0] == first
             <==> GrantsWritable(ixs, None, first)
                  || forall k :: GrantsSigner(ixs, None, k) ==> !GrantsWritable(ixs, None, k))
  {
    var t := Summary(Mentions(ixs, None));
    forall k
      ensures k in t.values <==> k in t.keys
      ensures k in t.values ==> (t.values[k].signer <==> GrantsSigner(ixs, None, k))
      ensures k in t.values ==> (t.values[k].writable <==> GrantsWritable(ixs, None, k))
      ensures GrantsSigner(ixs, None, k) ==> k in t.values
    {
      TableMeaning(ixs, None, k);
      SignerIsNamed(ixs, k);
    }
    TableLeadsWithFirstSignerIff(t, i);
    ComponentsOutcome(t, None);
  }

  // ---------- the comment by entry ----------

  ghost predicate Signs(ixs: seq<Instruction>, i: nat, j: nat) {
    i < |ixs| && j < |ixs[i].accounts| && ixs[i].accounts[j].isSigner
  }

  /** The comment by entry: no account entry before this one asks for a signature. */
  ghost predicate IsFirstSigningEntry(ixs: seq<Instruction>, i: nat, j: nat) {
    && Signs(ixs, i, j)
    && forall i', j' :: Signs(ixs, i', j') ==> i < i' || (i == i' && j <= j')
  }

  /** `k` is the first-mentioned key that signs, among all signers or among the writable ones. */
  ghost predicate LeadsSigners(ixs: seq<Instruction>, k: Pubkey, writable: bool) {
    var order := EncounterOrder(ixs);
    exists p :: 0 <= p < |order| && order[p] == k && Qualifies(ixs, k, writable)
                && forall q :: 0 <= q < p ==> !Qualifies(ixs, order[q], writable)
  }

  ghost predicate Qualifies(ixs: seq<Instruction>, k: Pubkey, writable: bool) {
    GrantsSigner(ixs, None, k) && (writable ==> GrantsWritable(ixs, None, k))
  }

  ghost predicate NoWritableSigner(ixs: seq<Instruction>) {
    forall k :: GrantsSigner(ixs, None, k) ==> !GrantsWritable(ixs, None, k)
  }

  ghost predicate TableQualifies(t: Table, k: Pubkey, writable: bool)
    requires k in t.values
  {
    t.values[k].signer && (writable ==> t.values[k].writable)
  }

  lemma {:induction false} FirstQualified(t: Table, writable: bool, n: nat) returns (p: nat)
    requires t.Valid() && n <= |t.keys|
    requires exists i :: 0 <= i < n && TableQualifies(t, t.keys[i], writable)
    ensures p < n && TableQualifies(t, t.keys[p], writable)
    ensures forall q :: 0 <= q < p ==> !TableQualifies(t, t.keys[q], writable)
  {
    if exists i :: 0 <= i < n - 1 && TableQualifies(t, t.keys[i], writable) {
      p := FirstQualified(t, writable, n - 1);
    } else {
      p := n - 1;
    }
  }

  /** The head of the key list: the first writable signer if there is one, else the first signer. */
  lemma TableLeader(t: Table, k: Pubkey) returns (p: nat)
    requires t.Valid() && k in t.values && t.values[k].signer
    ensures var writable := exists x :: x in t.values && TableQualifies(t, x, true);
            && p < |t.keys| && KeyList(t, None) != [] && KeyList(t, None)[0] == t.keys[p]
            && TableQualifies(t, t.keys[p], writable)
            && forall q :: 0 <= q < p ==> !TableQualifies(t, t.keys[q], writable)
  {
    hide Bucket, NoDup, WritableNonSigners, ReadonlyNonSigners;
    if x :| x in t.values && TableQualifies(t, x, true) {
      var i :| 0 <= i < |t.keys| && t.keys[i] == x;
      p := FirstQualified(t, true, |t.keys|);
      BucketHead(t.keys, t.values, true, true, p);
    } else {
      var i :| 0 <= i < |t.keys| && t.keys[i] == k;
      assert TableQualifies(t, t.keys[i], false);
      p := FirstQualified(t, false, |t.keys|);
      NothingWritableSigns(t);
      BucketHead(t.keys, t.values, true, false, p);
    }
  }

  lemma NothingWritableSigns(t: Table)
    requires t.Valid() && forall x :: x in t.values ==> !TableQualifies(t, x, true)
    ensures WritableSigners(t, None) == []
  {
    HeadIsElement(WritableSigners(t, None));
    if WritableSigners(t, None) != [] {
      GroupMeaning(t, None, WritableSigners(t, None)[0]);
    }
  }

  lemma QualifiesInTable(ixs: seq<Instruction>, k: Pubkey, writable: bool)
    ensures var t := Summary(Mentions(ixs, None));
            && (Qualifies(ixs, k, writable) ==> k in t.values)
            && (k in t.values ==> (TableQualifies(t, k, writable) <==> Qualifies(ixs, k, writable)))
  {
    TableMeaning(ixs, None, k);
    SignerIsNamed(ixs, k);
  }

  /** The key that leads: the first-mentioned writable signer, or the first-mentioned signer if none is writable. */
  lemma LeaderIff(ixs: seq<Instruction>, recentBlockhash: seq<byte>, k: Pubkey)
    requires MessageOf(ixs, None, recentBlockhash).Ok? && GrantsSigner(ixs, None, k)
    ensures var keys := MessageOf(ixs, None, recentBlockhash).value.accountKeys;
            keys != [] &&
            (keys[0] == k <==> LeadsSigners(ixs, k, true) || (NoWritableSigner(ixs) && LeadsSigners(ixs, k, false)))
  {
    hide GrantsSigner, GrantsWritable, KeyList, Summary, Mentions;
    var t := Summary(Mentions(ixs, None));
    forall x, w
      ensures Qualifies(ixs, x, w) ==> x in t.values
      ensures x in t.values ==> (TableQualifies(t, x, w) <==> Qualifies(ixs, x, w))
    {
      QualifiesInTable(ixs, x, w);
    }
    assert Qualifies(ixs, k, false);
    var p := TableLeader(t, k);
    var writable := exists x :: x in t.values && TableQualifies(t, x, true);
    assert writable <==> !NoWritableSigner(ixs) by {
      assert forall x :: Qualifies(ixs, x, true) <==> GrantsSigner(ixs, None, x) && GrantsWritable(ixs, None, x);
    }
    ComponentsOutcome(t, None);
    LeaderIsUnique(ixs, p, k, writable);
  }

  lemma LeaderIsUnique(ixs: seq<Instruction>, p: nat, k: Pubkey, writable: bool)
    requires var order := EncounterOrder(ixs);
             && p < |order| && Qualifies(ixs, order[p], writable)
             && forall q :: 0 <= q < p ==> !Qualifies(ixs, order[q], writable)
    ensures EncounterOrder(ixs)[p] == k <==> LeadsSigners(ixs, k, writable)
  {
  }

  /** With no payer given, the key of the first entry that asks for a signature leads iff it is the first-mentioned
      writable signer, or no signer is writable and it is the first-mentioned signer. */
  lemma LeadsWithFirstSigningEntryIff(ixs: seq<Instruction>, recentBlockhash: seq<byte>, i: nat, j: nat)
    requires MessageOf(ixs, None, recentBlockhash).Ok? && IsFirstSigningEntry(ixs, i, j)
    ensures var keys := MessageOf(ixs, None, recentBlockhash).value.accountKeys; var k := ixs[i].accounts[j].pubkey;
            keys != [] &&
            (keys[0] == k <==> LeadsSigners(ixs, k, true) || (NoWritableSigner(ixs) && LeadsSigners(ixs, k, false)))
  {
    hide MessageOf, LeadsSigners, NoWritableSigner;
    assert AsksSigner(ixs[i], ixs[i].accounts[j].pubkey);
    LeaderIff(ixs, recentBlockhash, ixs[i].accounts[j].pubkey);
  }

  lemma SignerIsNamed(ixs: seq<Instruction>, k: Pubkey)
    ensures GrantsSigner(ixs, None, k) ==> Named(ixs, None, k)
  {
    if i :| 0 <= i < |ixs| && AsksSigner(ixs[i], k) {
      assert Names(ixs[i], k);
    }
  }

  /** One instruction whose read-only signer `a` comes before its writable signer `b`. */
  function Example(program: Pubkey, a: Pubkey, b: Pubkey): seq<Instruction> {
    [Instruction(program, [AccountMeta(a, true, false), AccountMeta(b, true, true)], [])]
  }

  lemma FirstMentionsSnoc(ms: seq<Mention>, m: Mention)
    ensures FirstMentions(ms + [m]) == FirstMentions(ms) + (if m.key in FirstMentions(ms) then [] else [m.key])
  {
    assert (ms + [m])[..|ms|] == ms;
  }

  lemma ThreeFirstMentions(p: Mention, x: Mention, y: Mention)
    requires p.key != x.key && p.key != y.key && x.key != y.key
    ensures FirstMentions(([] + [p] + [x]) + [y]) == [p.key, x.key, y.key]
  {
    FirstMentionsSnoc([], p);
    FirstMentionsSnoc([] + [p], x);
    FirstMentionsSnoc([] + [p] + [x], y);
  }

  lemma ExampleOrder(program: Pubkey, a: Pubkey, b: Pubkey)
    requires program != a && program != b && a != b
    ensures EncounterOrder(Example(program, a, b)) == [program, a, b]
  {
    var ixs := Example(program, a, b);
    var p := Mention(program, Roles(false, false, true));
    var x, y := Mention(a, Roles(true, false, false)), Mention(b, Roles(true, true, false));
    assert Mentions(ixs, None) == ([] + [p] + [x]) + [y] by {
      AllMentionsStep(ixs, 0);
      assert ixs[..1] == ixs && ixs[..0] == [];
      assert AccountMentions(ixs[0].accounts) == [x] + [y];
    }
    ThreeFirstMentions(p, x, y);
  }

  lemma ExampleGrants(program: Pubkey, a: Pubkey, b: Pubkey)
    requires program != a && program != b && a != b
    ensures var ixs := Example(program, a, b);
            && !GrantsSigner(ixs, None, program)
            && GrantsSigner(ixs, None, a) && !GrantsWritable(ixs, None, a)
            && GrantsSigner(ixs, None, b) && GrantsWritable(ixs, None, b)
  {
    var ixs := Example(program, a, b);
    assert ixs[0].accounts[0] == AccountMeta(a, true, false) && ixs[0].accounts[1] == AccountMeta(b, true, true);
    assert AsksSigner(ixs[0], a) && AsksSigner(ixs[0], b) && AsksWritable(ixs[0], b);
    assert !AsksSigner(ixs[0], program) && !AsksWritable(ixs[0], a);
  }

  /** The writable signer leads the example's message, although the read-only signer is encountered first. */
  lemma FirstSignerNeedNotLead(program: Pubkey, a: Pubkey, b: Pubkey, recentBlockhash: seq<byte>)
    requires program != a && program != b && a != b
    ensures var ixs := Example(program, a, b); var r := MessageOf(ixs, None, recentBlockhash);
            && IsFirstSigner(ixs, 1) && EncounterOrder(ixs)[1] == a
            && r.Ok? && r.value.accountKeys != [] && r.value.accountKeys[0] != a
  {
    var ixs := Example(program, a, b);
    ExampleOrder(program, a, b);
    ExampleGrants(program, a, b);
    FewKeysSucceed(ixs, recentBlockhash);
    LeadsWithFirstSignerIff(ixs, recentBlockhash, 1);
  }

  lemma FewKeysSucceed(ixs: seq<Instruction>, recentBlockhash: seq<byte>)
    requires |EncounterOrder(ixs)| <= 255
    ensures MessageOf(ixs, None, recentBlockhash).Ok?
  {
    var t := Summary(Mentions(ixs, None));
    NoDupCardinality(t.keys);
    forall k ensures k in NamedKeys(ixs, None) <==> k in Elements(t.keys) {
      TableMeaning(ixs, None, k);
    }
    assert NamedKeys(ixs, None) == Elements(t.keys);
    SubsetCardinality(SignerKeys(ixs, None), NamedKeys(ixs, None));
    SubsetCardinality(ReadonlyNonSignerKeys(ixs, None), NamedKeys(ixs, None));
    SucceedsIffCountsFit(ixs, None, recentBlockhash);
  }

  /** One instruction that mentions `x` without roles before `y` signs, and lets `x` sign after that. */
  function MentionedBefore(program: Pubkey, x: Pubkey, y: Pubkey): seq<Instruction> {
    [Instruction(program, [AccountMeta(x, false, false), AccountMeta(y, true, true), AccountMeta(x, true, true)], [])]
  }

  lemma MentionedBeforeOrder(program: Pubkey, x: Pubkey, y: Pubkey)
    requires program != x && program != y && x != y
    ensures EncounterOrder(MentionedBefore(program, x, y)) == [program, x, y]
  {
    var ixs := MentionedBefore(program, x, y);
    var p, a := Mention(program, Roles(false, false, true)), Mention(x, Roles(false, false, false));
    var b, c := Mention(y, Roles(true, true, false)), Mention(x, Roles(true, true, false));
    assert Mentions(ixs, None) == (([] + [p] + [a]) + [b]) + [c] by {
      AllMentionsStep(ixs, 0);
      assert ixs[..1] == ixs && ixs[..0] == [];
      assert AccountMentions(ixs[0].accounts) == [a] + [b] + [c];
    }
    ThreeFirstMentions(p, a, b);
    FirstMentionsSnoc([] + [p] + [a] + [b], c);
  }

  lemma MentionedBeforeGrants(program: Pubkey, x: Pubkey, y: Pubkey)
    requires program != x && program != y && x != y
    ensures var ixs := MentionedBefore(program, x, y);
            && !Qualifies(ixs, program, true) && Qualifies(ixs, x, true) && GrantsSigner(ixs, None, y)
            && IsFirstSigningEntry(ixs, 0, 1)
  {
    var ix := MentionedBefore(program, x, y)[0];
    assert ix.accounts[2] == AccountMeta(x, true, true) && ix.accounts[1] == AccountMeta(y, true, true);
    assert AsksSigner(ix, x) && AsksWritable(ix, x) && AsksSigner(ix, y);
    assert !AsksSigner(ix, program);
  }

  /** The first entry that asks for a signature, writable as it is, does not lead when a key mentioned before it signs,
      too. */
  lemma FirstSigningEntryNeedNotLead(program: Pubkey, x: Pubkey, y: Pubkey, recentBlockhash: seq<byte>)
    requires program != x && program != y && x != y
    ensures var ixs := MentionedBefore(program, x, y); var r := MessageOf(ixs, None, recentBlockhash);
            && IsFirstSigningEntry(ixs, 0, 1) && ixs[0].accounts[1] == AccountMeta(y, true, true)
            && r.Ok? && r.value.accountKeys != [] && r.value.accountKeys[0] == x
  {
    hide MessageOf, Qualifies, GrantsSigner, NoWritableSigner;
    var ixs := MentionedBefore(program, x, y);
    MentionedBeforeOrder(program, x, y);
    MentionedBeforeGrants(program, x, y);
    FewKeysSucceed(ixs, recentBlockhash);
    assert EncounterOrder(ixs)[1] == x;
    assert LeadsSigners(ixs, x, true);
    LeaderOfQualified(ixs, recentBlockhash, x);
  }

  lemma LeaderOfQualified(ixs: seq<Instruction>, recentBlockhash: seq<byte>, k: Pubkey)
    requires MessageOf(ixs, None, recentBlockhash).Ok? && LeadsSigners(ixs, k, true)
    ensures var keys := MessageOf(ixs, None, recentBlockhash).value.accountKeys; keys != [] && keys[0] == k
  {
    hide MessageOf;
    LeaderIff(ixs, recentBlockhash, k);
  }
}
