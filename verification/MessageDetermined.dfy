/** The compiled message specified by the instructions alone: which message it is, down to the order of the keys and the
    three counts, without reference to the table it was made from. */
module MessageDetermined {
  import opened Prelude
  import opened OrderedMaps
  import opened Instructions
  import opened CompiledKeyTables
  import opened SanitizedMessages
  import opened MessageRoles
  import opened MessageMeaning

  // ---------- the order in which instructions mention keys ----------

  /** Instruction `i` mentions `k` at place `j`: place 0 is its program, place j + 1 its account entry j. */
  ghost predicate Spot(ixs: seq<Instruction>, i: nat, j: nat, k: Pubkey) {
    && i < |ixs|
    && if j == 0 then ixs[i].programId == k else j <= |ixs[i].accounts| && ixs[i].accounts[j - 1].pubkey == k
  }

  predicate Before(i: nat, j: nat, i': nat, j': nat) {
    i < i' || (i == i' && j < j')
  }

  /** Some mention of `a` comes before every mention of `b`. */
  ghost predicate MentionedBefore(ixs: seq<Instruction>, a: Pubkey, b: Pubkey) {
    exists i, j :: Spot(ixs, i, j, a) && forall i', j' :: Spot(ixs, i', j', b) ==> Before(i, j, i', j')
  }

  lemma NamedAtSpot(ixs: seq<Instruction>, k: Pubkey) returns (i: nat, j: nat)
    requires Named(ixs, None, k)
    ensures Spot(ixs, i, j, k)
  {
    i :| 0 <= i < |ixs| && Names(ixs[i], k);
    if ixs[i].programId == k {
      j := 0;
    } else {
      j :| 0 <= j < |ixs[i].accounts| && ixs[i].accounts[j].pubkey == k;
      j := j + 1;
    }
  }

  /** A mentioned key is mentioned somewhere first. */
  lemma {:induction false} FirstSpot(ixs: seq<Instruction>, i: nat, j: nat, k: Pubkey) returns (i0: nat, j0: nat)
    requires Spot(ixs, i, j, k)
    ensures Spot(ixs, i0, j0, k) && forall i', j' :: Spot(ixs, i', j', k) ==> !Before(i', j', i0, j0)
    decreases i, j
  {
    if i', j' :| Spot(ixs, i', j', k) && Before(i', j', i, j) {
      i0, j0 := FirstSpot(ixs, i', j', k);
    } else {
      i0, j0 := i, j;
    }
  }

  /** What is mentioned before place `j` of instruction `i`, and what is mentioned there. */
  lemma {:induction false} MentionsUpTo(ixs: seq<Instruction>, i: nat, j: nat)
    requires i < |ixs| && j <= |ixs[i].accounts|
    ensures var before, all := AllMentions(ixs[..i]) + InstructionMentions(ixs[i])[..j], AllMentions(ixs);
            && |before| < |all| && all[..|before|] == before
            && all[|before|] == InstructionMentions(ixs[i])[j]
  {
    var init := ixs[..|ixs| - 1];
    if i == |init| {
      assert init == ixs[..i];
    } else {
      assert init[..i] == ixs[..i];
      MentionsUpTo(init, i, j);
    }
  }

  lemma {:induction false} FirstMentionsOrdered(ms: seq<Mention>, p: nat, q: nat, n: nat)
    requires p < q < |FirstMentions(ms)| && n < |ms| && ms[n].key == FirstMentions(ms)[q]
    ensures exists n' :: 0 <= n' < n && ms[n'].key == FirstMentions(ms)[p]
  {
    var init := ms[..|ms| - 1];
    if q < |FirstMentions(init)| && n < |init| {
      FirstMentionsOrdered(init, p, q, n);
      var n' :| 0 <= n' < n && init[n'].key == FirstMentions(init)[p];
      assert ms[n'] == init[n'];
    } else {
      assert n == |init|;
      assert FirstMentions(init)[p] in FirstMentions(init);
      var n' :| 0 <= n' < |init| && init[n'].key == FirstMentions(init)[p];
      assert ms[n'] == init[n'];
    }
  }

  /** Every mention of a key has a mention before it of every key that stands earlier in the table. */
  lemma EarlierMention(ixs: seq<Instruction>, payer: Option<Pubkey>, p: nat, q: nat, i: nat, j: nat)
      returns (i': nat, j': nat)
    requires p < q < |FirstMentions(Mentions(ixs, payer))|
    requires Spot(ixs, i, j, FirstMentions(Mentions(ixs, payer))[q])
    ensures Before(i', j', i, j) && Spot(ixs, i', j', FirstMentions(Mentions(ixs, payer))[p])
  {
    hide FirstMentions, InstructionMentions, AllMentions, PayerMentions;
    var ms := Mentions(ixs, payer);
    var a, mentions := FirstMentions(ms)[p], AllMentions(ixs[..i]);
    MentionAt(ixs[i], j);
    var before := mentions + InstructionMentions(ixs[i])[..j];
    MentionsUpTo(ixs, i, j);
    FirstMentionsOrdered(ms, p, q, |before|);
    var n :| 0 <= n < |before| && ms[n].key == a;
    assert ms[n] == AllMentions(ixs)[..|before|][n] == before[n];
    if n < |mentions| {
      assert mentions[n].key == a;
      MentionsOfAll(ixs[..i], a);
      i', j' := NamedAtSpot(ixs[..i], a);
      assert ixs[..i][i'] == ixs[i'];
    } else {
      i', j' := i, n - |mentions|;
      assert before[n] == InstructionMentions(ixs[i])[j'];
      MentionAt(ixs[i], j');
    }
  }

  lemma MentionAt(ix: Instruction, j: nat)
    requires j <= |ix.accounts|
    ensures |InstructionMentions(ix)| == |ix.accounts| + 1
    ensures InstructionMentions(ix)[j].key == if j == 0 then ix.programId else ix.accounts[j - 1].pubkey
  {
  }

  // ---------- the order of the key list ----------

  /** Which of the four groups a key belongs to: writable signers, read-only signers, writable keys, the rest. */
  ghost function Group(ixs: seq<Instruction>, payer: Option<Pubkey>, k: Pubkey): nat {
    (if GrantsSigner(ixs, payer, k) then 0 else 2) + (if GrantsWritable(ixs, payer, k) then 0 else 1)
  }

  /** The payer leads; then the groups follow one another, each in the order of first mention. */
  ghost predicate Precedes(ixs: seq<Instruction>, payer: Option<Pubkey>, a: Pubkey, b: Pubkey) {
    && payer != Some(b)
    && (|| payer == Some(a)
        || Group(ixs, payer, a) < Group(ixs, payer, b)
        || (Group(ixs, payer, a) == Group(ixs, payer, b) && MentionedBefore(ixs, a, b)))
  }

  lemma PrecedesOneWay(ixs: seq<Instruction>, payer: Option<Pubkey>, a: Pubkey, b: Pubkey)
    ensures !(Precedes(ixs, payer, a, b) && Precedes(ixs, payer, b, a))
  {
  }

  ghost predicate Ordered(ixs: seq<Instruction>, payer: Option<Pubkey>, keys: seq<Pubkey>) {
    forall p, q :: 0 <= p < q < |keys| ==> Precedes(ixs, payer, keys[p], keys[q])
  }

  /** There is one ordered list of given keys only. */
  lemma {:induction false} OneOrder(ixs: seq<Instruction>, payer: Option<Pubkey>, a: seq<Pubkey>, b: seq<Pubkey>)
    requires Ordered(ixs, payer, a) && Ordered(ixs, payer, b) && Elements(a) == Elements(b)
    ensures a == b
  {
    hide Precedes, Elements;
    NoElements(a);
    NoElements(b);
    if a == [] {
    } else {
      SameHead(ixs, payer, a, b);
      OrderedTail(ixs, payer, a);
      OrderedTail(ixs, payer, b);
      OneOrder(ixs, payer, a[1..], b[1..]);
      assert a == [a[0]] + a[1..] && b == [b[0]] + b[1..];
    }
  }

  lemma NoElements<T>(s: seq<T>)
    ensures s == [] <==> Elements(s) == {}
  {
    if s != [] {
      assert s[0] in Elements(s);
    }
  }

  lemma SameHead(ixs: seq<Instruction>, payer: Option<Pubkey>, a: seq<Pubkey>, b: seq<Pubkey>)
    requires Ordered(ixs, payer, a) && Ordered(ixs, payer, b) && Elements(a) == Elements(b) && a != [] && b != []
    ensures a[0] == b[0]
  {
    hide Precedes;
    assert a[0] in Elements(b) && b[0] in Elements(a);
    var i :| 0 <= i < |b| && b[i] == a[0];
    var j :| 0 <= j < |a| && a[j] == b[0];
    PrecedesOneWay(ixs, payer, a[0], b[0]);
  }

  lemma OrderedTail(ixs: seq<Instruction>, payer: Option<Pubkey>, a: seq<Pubkey>)
    requires Ordered(ixs, payer, a) && a != []
    ensures Ordered(ixs, payer, a[1..]) && Elements(a[1..]) == Elements(a) - {a[0]}
  {
    hide Precedes;
    PrecedesOneWay(ixs, payer, a[0], a[0]);
    assert a == [a[0]] + a[1..];
    forall x | x in a[1..] ensures x != a[0] {
      var i :| 0 <= i < |a| - 1 && a[1..][i] == x;
      assert a[i + 1] == x;
      assert Precedes(ixs, payer, a[0], a[i + 1]);
    }
  }

  // ---------- the key list of a table is in this order ----------

  lemma {:induction false} BucketInTableOrder(keys: seq<Pubkey>, roles: map<Pubkey, Roles>, payer: Option<Pubkey>,
                                              signer: bool, writable: bool, p: nat, q: nat)
    requires NoDup(keys) && forall k :: k in keys ==> k in roles
    requires p < q < |Bucket(keys, roles, payer, signer, writable)|
    ensures var b := Bucket(keys, roles, payer, signer, writable);
            b[p] in keys && b[q] in keys && IndexOf(keys, b[p]) < IndexOf(keys, b[q])
  {
    var init, last := keys[..|keys| - 1], keys[|keys| - 1];
    var b, c := Bucket(keys, roles, payer, signer, writable), Bucket(init, roles, payer, signer, writable);
    assert b[p] in b && b[q] in b;
    assert c[p] in c;
    IndexInInit(keys, b[p]);
    if q < |c| {
      assert c[q] in c;
      BucketInTableOrder(init, roles, payer, signer, writable, p, q);
      IndexInInit(keys, b[q]);
    } else {
      IndexOfUnique(keys, |keys| - 1);
    }
  }

  lemma IndexInInit(keys: seq<Pubkey>, k: Pubkey)
    requires keys != [] && k in keys[..|keys| - 1]
    ensures IndexOf(keys, k) == IndexOf(keys[..|keys| - 1], k) < |keys| - 1
  {
    var init := keys[..|keys| - 1];
    var i := IndexOf(init, k);
    assert forall j :: 0 <= j < |init| ==> keys[j] == init[j];
  }

  /** Of two keys other than the payer, the one that stands earlier in the table is mentioned first. */
  lemma TableInOrderOfMention(ixs: seq<Instruction>, payer: Option<Pubkey>, p: nat, q: nat)
    requires p < q < |FirstMentions(Mentions(ixs, payer))|
    requires payer != Some(FirstMentions(Mentions(ixs, payer))[p])
    ensures MentionedBefore(ixs, FirstMentions(Mentions(ixs, payer))[p], FirstMentions(Mentions(ixs, payer))[q])
  {
    hide FirstMentions, Mentions, Spot;
    var keys := FirstMentions(Mentions(ixs, payer));
    var a, b := keys[p], keys[q];
    assert a in Summary(Mentions(ixs, payer)).values;
    TableMeaning(ixs, payer, a);
    var i, j := NamedAtSpot(ixs, a);
    i, j := FirstSpot(ixs, i, j, a);
    forall i', j' | Spot(ixs, i', j', b) ensures Before(i, j, i', j') {
      var x, y := EarlierMention(ixs, payer, p, q, i', j');
    }
  }

  lemma BucketOrdered(ixs: seq<Instruction>, payer: Option<Pubkey>, signer: bool, writable: bool)
    ensures var t := Summary(Mentions(ixs, payer));
            Ordered(ixs, payer, Bucket(t.keys, t.values, payer, signer, writable))
  {
    hide FirstMentions, Mentions, Bucket, MentionedBefore, GrantsSigner, GrantsWritable;
    var t := Summary(Mentions(ixs, payer));
    var b := Bucket(t.keys, t.values, payer, signer, writable);
    forall p, q | 0 <= p < q < |b| ensures Precedes(ixs, payer, b[p], b[q]) {
      assert b[p] in b && b[q] in b;
      BucketInTableOrder(t.keys, t.values, payer, signer, writable, p, q);
      TableInOrderOfMention(ixs, payer, IndexOf(t.keys, b[p]), IndexOf(t.keys, b[q]));
      TableMeaning(ixs, payer, b[p]);
      TableMeaning(ixs, payer, b[q]);
    }
  }

  lemma OrderedConcat(ixs: seq<Instruction>, payer: Option<Pubkey>, a: seq<Pubkey>, b: seq<Pubkey>)
    requires Ordered(ixs, payer, a) && Ordered(ixs, payer, b)
    requires forall x, y :: x in a && y in b ==> Precedes(ixs, payer, x, y)
    ensures Ordered(ixs, payer, a + b)
  {
    hide Precedes;
  }

  /** The roles of the keys of a bucket are those the instructions grant. */
  lemma BucketGroup(ixs: seq<Instruction>, payer: Option<Pubkey>, signer: bool, writable: bool, k: Pubkey)
    ensures var t := Summary(Mentions(ixs, payer));
            k in Bucket(t.keys, t.values, payer, signer, writable) ==>
              payer != Some(k)
              && Group(ixs, payer, k) == (if signer then 0 else 2) + (if writable then 0 else 1)
  {
    hide FirstMentions, Mentions, Bucket, GrantsSigner, GrantsWritable;
    TableMeaning(ixs, payer, k);
  }

  lemma PayerOrdered(ixs: seq<Instruction>, payer: Option<Pubkey>)
    ensures Ordered(ixs, payer, PayerKeys(payer))
  {
  }

  lemma KeyListOrdered(ixs: seq<Instruction>, payer: Option<Pubkey>)
    ensures Ordered(ixs, payer, KeyList(Summary(Mentions(ixs, payer)), payer))
  {
    hide FirstMentions, Mentions, Bucket, Group, MentionedBefore, Ordered;
    var t := Summary(Mentions(ixs, payer));
    var buckets := [PayerKeys(payer),
                    Bucket(t.keys, t.values, payer, true, true), Bucket(t.keys, t.values, payer, true, false),
                    Bucket(t.keys, t.values, payer, false, true), Bucket(t.keys, t.values, payer, false, false)];
    PayerOrdered(ixs, payer);
    BucketOrdered(ixs, payer, true, true);
    BucketOrdered(ixs, payer, true, false);
    BucketOrdered(ixs, payer, false, true);
    BucketOrdered(ixs, payer, false, false);
    forall k
      ensures forall n :: 1 <= n < 5 && k in buckets[n] ==> payer != Some(k) && Group(ixs, payer, k) == n - 1
    {
      BucketGroup(ixs, payer, true, true, k);
      BucketGroup(ixs, payer, true, false, k);
      BucketGroup(ixs, payer, false, true, k);
      BucketGroup(ixs, payer, false, false, k);
    }
    OrderedConcat(ixs, payer, buckets[0], buckets[1]);
    OrderedConcat(ixs, payer, buckets[0] + buckets[1], buckets[2]);
    OrderedConcat(ixs, payer, buckets[0] + buckets[1] + buckets[2], buckets[3]);
    OrderedConcat(ixs, payer, buckets[0] + buckets[1] + buckets[2] + buckets[3], buckets[4]);
  }

  // ---------- the counts of the header ----------

  ghost function ReadonlySignerKeys(ixs: seq<Instruction>, payer: Option<Pubkey>): set<Pubkey> {
    set k | k in NamedKeys(ixs, payer) && GrantsSigner(ixs, payer, k) && !GrantsWritable(ixs, payer, k)
  }

  lemma ReadonlySignerCount(ixs: seq<Instruction>, payer: Option<Pubkey>)
    ensures |ReadonlySigners(Summary(Mentions(ixs, payer)), payer)| == |ReadonlySignerKeys(ixs, payer)|
  {
    hide Summary, Mentions, ReadonlySigners, GrantsSigner, GrantsWritable, Named, OrderedMap.Valid, HasPayer;
    var t := Summary(Mentions(ixs, payer));
    SummaryHasPayer(ixs, payer);
    GroupMeaning(t, payer, []);
    var rs := ReadonlySigners(t, payer);
    forall k ensures k in Elements(rs) <==> k in ReadonlySignerKeys(ixs, payer) {
      TableMeaning(ixs, payer, k);
      GroupMeaning(t, payer, k);
    }
    assert Elements(rs) == ReadonlySignerKeys(ixs, payer);
    NoDupCardinality(rs);
  }

  /** The header counts the signers, the signers that nothing makes writable, and the other read-only keys. */
  lemma HeaderCounts(ixs: seq<Instruction>, payer: Option<Pubkey>, recentBlockhash: seq<byte>)
    requires MessageOf(ixs, payer, recentBlockhash).Ok?
    ensures var h := MessageOf(ixs, payer, recentBlockhash).value.header;
            && h.numRequiredSignatures == |SignerKeys(ixs, payer)|
            && h.numReadonlySigned == |ReadonlySignerKeys(ixs, payer)|
            && h.numReadonlyUnsigned == |ReadonlyNonSignerKeys(ixs, payer)|
  {
    hide Summary, Mentions, IndexedInstructions, SignerKeys, ReadonlySignerKeys, ReadonlyNonSignerKeys;
    SignerCount(ixs, payer);
    ReadonlySignerCount(ixs, payer);
    ReadonlyNonSignerCount(ixs, payer);
  }

  // ---------- the message is determined ----------

  /** `m` is the message of these inputs, in terms of what the instructions and the payer say. */
  ghost predicate Specified(m: SanitizedMessage, ixs: seq<Instruction>, payer: Option<Pubkey>,
                            recentBlockhash: seq<byte>)
  {
    && (forall k :: k in m.accountKeys <==> Named(ixs, payer, k))
    && Ordered(ixs, payer, m.accountKeys)
    && m.header.numRequiredSignatures == |SignerKeys(ixs, payer)|
    && m.header.numReadonlySigned == |ReadonlySignerKeys(ixs, payer)|
    && m.header.numReadonlyUnsigned == |ReadonlyNonSignerKeys(ixs, payer)|
    && m.recentBlockhash == recentBlockhash
    && |m.instructions| == |ixs|
    && forall i :: 0 <= i < |ixs| ==> Refers(m.instructions[i], ixs[i], m.accountKeys)
  }

  lemma CompiledIsSpecified(ixs: seq<Instruction>, payer: Option<Pubkey>, recentBlockhash: seq<byte>)
    requires MessageOf(ixs, payer, recentBlockhash).Ok?
    ensures Specified(MessageOf(ixs, payer, recentBlockhash).value, ixs, payer, recentBlockhash)
  {
    KeysAreExactlyTheNamed(ixs, payer, recentBlockhash);
    KeyListOrdered(ixs, payer);
    ComponentsOutcome(Summary(Mentions(ixs, payer)), payer);
    HeaderCounts(ixs, payer, recentBlockhash);
    InstructionsRefer(ixs, payer, recentBlockhash);
  }

  /** Only one message meets the specification. */
  lemma OneSpecified(a: SanitizedMessage, b: SanitizedMessage, ixs: seq<Instruction>, payer: Option<Pubkey>,
                     recentBlockhash: seq<byte>)
    requires Specified(a, ixs, payer, recentBlockhash) && Specified(b, ixs, payer, recentBlockhash)
    ensures a == b
  {
    hide Named, Ordered, SignerKeys, ReadonlySignerKeys, ReadonlyNonSignerKeys, Refers;
    assert Elements(a.accountKeys) == Elements(b.accountKeys);
    OneOrder(ixs, payer, a.accountKeys, b.accountKeys);
    forall p, q | 0 <= p < q < |a.accountKeys| ensures a.accountKeys[p] != a.accountKeys[q] {
      OrderedDistinct(ixs, payer, a.accountKeys, p, q);
    }
    forall i | 0 <= i < |ixs| ensures a.instructions[i] == b.instructions[i] {
      OneReference(a.instructions[i], b.instructions[i], ixs[i], a.accountKeys);
    }
  }

  lemma OrderedDistinct(ixs: seq<Instruction>, payer: Option<Pubkey>, keys: seq<Pubkey>, p: nat, q: nat)
    requires Ordered(ixs, payer, keys) && p < q < |keys|
    ensures keys[p] != keys[q]
  {
    hide Precedes;
    PrecedesOneWay(ixs, payer, keys[p], keys[q]);
  }

  lemma OneReference(s: SanitizedInstruction, s': SanitizedInstruction, ix: Instruction, keys: seq<Pubkey>)
    requires Refers(s, ix, keys) && Refers(s', ix, keys) && NoDup(keys)
    ensures s == s'
  {
    assert forall j :: 0 <= j < |s.accounts| ==> s.accounts[j] == s'.accounts[j];
  }

  /** Compiling gives this message exactly when the counts fit and it is the one that the instructions and the payer
      specify. */
  lemma CompilesToIff(ixs: seq<Instruction>, payer: Option<Pubkey>, recentBlockhash: seq<byte>, m: SanitizedMessage)
    ensures MessageOf(ixs, payer, recentBlockhash) == Ok(m) <==>
      && |NamedKeys(ixs, payer)| <= 256 && |SignerKeys(ixs, payer)| <= 255
      && |ReadonlyNonSignerKeys(ixs, payer)| <= 255
      && Specified(m, ixs, payer, recentBlockhash)
  {
    hide MessageOf, NamedKeys, SignerKeys, ReadonlyNonSignerKeys, Specified;
    SucceedsIffCountsFit(ixs, payer, recentBlockhash);
    var r := MessageOf(ixs, payer, recentBlockhash);
    if r.Ok? {
      CompiledIsSpecified(ixs, payer, recentBlockhash);
      if Specified(m, ixs, payer, recentBlockhash) {
        OneSpecified(m, r.value, ixs, payer, recentBlockhash);
      }
    }
  }
}
