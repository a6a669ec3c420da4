/** The key table of a message under construction (src/struct/compiled-keys.ts). */
module CompiledKeyTables {
  import opened Prelude
  import opened OrderedMaps
  import opened Instructions

  /** What is known about one key. */
  datatype Roles = Roles(signer: bool, writable: bool, invoked: bool)
  {
    function Or(other: Roles): Roles {
      Roles(signer || other.signer, writable || other.writable, invoked || other.invoked)
    }
  }

  const NO_ROLES := Roles(false, false, false)

  /** One occurrence of a key, with the roles that this occurrence grants. */
  datatype Mention = Mention(key: Pubkey, roles: Roles)

  type Table = OrderedMap<Pubkey, Roles>

  // ---------- the reference: what the table of a list of mentions is ----------

  ghost function AccountMentions(accounts: seq<AccountMeta>): (ms: seq<Mention>)
    ensures |ms| == |accounts|
  {
    seq(|accounts|, i requires 0 <= i < |accounts| =>
      Mention(accounts[i].pubkey, Roles(accounts[i].isSigner, accounts[i].isWritable, false)))
  }

  ghost function InstructionMentions(ix: Instruction): seq<Mention> {
    [Mention(ix.programId, Roles(false, false, true))] + AccountMentions(ix.accounts)
  }

  ghost function AllMentions(ixs: seq<Instruction>): seq<Mention> {
    if ixs == [] then [] else AllMentions(ixs[..|ixs| - 1]) + InstructionMentions(ixs[|ixs| - 1])
  }

  lemma AllMentionsStep(ixs: seq<Instruction>, i: nat)
    requires i < |ixs|
    ensures AllMentions(ixs[..i + 1]) ==
      AllMentions(ixs[..i]) + [Mention(ixs[i].programId, Roles(false, false, true))] + AccountMentions(ixs[i].accounts)
  {
    assert ixs[..i + 1][..i] == ixs[..i];
  }

  lemma AllMentionsOfNothing(ixs: seq<Instruction>)
    ensures AllMentions(ixs[..0]) == []
  {
  }

  lemma AccountMentionsStep(accounts: seq<AccountMeta>, j: nat)
    requires j < |accounts|
    ensures AccountMentions(accounts)[..j + 1] ==
      AccountMentions(accounts)[..j] +
      [Mention(accounts[j].pubkey, Roles(accounts[j].isSigner, accounts[j].isWritable, false))]
  {
  }

  ghost function PayerMentions(payer: Option<Pubkey>): seq<Mention> {
    if payer.Some? then [Mention(payer.value, Roles(true, true, false))] else []
  }

  ghost function Mentions(ixs: seq<Instruction>, payer: Option<Pubkey>): seq<Mention> {
    AllMentions(ixs) + PayerMentions(payer)
  }

  /** The distinct keys in the order of their first mention. */
  ghost function FirstMentions(ms: seq<Mention>): (keys: seq<Pubkey>)
    ensures NoDup(keys)
    ensures forall k :: k in keys <==> exists i :: 0 <= i < |ms| && ms[i].key == k
  {
    if ms == [] then [] else
      var init, last := ms[..|ms| - 1], ms[|ms| - 1];
      var keys := FirstMentions(init);
      assert forall i :: 0 <= i < |init| ==> init[i] == ms[i];
      if last.key in keys then keys else keys + [last.key]
  }

  ghost predicate SomeSigner(ms: seq<Mention>, k: Pubkey) {
    exists i :: 0 <= i < |ms| && ms[i].key == k && ms[i].roles.signer
  }

  ghost predicate SomeWritable(ms: seq<Mention>, k: Pubkey) {
    exists i :: 0 <= i < |ms| && ms[i].key == k && ms[i].roles.writable
  }

  ghost predicate SomeInvoked(ms: seq<Mention>, k: Pubkey) {
    exists i :: 0 <= i < |ms| && ms[i].key == k && ms[i].roles.invoked
  }

  /** The least roles that grant everything some mention of `k` grants. */
  ghost function UnionRoles(ms: seq<Mention>, k: Pubkey): Roles {
    Roles(SomeSigner(ms, k), SomeWritable(ms, k), SomeInvoked(ms, k))
  }

  ghost function Summary(ms: seq<Mention>): (t: Table)
    ensures t.Valid()
  {
    var keys := FirstMentions(ms);
    OrderedMap(keys, map k | k in keys :: UnionRoles(ms, k))
  }

  /** The table after one more mention. */
  ghost function Granted(t: Table, m: Mention): (t': Table)
    requires t.Valid()
    ensures t'.Valid()
  {
    t.Set(m.key, (if m.key in t.values then t.values[m.key] else NO_ROLES).Or(m.roles))
  }

  lemma SummaryOfNothing()
    ensures Summary([]) == OrderedMap([], map[])
  {
  }

  /** One more mention is one update of the table. */
  lemma SummarySnoc(ms: seq<Mention>, m: Mention)
    ensures Summary(ms + [m]) == Granted(Summary(ms), m)
  {
    var t', all := Granted(Summary(ms), m), ms + [m];
    assert all[..|all| - 1] == ms;
    assert FirstMentions(all) == t'.keys;
    forall k | k in t'.values ensures UnionRoles(all, k) == t'.values[k] {
      GrantedRoles(ms, m, k);
    }
    assert Summary(all).values.Keys == t'.values.Keys;
  }

  lemma GrantedRoles(ms: seq<Mention>, m: Mention, k: Pubkey)
    requires k in Granted(Summary(ms), m).values
    ensures Granted(Summary(ms), m).values[k] == UnionRoles(ms + [m], k)
  {
    UnionRolesSnoc(ms, m, k);
    if k !in FirstMentions(ms) {
      NoRolesUnmentioned(ms, k);
    }
  }

  lemma NoRolesUnmentioned(ms: seq<Mention>, k: Pubkey)
    requires k !in FirstMentions(ms)
    ensures UnionRoles(ms, k) == NO_ROLES
  {
  }

  lemma UnionRolesSnoc(ms: seq<Mention>, m: Mention, k: Pubkey)
    ensures UnionRoles(ms + [m], k) == (if m.key == k then UnionRoles(ms, k).Or(m.roles) else UnionRoles(ms, k))
  {
    var all := ms + [m];
    assert all[|ms|] == m;
    assert forall i :: 0 <= i < |ms| ==> all[i] == ms[i];
    assert SomeSigner(all, k) <==> SomeSigner(ms, k) || (m.key == k && m.roles.signer);
    assert SomeWritable(all, k) <==> SomeWritable(ms, k) || (m.key == k && m.roles.writable);
    assert SomeInvoked(all, k) <==> SomeInvoked(ms, k) || (m.key == k && m.roles.invoked);
  }

  /** The payer of a table is present in it, as a writable signer. */
  ghost predicate HasPayer(t: Table, payer: Option<Pubkey>) {
    payer.Some? ==> payer.value in t.values && t.values[payer.value].signer && t.values[payer.value].writable
  }

  lemma SummaryHasPayer(ixs: seq<Instruction>, payer: Option<Pubkey>)
    ensures HasPayer(Summary(Mentions(ixs, payer)), payer)
  {
    if payer.Some? {
      var ms := Mentions(ixs, payer);
      assert ms[|ms| - 1] == Mention(payer.value, Roles(true, true, false));
    }
  }

  // ---------- the reference: how a table becomes a header and a key list ----------

  datatype CompileError = AccountIndexOverflow

  datatype MessageHeader =
    MessageHeader(numRequiredSignatures: nat, numReadonlySigned: nat, numReadonlyUnsigned: nat)

  datatype Components = Components(header: MessageHeader, accountKeys: seq<Pubkey>)

  /** The keys other than the payer that have exactly these two roles, in table order. */
  ghost function Bucket(keys: seq<Pubkey>, roles: map<Pubkey, Roles>, payer: Option<Pubkey>,
                        signer: bool, writable: bool): (bucket: seq<Pubkey>)
    requires forall k :: k in keys ==> k in roles
    ensures forall k :: k in bucket <==>
      k in keys && payer != Some(k) && roles[k].signer == signer && roles[k].writable == writable
    ensures NoDup(keys) ==> NoDup(bucket)
  {
    if keys == [] then [] else
      var init, last := keys[..|keys| - 1], keys[|keys| - 1];
      assert keys == init + [last];
      Bucket(init, roles, payer, signer, writable) +
      (if payer != Some(last) && roles[last].signer == signer && roles[last].writable == writable then [last] else [])
  }

  ghost function PayerKeys(payer: Option<Pubkey>): seq<Pubkey> {
    if payer.Some? then [payer.value] else []
  }

  ghost function WritableSigners(t: Table, payer: Option<Pubkey>): seq<Pubkey>
    requires t.Valid()
  {
    PayerKeys(payer) + Bucket(t.keys, t.values, payer, true, true)
  }

  ghost function ReadonlySigners(t: Table, payer: Option<Pubkey>): seq<Pubkey>
    requires t.Valid()
  {
    Bucket(t.keys, t.values, payer, true, false)
  }

  ghost function WritableNonSigners(t: Table, payer: Option<Pubkey>): seq<Pubkey>
    requires t.Valid()
  {
    Bucket(t.keys, t.values, payer, false, true)
  }

  ghost function ReadonlyNonSigners(t: Table, payer: Option<Pubkey>): seq<Pubkey>
    requires t.Valid()
  {
    Bucket(t.keys, t.values, payer, false, false)
  }

  /** Four groups, with the header that tells them apart by counts. */
  ghost function Counted(ws: seq<Pubkey>, rs: seq<Pubkey>, wn: seq<Pubkey>, rn: seq<Pubkey>):
      Result<Components, CompileError>
  {
    if |ws| + |rs| > 255 || |rn| > 255 then Err(AccountIndexOverflow)
    else Ok(Components(MessageHeader(|ws| + |rs|, |rs|, |rn|), ws + rs + wn + rn))
  }

  ghost function ComponentsOf(t: Table, payer: Option<Pubkey>): Result<Components, CompileError>
    requires t.Valid()
  {
    Counted(WritableSigners(t, payer), ReadonlySigners(t, payer), WritableNonSigners(t, payer),
            ReadonlyNonSigners(t, payer))
  }

  // ---------- the code ----------

  class CompiledKeyMeta {
    var isSigner: bool
    var isWritable: bool
    var isInvoked: bool

    ghost const key: Pubkey  // the one key this record is stored under

    constructor (ghost key: Pubkey)
      ensures this.key == key && Value() == NO_ROLES
    {
      this.key := key;
      isSigner, isWritable, isInvoked := false, false, false;
    }

    ghost function Value(): Roles
      reads this
    {
      Roles(isSigner, isWritable, isInvoked)
    }

    method Add(roles: Roles)
      modifies this
      ensures Value() == old(Value()).Or(roles)
    {
      isSigner := isSigner || roles.signer;
      isWritable := isWritable || roles.writable;
      isInvoked := isInvoked || roles.invoked;
    }
  }

  /** The map from keys to records holds the table `t`, and no two keys share a record. */
  ghost predicate Holds(m: OrderedMap<Pubkey, CompiledKeyMeta>, t: Table)
    reads m.values.Values
  {
    && m.Valid()
    && m.keys == t.keys
    && m.values.Keys == t.values.Keys
    && (forall k :: k in m.values ==> m.values[k].key == k && m.values[k].Value() == t.values[k])
  }

  /** Looks the record of `key` up, or adds an empty one at the end of the map. */
  method GetOrAdd(m: OrderedMap<Pubkey, CompiledKeyMeta>, key: Pubkey, ghost t: Table)
      returns (m': OrderedMap<Pubkey, CompiledKeyMeta>, meta: CompiledKeyMeta)
    requires Holds(m, t) && t.Valid()
    ensures key in m'.values && m'.values[key] == meta
    ensures key in t.values ==> m' == m
    ensures key !in t.values ==> fresh(meta) && m'.values == m.values[key := meta]
    ensures Holds(m', if key in t.values then t else t.Set(key, NO_ROLES))
  {
    m' := m;
    if key in m.values {
      meta := m.values[key];
    } else {
      meta := new CompiledKeyMeta(key);
      m' := m.Set(key, meta);
    }
  }

  /** Grants the roles of one mention: the lookup followed by the in-place `||=` updates. */
  method Grant(m: OrderedMap<Pubkey, CompiledKeyMeta>, ghost t: Table, mention: Mention)
      returns (m': OrderedMap<Pubkey, CompiledKeyMeta>)
    requires Holds(m, t) && t.Valid()
    modifies m.values.Values
    ensures Holds(m', Granted(t, mention))
    ensures fresh(m'.values.Values - m.values.Values)
  {
    var meta;
    m', meta := GetOrAdd(m, mention.key, t);
    label found:
    assert meta.Value() == if mention.key in t.values then t.values[mention.key] else NO_ROLES;
    meta.Add(mention.roles);
    forall k | k in m'.values ensures m'.values[k].Value() == Granted(t, mention).values[k] {
      if k != mention.key {
        assert m'.values[k].key != meta.key;
        assert m'.values[k].Value() == old@found(m'.values[k].Value());
      }
    }
  }

  /** The same step, with the list of mentions that the table summarises. */
  method Mentioned(m: OrderedMap<Pubkey, CompiledKeyMeta>, ghost ms: seq<Mention>, ghost t: Table, mention: Mention)
      returns (m': OrderedMap<Pubkey, CompiledKeyMeta>, ghost ms': seq<Mention>, ghost t': Table)
    requires t == Summary(ms) && Holds(m, t)
    modifies m.values.Values
    ensures ms' == ms + [mention] && t' == Summary(ms') && Holds(m', t')
    ensures fresh(m'.values.Values - m.values.Values)
  {
    m' := Grant(m, t, mention);
    ms', t' := ms + [mention], Granted(t, mention);
    SummarySnoc(ms, mention);
  }

  lemma NothingHolds()
    ensures Holds(Empty(), OrderedMap([], map[]))
  {
  }

  class CompiledKeys {
    const payer: Option<Pubkey>
    const keyMetaMap: OrderedMap<Pubkey, CompiledKeyMeta>

    constructor (payer: Option<Pubkey>, keyMetaMap: OrderedMap<Pubkey, CompiledKeyMeta>)
      ensures this.payer == payer && this.keyMetaMap == keyMetaMap
    {
      this.payer, this.keyMetaMap := payer, keyMetaMap;
    }

    static method Compile(instructions: seq<Instruction>, payer: Option<Pubkey>) returns (c: CompiledKeys)
      ensures fresh(c) && c.payer == payer
      ensures Holds(c.keyMetaMap, Summary(Mentions(instructions, payer)))
      ensures fresh(c.keyMetaMap.values.Values)
    {
      hide Summary, FirstMentions, InstructionMentions, SomeSigner, SomeWritable, SomeInvoked, Holds, Granted,
        AllMentions, AccountMentions;
      AllMentionsOfNothing(instructions);
      SummaryOfNothing();
      NothingHolds();
      var m: OrderedMap<Pubkey, CompiledKeyMeta> := Empty();
      ghost var ms: seq<Mention>, t := [], Summary([]);
      for i := 0 to |instructions|
        invariant ms == AllMentions(instructions[..i]) && t == Summary(ms)
        invariant Holds(m, t)
        invariant fresh(m.values.Values)
      {
        var ix := instructions[i];
        m, ms, t := Mentioned(m, ms, t, Mention(ix.programId, Roles(false, false, true)));
        ghost var start := ms;
        for j := 0 to |ix.accounts|
          invariant ms == start + AccountMentions(ix.accounts)[..j] && t == Summary(ms)
          invariant Holds(m, t)
          invariant fresh(m.values.Values)
        {
          var account := ix.accounts[j];
          AccountMentionsStep(ix.accounts, j);
          m, ms, t := Mentioned(m, ms, t, Mention(account.pubkey, Roles(account.isSigner, account.isWritable, false)));
        }
        assert AccountMentions(ix.accounts)[..|ix.accounts|] == AccountMentions(ix.accounts);
        AllMentionsStep(instructions, i);
      }
      assert instructions[..|instructions|] == instructions;
      assert ms + [] == ms;
      if payer.Some? {
        m, ms, t := Mentioned(m, ms, t, Mention(payer.value, Roles(true, true, false)));
      }
      c := new CompiledKeys(payer, m);
    }

    /** The payer first, then the other entries that are both signer and writable. */
    method PushWritableSigners(entries: seq<Pubkey>) returns (writableSigners: seq<Pubkey>)
      requires forall k :: k in entries ==> k in keyMetaMap.values
      ensures writableSigners == PayerKeys(payer) + Select(keyMetaMap, Without(entries, payer), true, true)
    {
      NothingSelected(keyMetaMap, payer);
      hide Without, Select;
      writableSigners := [];
      if payer.Some? {
        writableSigners := [payer.value];
      }
      for i := 0 to |entries|
        invariant writableSigners == PayerKeys(payer) + Select(keyMetaMap, Without(entries[..i], payer), true, true)
      {
        var meta := keyMetaMap.values[entries[i]];
        assert entries[..i + 1] == entries[..i] + [entries[i]];
        WithoutSnoc(entries[..i], entries[i], payer);
        if payer != Some(entries[i]) {
          SelectSnoc(keyMetaMap, Without(entries[..i], payer), entries[i], true, true);
        } else {
          assert Without(entries[..i], payer) + [] == Without(entries[..i], payer);
        }
        if meta.isSigner && meta.isWritable {
          if payer != Some(entries[i]) {
            writableSigners := writableSigners + [entries[i]];
          }
        }
      }
      assert entries[..|entries|] == entries;
    }

    /** An empty payer key counts as no key when the entries are filtered; its entry is skipped all the same. */
    method TryIntoMessageComponents(ghost t: Table) returns (r: Result<Components, CompileError>)
      requires t.Valid() && Holds(keyMetaMap, t) && HasPayer(t, payer)
      ensures r == ComponentsOf(t, payer)
    {
      hide Without, Select, Bucket, Counted;
      var entries := keyMetaMap.keys;
      if payer.Some? && payer.value != [] {
        entries := Without(entries, payer);
      }
      var writableSigners := PushWritableSigners(entries);
      var readonlySigners := Select(keyMetaMap, entries, true, false);
      var writableNonSigners := Select(keyMetaMap, entries, false, true);
      var readonlyNonSigners := Select(keyMetaMap, entries, false, false);
      WithoutTwice(keyMetaMap.keys, payer);
      PayerNotSelected(keyMetaMap, keyMetaMap.keys, payer, true, false);
      PayerNotSelected(keyMetaMap, keyMetaMap.keys, payer, false, true);
      PayerNotSelected(keyMetaMap, keyMetaMap.keys, payer, false, false);
      SplitIsBuckets(keyMetaMap, t, payer);
      r := CountedComponents(writableSigners, readonlySigners, writableNonSigners, readonlyNonSigners);
    }
  }

  /** The header of the four groups, with the three counts checked in the order of the source. */
  method CountedComponents(writableSigners: seq<Pubkey>, readonlySigners: seq<Pubkey>,
                           writableNonSigners: seq<Pubkey>, readonlyNonSigners: seq<Pubkey>)
      returns (r: Result<Components, CompileError>)
    ensures r == Counted(writableSigners, readonlySigners, writableNonSigners, readonlyNonSigners)
    ensures r.Err? <==> |writableSigners| + |readonlySigners| > 255 || |readonlyNonSigners| > 255
    ensures r.Ok? ==>
      && r.value.header.numRequiredSignatures == |writableSigners| + |readonlySigners|
      && r.value.header.numReadonlySigned == |readonlySigners|
      && r.value.header.numReadonlyUnsigned == |readonlyNonSigners|
      && r.value.accountKeys == writableSigners + readonlySigners + writableNonSigners + readonlyNonSigners
  {
    var numRequiredSignatures := TryIntoU8(|writableSigners| + |readonlySigners|);
    if numRequiredSignatures.Err? { return Err(numRequiredSignatures.error); }
    var numReadonlySigned := TryIntoU8(|readonlySigners|);
    if numReadonlySigned.Err? { return Err(AccountIndexOverflow); }
    var numReadonlyUnsigned := TryIntoU8(|readonlyNonSigners|);
    if numReadonlyUnsigned.Err? { return Err(numReadonlyUnsigned.error); }
    return Ok(Components(
      MessageHeader(numRequiredSignatures.value, numReadonlySigned.value, numReadonlyUnsigned.value),
      writableSigners + readonlySigners + writableNonSigners + readonlyNonSigners));
  }

  function TryIntoU8(num: nat): (r: Result<nat, CompileError>) {
    if num > 255 then Err(AccountIndexOverflow) else Ok(num)
  }

  /** The entries that are not the payer's. */
  function Without(keys: seq<Pubkey>, payer: Option<Pubkey>): (rest: seq<Pubkey>)
    ensures forall k :: k in rest <==> k in keys && payer != Some(k)
  {
    if keys == [] then [] else
      var init, last := keys[..|keys| - 1], keys[|keys| - 1];
      assert keys == init + [last];
      Without(init, payer) + (if payer != Some(last) then [last] else [])
  }

  /** The entries whose record has exactly these two flags. */
  function Select(m: OrderedMap<Pubkey, CompiledKeyMeta>, keys: seq<Pubkey>, signer: bool, writable: bool): seq<Pubkey>
    requires forall k :: k in keys ==> k in m.values
    reads m.values.Values
  {
    if keys == [] then [] else
      var init, last := keys[..|keys| - 1], keys[|keys| - 1];
      var meta := m.values[last];
      Select(m, init, signer, writable) +
      (if meta.isSigner == signer && meta.isWritable == writable then [last] else [])
  }

  lemma NothingSelected(m: OrderedMap<Pubkey, CompiledKeyMeta>, payer: Option<Pubkey>)
    ensures Select(m, Without([], payer), true, true) == []
  {
  }

  lemma WithoutNothing(payer: Option<Pubkey>)
    ensures Without([], payer) == []
  {
  }

  lemma WithoutSnoc(init: seq<Pubkey>, last: Pubkey, payer: Option<Pubkey>)
    ensures Without(init + [last], payer) == Without(init, payer) + (if payer != Some(last) then [last] else [])
  {
    assert (init + [last])[..|init|] == init;
  }

  lemma SelectSnoc(m: OrderedMap<Pubkey, CompiledKeyMeta>, init: seq<Pubkey>, last: Pubkey,
                   signer: bool, writable: bool)
    requires forall k :: k in init + [last] ==> k in m.values
    ensures (forall k :: k in init ==> k in m.values) && last in m.values
    ensures Select(m, init + [last], signer, writable) == Select(m, init, signer, writable) +
      (if m.values[last].isSigner == signer && m.values[last].isWritable == writable then [last] else [])
  {
    assert last in init + [last];
    assert (init + [last])[..|init|] == init;
  }

  lemma {:induction false} WithoutTwice(keys: seq<Pubkey>, payer: Option<Pubkey>)
    ensures Without(Without(keys, payer), payer) == Without(keys, payer)
  {
    hide Without;
    WithoutNothing(payer);
    if keys == [] {
    } else {
      var init, last := keys[..|keys| - 1], keys[|keys| - 1];
      assert keys == init + [last];
      WithoutTwice(init, payer);
      WithoutSnoc(init, last, payer);
      WithoutSnoc(Without(init, payer), last, payer);
      assert Without(init, payer) + [] == Without(init, payer);
    }
  }

  /** A writable signer is in no other group, whether or not it is filtered out before. */
  lemma {:induction false} PayerNotSelected(m: OrderedMap<Pubkey, CompiledKeyMeta>, keys: seq<Pubkey>,
                                            payer: Option<Pubkey>, signer: bool, writable: bool)
    requires (forall k :: k in keys ==> k in m.values) && !(signer && writable)
    requires payer.Some? && payer.value in keys ==> m.values[payer.value].isSigner && m.values[payer.value].isWritable
    ensures Select(m, keys, signer, writable) == Select(m, Without(keys, payer), signer, writable)
  {
    if keys == [] {
    } else {
      hide Without, Select;
      var init, last := keys[..|keys| - 1], keys[|keys| - 1];
      assert keys == init + [last];
      PayerNotSelected(m, init, payer, signer, writable);
      WithoutSnoc(init, last, payer);
      SelectSnoc(m, init, last, signer, writable);
      if payer != Some(last) {
        SelectSnoc(m, Without(init, payer), last, signer, writable);
      } else {
        assert Without(init, payer) + [] == Without(init, payer);
      }
    }
  }

  lemma {:induction false} SelectIsBucket(m: OrderedMap<Pubkey, CompiledKeyMeta>, roles: map<Pubkey, Roles>,
                                          keys: seq<Pubkey>, payer: Option<Pubkey>, signer: bool, writable: bool)
    requires forall k :: k in keys ==> k in m.values && k in roles && m.values[k].Value() == roles[k]
    ensures Select(m, Without(keys, payer), signer, writable) == Bucket(keys, roles, payer, signer, writable)
  {
    hide NoDup;
    if keys == [] {
    } else {
      var init, last := keys[..|keys| - 1], keys[|keys| - 1];
      SelectIsBucket(m, roles, init, payer, signer, writable);
      var rest := Without(keys, payer);
      if payer != Some(last) {
        assert rest == Without(init, payer) + [last];
        assert rest[..|rest| - 1] == Without(init, payer);
        assert m.values[last].Value() == roles[last];
      } else {
        assert rest == Without(init, payer);
      }
    }
  }

  lemma SplitIsBuckets(m: OrderedMap<Pubkey, CompiledKeyMeta>, t: Table, payer: Option<Pubkey>)
    requires t.Valid() && Holds(m, t)
    ensures var entries := Without(m.keys, payer);
            && PayerKeys(payer) + Select(m, entries, true, true) == WritableSigners(t, payer)
            && Select(m, entries, true, false) == ReadonlySigners(t, payer)
            && Select(m, entries, false, true) == WritableNonSigners(t, payer)
            && Select(m, entries, false, false) == ReadonlyNonSigners(t, payer)
  {
    SelectIsBucket(m, t.values, m.keys, payer, true, true);
    SelectIsBucket(m, t.values, m.keys, payer, true, false);
    SelectIsBucket(m, t.values, m.keys, payer, false, true);
    SelectIsBucket(m, t.values, m.keys, payer, false, false);
  }
}
