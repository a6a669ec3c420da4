/** Turning instructions into a message that refers to keys by index (src/serde/sanitized-message.ts). */
module SanitizedMessages {
  import opened Prelude
  import opened Instructions
  import opened CompiledKeyTables

  datatype SanitizedInstruction = SanitizedInstruction(programIdIndex: nat, accounts: seq<nat>, data: seq<byte>)

  datatype SanitizedMessage = SanitizedMessage(
    header: MessageHeader, accountKeys: seq<Pubkey>, recentBlockhash: seq<byte>,
    instructions: seq<SanitizedInstruction>)

  /** `Compile` is a returned CompileError; `KeyNotFound` is the exception that is thrown on to the caller. */
  datatype CreateError = Compile(error: CompileError) | KeyNotFound(key: Pubkey)

  const OVERFLOW := Compile(AccountIndexOverflow)

  // ---------- the reference ----------

  ghost function IndexedKey(keys: seq<Pubkey>, k: Pubkey): Result<nat, CreateError> {
    if k in keys then Ok(IndexOf(keys, k)) else Err(KeyNotFound(k))
  }

  ghost function IndexedAccounts(accounts: seq<AccountMeta>, keys: seq<Pubkey>): (r: Result<seq<nat>, CreateError>)
    ensures r.Ok? ==> |r.value| == |accounts|
  {
    if accounts == [] then Ok([]) else
      var init := IndexedAccounts(accounts[..|accounts| - 1], keys);
      if init.Err? then init else
        var last := IndexedKey(keys, accounts[|accounts| - 1].pubkey);
        if last.Err? then Err(last.error) else Ok(init.value + [last.value])
  }

  ghost function IndexedInstruction(ix: Instruction, keys: seq<Pubkey>): Result<SanitizedInstruction, CreateError> {
    var program := IndexedKey(keys, ix.programId);
    if program.Err? then Err(program.error) else
      var accounts := IndexedAccounts(ix.accounts, keys);
      if accounts.Err? then Err(accounts.error)
      else if program.value > 255 || exists a :: a in accounts.value && a > 255 then Err(OVERFLOW)
      else Ok(SanitizedInstruction(program.value, accounts.value, ix.data))
  }

  ghost function IndexedInstructions(ixs: seq<Instruction>, keys: seq<Pubkey>):
      (r: Result<seq<SanitizedInstruction>, CreateError>)
    ensures r.Ok? ==> |r.value| == |ixs|
  {
    if ixs == [] then Ok([]) else
      var init := IndexedInstructions(ixs[..|ixs| - 1], keys);
      if init.Err? then init else
        var last := IndexedInstruction(ixs[|ixs| - 1], keys);
        if last.Err? then Err(last.error) else Ok(init.value + [last.value])
  }

  ghost function MessageOf(ixs: seq<Instruction>, payer: Option<Pubkey>, recentBlockhash: seq<byte>):
      Result<SanitizedMessage, CreateError>
  {
    var components := ComponentsOf(Summary(Mentions(ixs, payer)), payer);
    if components.Err? then Err(Compile(components.error)) else
      var instructions := IndexedInstructions(ixs, components.value.accountKeys);
      if instructions.Err? then Err(instructions.error) else
        Ok(SanitizedMessage(components.value.header, components.value.accountKeys, recentBlockhash, instructions.value))
  }

  // ---------- the code ----------

  method FindPubkeyIndex(accountKeys: seq<Pubkey>, keyToFind: Pubkey) returns (r: Result<nat, CreateError>)
    ensures r == IndexedKey(accountKeys, keyToFind)
    ensures r.Ok? ==>
      r.value < |accountKeys| && accountKeys[r.value] == keyToFind && keyToFind !in accountKeys[..r.value]
    ensures r.Err? ==> keyToFind !in accountKeys && r.error == KeyNotFound(keyToFind)
  {
    for i := 0 to |accountKeys|
      invariant keyToFind !in accountKeys[..i]
    {
      if accountKeys[i] == keyToFind {
        return Ok(i);
      }
    }
    return Err(KeyNotFound(keyToFind));
  }

  method FindAccountIndices(accounts: seq<AccountMeta>, accountKeys: seq<Pubkey>)
      returns (r: Result<seq<nat>, CreateError>)
    ensures r == IndexedAccounts(accounts, accountKeys)
  {
    var indices := [];
    for i := 0 to |accounts|
      invariant IndexedAccounts(accounts[..i], accountKeys) == Ok(indices)
    {
      var index := FindPubkeyIndex(accountKeys, accounts[i].pubkey);
      assert accounts[..i + 1][..i] == accounts[..i];
      if index.Err? {
        AccountErrorStays(accounts, accountKeys, i + 1);
        return Err(index.error);
      }
      indices := indices + [index.value];
    }
    assert accounts[..|accounts|] == accounts;
    return Ok(indices);
  }

  method CompileTsInstruction(rawInstruction: Instruction, accountKeys: seq<Pubkey>)
      returns (r: Result<SanitizedInstruction, CreateError>)
    ensures r == IndexedInstruction(rawInstruction, accountKeys)
  {
    var programIdIndex := FindPubkeyIndex(accountKeys, rawInstruction.programId);
    if programIdIndex.Err? {
      return Err(programIdIndex.error);
    }
    var accountIndices := FindAccountIndices(rawInstruction.accounts, accountKeys);
    if accountIndices.Err? {
      return Err(accountIndices.error);
    }
    if programIdIndex.value > 255 {
      return Err(OVERFLOW);
    }
    for i := 0 to |accountIndices.value|
      invariant forall a :: a in accountIndices.value[..i] ==> a <= 255
    {
      assert accountIndices.value[..i + 1] == accountIndices.value[..i] + [accountIndices.value[i]];
      if accountIndices.value[i] > 255 {
        assert accountIndices.value[i] in accountIndices.value;
        return Err(OVERFLOW);
      }
    }
    assert accountIndices.value[..|accountIndices.value|] == accountIndices.value;
    return Ok(SanitizedInstruction(programIdIndex.value, accountIndices.value, rawInstruction.data));
  }

  method CompileTsInstructions(rawInstructions: seq<Instruction>, accountKeys: seq<Pubkey>)
      returns (r: Result<seq<SanitizedInstruction>, CreateError>)
    ensures r == IndexedInstructions(rawInstructions, accountKeys)
  {
    var compiled := [];
    for i := 0 to |rawInstructions|
      invariant IndexedInstructions(rawInstructions[..i], accountKeys) == Ok(compiled)
    {
      var ix := CompileTsInstruction(rawInstructions[i], accountKeys);
      assert rawInstructions[..i + 1][..i] == rawInstructions[..i];
      if ix.Err? {
        InstructionErrorStays(rawInstructions, accountKeys, i + 1);
        return Err(ix.error);
      }
      compiled := compiled + [ix.value];
    }
    assert rawInstructions[..|rawInstructions|] == rawInstructions;
    return Ok(compiled);
  }

  method CreateSanitizedMessage(rawInstructions: seq<Instruction>, payer: Option<Pubkey>, recentBlockhash: seq<byte>)
      returns (r: Result<SanitizedMessage, CreateError>)
    ensures r == MessageOf(rawInstructions, payer, recentBlockhash)
  {
    var compiledKeys := CompiledKeys.Compile(rawInstructions, payer);
    SummaryHasPayer(rawInstructions, payer);
    var components := compiledKeys.TryIntoMessageComponents(Summary(Mentions(rawInstructions, payer)));
    if components.Err? {
      return Err(Compile(components.error));
    }
    var Components(header, accountKeys) := components.value;
    var instructions := CompileTsInstructions(rawInstructions, accountKeys);
    if instructions.Err? {
      return Err(instructions.error);
    }
    return Ok(SanitizedMessage(header, accountKeys, recentBlockhash, instructions.value));
  }

  // ---------- the first failure decides ----------

  lemma {:induction false} AccountErrorStays(accounts: seq<AccountMeta>, keys: seq<Pubkey>, n: nat)
    requires n <= |accounts| && IndexedAccounts(accounts[..n], keys).Err?
    ensures IndexedAccounts(accounts, keys) == IndexedAccounts(accounts[..n], keys)
    decreases |accounts|
  {
    if n == |accounts| {
      assert accounts[..n] == accounts;
    } else {
      var init := accounts[..|accounts| - 1];
      assert init[..n] == accounts[..n];
      AccountErrorStays(init, keys, n);
    }
  }

  lemma {:induction false} InstructionErrorStays(ixs: seq<Instruction>, keys: seq<Pubkey>, n: nat)
    requires n <= |ixs| && IndexedInstructions(ixs[..n], keys).Err?
    ensures IndexedInstructions(ixs, keys) == IndexedInstructions(ixs[..n], keys)
    decreases |ixs|
  {
    if n == |ixs| {
      assert ixs[..n] == ixs;
    } else {
      var init := ixs[..|ixs| - 1];
      assert init[..n] == ixs[..n];
      InstructionErrorStays(init, keys, n);
    }
  }

  // ---------- which outcome it is ----------

  /** The entry is the first one whose key is not listed. */
  predicate FirstMissing(accounts: seq<AccountMeta>, keys: seq<Pubkey>, j: nat) {
    && j < |accounts| && accounts[j].pubkey !in keys
    && forall i :: 0 <= i < j ==> accounts[i].pubkey in keys
  }

  predicate AllListed(accounts: seq<AccountMeta>, keys: seq<Pubkey>) {
    forall j :: 0 <= j < |accounts| ==> accounts[j].pubkey in keys
  }

  lemma {:induction false} AccountsOutcome(accounts: seq<AccountMeta>, keys: seq<Pubkey>)
    ensures var r := IndexedAccounts(accounts, keys);
            && (r.Ok? <==> AllListed(accounts, keys))
            && (r.Ok? ==> |r.value| == |accounts|)
            && (r.Ok? ==> forall j :: 0 <= j < |accounts| ==> r.value[j] == IndexOf(keys, accounts[j].pubkey))
            && (r.Err? ==>
                  exists j: nat :: FirstMissing(accounts, keys, j) && r.error == KeyNotFound(accounts[j].pubkey))
  {
    hide IndexOf;
    if accounts == [] {
    } else {
      var init, last := accounts[..|accounts| - 1], accounts[|accounts| - 1];
      AccountsOutcome(init, keys);
      assert forall j :: 0 <= j < |init| ==> accounts[j] == init[j];
      if r :| 0 <= r < |init| && FirstMissing(init, keys, r) {
        assert FirstMissing(accounts, keys, r);
      } else if last.pubkey !in keys {
        assert FirstMissing(accounts, keys, |init|);
      }
    }
  }

  /** One instruction: a missing program, then the first missing account, then an index above 255; otherwise every key
      is replaced by its first position. */
  lemma InstructionOutcome(ix: Instruction, keys: seq<Pubkey>)
    ensures var r := IndexedInstruction(ix, keys);
            && (ix.programId !in keys ==> r == Err(KeyNotFound(ix.programId)))
            && (ix.programId in keys && !AllListed(ix.accounts, keys) ==>
                  exists j: nat ::
                    FirstMissing(ix.accounts, keys, j) && r == Err(KeyNotFound(ix.accounts[j].pubkey)))
            && (ix.programId in keys && AllListed(ix.accounts, keys) ==>
                  if IndexOf(keys, ix.programId) > 255
                     || exists j :: 0 <= j < |ix.accounts| && IndexOf(keys, ix.accounts[j].pubkey) > 255 then
                    r == Err(Compile(AccountIndexOverflow))
                  else
                    && r.Ok? && r.value.programIdIndex == IndexOf(keys, ix.programId) && r.value.data == ix.data
                    && |r.value.accounts| == |ix.accounts|
                    && forall j :: 0 <= j < |ix.accounts| ==>
                         r.value.accounts[j] == IndexOf(keys, ix.accounts[j].pubkey))
  {
    hide IndexOf, FirstMissing, IndexedAccounts;
    AccountsOutcome(ix.accounts, keys);
    var accounts := IndexedAccounts(ix.accounts, keys);
    if accounts.Ok? {
      assert forall j :: 0 <= j < |ix.accounts| ==> accounts.value[j] in accounts.value;
    }
  }

  /** A list of instructions: the first failure decides, and without one every instruction has its own result. */
  lemma {:induction false} InstructionsOutcome(ixs: seq<Instruction>, keys: seq<Pubkey>)
    ensures var r := IndexedInstructions(ixs, keys);
            && (r.Ok? ==> |r.value| == |ixs|)
            && (r.Ok? ==> forall i :: 0 <= i < |ixs| ==> IndexedInstruction(ixs[i], keys) == Ok(r.value[i]))
            && (r.Err? ==> exists i ::
                  && 0 <= i < |ixs| && IndexedInstruction(ixs[i], keys) == Err(r.error)
                  && forall i' :: 0 <= i' < i ==> IndexedInstruction(ixs[i'], keys).Ok?)
  {
    hide IndexedInstruction;
    if ixs == [] {
    } else {
      var init := ixs[..|ixs| - 1];
      InstructionsOutcome(init, keys);
      assert forall i :: 0 <= i < |init| ==> ixs[i] == init[i];
    }
  }
}
