/** The bytes of a transaction (src/serde/transaction.ts, src/serde/sanitized-message.ts,
    src/serde/sanitized-instruction.ts) and the parser that they determine. */
module Wire {
  import opened Prelude
  import opened LittleEndian
  import opened Instructions
  import opened CompiledKeyTables
  import opened SanitizedMessages

  const MAX_SIGNERS := 16
  const RUNTIME_TX_SIZE_LIMIT := 4096

  datatype RuntimeTransaction = RuntimeTransaction(version: nat, signatures: seq<seq<byte>>, message: SanitizedMessage)

  datatype TransactionError = TooManySignatures(found: nat)

  // ---------- the serializers; numbers are cut to the width they are written at ----------

  function U32(n: nat): seq<byte> {
    LowBytes(n, 4)
  }

  function CutToBytes(ns: seq<nat>): (b: seq<byte>)
    ensures |b| == |ns|
  {
    seq(|ns|, i requires 0 <= i < |ns| => ToByte(ns[i]))
  }

  function Flat(parts: seq<seq<byte>>): seq<byte> {
    if parts == [] then [] else parts[0] + Flat(parts[1..])
  }

  /** A four-byte length and then the bytes. */
  function LengthPrefixed(b: seq<byte>): seq<byte> {
    U32(|b|) + b
  }

  function SerializeInstruction(ix: SanitizedInstruction): seq<byte> {
    [ToByte(ix.programIdIndex)] + LengthPrefixed(CutToBytes(ix.accounts)) + LengthPrefixed(ix.data)
  }

  function SerializeInstructions(ixs: seq<SanitizedInstruction>): seq<byte> {
    if ixs == [] then [] else SerializeInstruction(ixs[0]) + SerializeInstructions(ixs[1..])
  }

  function SerializeHeader(h: MessageHeader): seq<byte> {
    [ToByte(h.numRequiredSignatures), ToByte(h.numReadonlySigned), ToByte(h.numReadonlyUnsigned)]
  }

  function SerializeKeys(keys: seq<Pubkey>): seq<byte> {
    U32(|keys|) + Flat(keys)
  }

  function SerializeInstructionList(ixs: seq<SanitizedInstruction>): seq<byte> {
    U32(|ixs|) + SerializeInstructions(ixs)
  }

  function SerializeMessage(m: SanitizedMessage): seq<byte> {
    SerializeHeader(m.header) + SerializeKeys(m.accountKeys) + m.recentBlockhash +
    SerializeInstructionList(m.instructions)
  }

  function SerializeSignatures(signatures: seq<seq<byte>>): seq<byte> {
    [ToByte(|signatures|)] + Flat(signatures)
  }

  function Serialize(tx: RuntimeTransaction): Result<seq<byte>, TransactionError> {
    if |tx.signatures| > MAX_SIGNERS then Err(TooManySignatures(|tx.signatures|))
    else Ok(U32(tx.version) + SerializeSignatures(tx.signatures) + SerializeMessage(tx.message))
  }

  datatype SizeCheck = Fits | TooLarge(size: nat) | Refused(error: TransactionError)

  function CheckTxSizeLimit(tx: RuntimeTransaction): SizeCheck {
    var bytes := Serialize(tx);
    if bytes.Err? then Refused(bytes.error)
    else if |bytes.value| > RUNTIME_TX_SIZE_LIMIT then TooLarge(|bytes.value|) else Fits
  }

  // ---------- which values fit the widths ----------

  predicate AllOfLength(parts: seq<seq<byte>>, n: nat) {
    forall i :: 0 <= i < |parts| ==> |parts[i]| == n
  }

  predicate InstructionFits(ix: SanitizedInstruction) {
    && ix.programIdIndex < 256
    && |ix.accounts| < 0x1_0000_0000 && (forall i :: 0 <= i < |ix.accounts| ==> ix.accounts[i] < 256)
    && |ix.data| < 0x1_0000_0000
  }

  predicate MessageFits(m: SanitizedMessage) {
    && m.header.numRequiredSignatures < 256 && m.header.numReadonlySigned < 256 && m.header.numReadonlyUnsigned < 256
    && |m.accountKeys| < 0x1_0000_0000 && AllOfLength(m.accountKeys, 32)
    && |m.recentBlockhash| == 32
    && |m.instructions| < 0x1_0000_0000
    && (forall i :: 0 <= i < |m.instructions| ==> InstructionFits(m.instructions[i]))
  }

  predicate TransactionFits(tx: RuntimeTransaction) {
    && tx.version < 0x1_0000_0000
    && |tx.signatures| <= MAX_SIGNERS && AllOfLength(tx.signatures, 64)
    && MessageFits(tx.message)
  }

  // ---------- the parser ----------

  /** A parsed value and the bytes after it. */
  datatype Parsed<+T> = NoParse | Parsed(value: T, rest: seq<byte>)

  function ParseBytes(n: nat, b: seq<byte>): Parsed<seq<byte>> {
    if |b| < n then NoParse else Parsed(b[..n], b[n..])
  }

  function ParseU32(b: seq<byte>): Parsed<nat> {
    if |b| < 4 then NoParse else Parsed(NumberOf(b[..4]), b[4..])
  }

  function ParseParts(count: nat, n: nat, b: seq<byte>): Parsed<seq<seq<byte>>>
    decreases count
  {
    if count == 0 then Parsed([], b) else
      var head := ParseBytes(n, b);
      if head.NoParse? then NoParse else
        var tail := ParseParts(count - 1, n, head.rest);
        if tail.NoParse? then NoParse else Parsed([head.value] + tail.value, tail.rest)
  }

  /** A four-byte count followed by that many bytes. */
  function ParseLengthPrefixed(b: seq<byte>): Parsed<seq<byte>> {
    var n := ParseU32(b);
    if n.NoParse? then NoParse else ParseBytes(n.value, n.rest)
  }

  function ParseInstruction(b: seq<byte>): Parsed<SanitizedInstruction> {
    if b == [] then NoParse else
      var accounts := ParseLengthPrefixed(b[1..]);
      if accounts.NoParse? then NoParse else
        var data := ParseLengthPrefixed(accounts.rest);
        if data.NoParse? then NoParse else
          Parsed(SanitizedInstruction(b[0], accounts.value, data.value), data.rest)
  }

  function ParseInstructions(count: nat, b: seq<byte>): Parsed<seq<SanitizedInstruction>>
    decreases count
  {
    if count == 0 then Parsed([], b) else
      var head := ParseInstruction(b);
      if head.NoParse? then NoParse else
        var tail := ParseInstructions(count - 1, head.rest);
        if tail.NoParse? then NoParse else Parsed([head.value] + tail.value, tail.rest)
  }

  function ParseKeys(b: seq<byte>): Parsed<seq<Pubkey>> {
    var n := ParseU32(b);
    if n.NoParse? then NoParse else ParseParts(n.value, 32, n.rest)
  }

  function ParseInstructionList(b: seq<byte>): Parsed<seq<SanitizedInstruction>> {
    var n := ParseU32(b);
    if n.NoParse? then NoParse else ParseInstructions(n.value, n.rest)
  }

  function ParseMessage(b: seq<byte>): Parsed<SanitizedMessage> {
    if |b| < 3 then NoParse else
      var keys := ParseKeys(b[3..]);
      if keys.NoParse? then NoParse else
        var hash := ParseBytes(32, keys.rest);
        if hash.NoParse? then NoParse else
          var ixs := ParseInstructionList(hash.rest);
          if ixs.NoParse? then NoParse else
            Parsed(SanitizedMessage(MessageHeader(b[0], b[1], b[2]), keys.value, hash.value, ixs.value), ixs.rest)
  }

  function ParseSignatures(b: seq<byte>): Parsed<seq<seq<byte>>> {
    if b == [] || b[0] > MAX_SIGNERS then NoParse else ParseParts(b[0], 64, b[1..])
  }

  function ParseTransaction(b: seq<byte>): Parsed<RuntimeTransaction> {
    var version := ParseU32(b);
    if version.NoParse? then NoParse else
      var signatures := ParseSignatures(version.rest);
      if signatures.NoParse? then NoParse else
        var message := ParseMessage(signatures.rest);
        if message.NoParse? then NoParse else
          Parsed(RuntimeTransaction(version.value, signatures.value, message.value), message.rest)
  }

  // ---------- parsing undoes serializing, whatever follows ----------

  lemma U32Parses(n: nat, suffix: seq<byte>)
    requires n < 0x1_0000_0000
    ensures ParseU32(U32(n) + suffix) == Parsed(n, suffix)
  {
    NumberOfLowBytes(n, 4);
    FourBytePower();
    assert (U32(n) + suffix)[..4] == U32(n);
    assert (U32(n) + suffix)[4..] == suffix;
  }

  lemma BytesParse(a: seq<byte>, suffix: seq<byte>)
    ensures ParseBytes(|a|, a + suffix) == Parsed(a, suffix)
  {
  }

  lemma LengthPrefixedParses(a: seq<byte>, suffix: seq<byte>)
    requires |a| < 0x1_0000_0000
    ensures ParseLengthPrefixed(LengthPrefixed(a) + suffix) == Parsed(a, suffix)
  {
    assert LengthPrefixed(a) + suffix == U32(|a|) + (a + suffix);
    U32Parses(|a|, a + suffix);
    BytesParse(a, suffix);
  }

  lemma {:induction false} PartsParse(parts: seq<seq<byte>>, n: nat, suffix: seq<byte>)
    requires AllOfLength(parts, n)
    ensures ParseParts(|parts|, n, Flat(parts) + suffix) == Parsed(parts, suffix)
  {
    if parts == [] {
      assert Flat(parts) + suffix == suffix;
    } else {
      var tail := Flat(parts[1..]) + suffix;
      assert Flat(parts) + suffix == parts[0] + tail;
      BytesParse(parts[0], tail);
      PartsParse(parts[1..], n, suffix);
      assert [parts[0]] + parts[1..] == parts;
    }
  }

  lemma SmallNumbersAreBytes(ns: seq<nat>)
    requires forall i :: 0 <= i < |ns| ==> ns[i] < 256
    ensures CutToBytes(ns) == ns
  {
  }

  lemma InstructionParses(ix: SanitizedInstruction, suffix: seq<byte>)
    requires InstructionFits(ix)
    ensures ParseInstruction(SerializeInstruction(ix) + suffix) == Parsed(ix, suffix)
  {
    hide LengthPrefixed, ParseLengthPrefixed;
    SmallNumbersAreBytes(ix.accounts);
    var accounts, data := LengthPrefixed(CutToBytes(ix.accounts)), LengthPrefixed(ix.data);
    var b := SerializeInstruction(ix) + suffix;
    Tail(ToByte(ix.programIdIndex), accounts, data, suffix);
    LengthPrefixedParses(CutToBytes(ix.accounts), data + suffix);
    LengthPrefixedParses(ix.data, suffix);
  }

  lemma Tail(head: byte, a: seq<byte>, b: seq<byte>, suffix: seq<byte>)
    ensures var whole := [head] + a + b + suffix; whole != [] && whole[0] == head && whole[1..] == a + (b + suffix)
  {
  }

  lemma {:induction false} InstructionsParse(ixs: seq<SanitizedInstruction>, suffix: seq<byte>)
    requires forall i :: 0 <= i < |ixs| ==> InstructionFits(ixs[i])
    ensures ParseInstructions(|ixs|, SerializeInstructions(ixs) + suffix) == Parsed(ixs, suffix)
  {
    if ixs == [] {
      assert SerializeInstructions(ixs) + suffix == suffix;
    } else {
      var tail := SerializeInstructions(ixs[1..]) + suffix;
      assert SerializeInstructions(ixs) + suffix == SerializeInstruction(ixs[0]) + tail;
      InstructionParses(ixs[0], tail);
      InstructionsParse(ixs[1..], suffix);
      assert [ixs[0]] + ixs[1..] == ixs;
    }
  }

  lemma KeysParse(keys: seq<Pubkey>, suffix: seq<byte>)
    requires |keys| < 0x1_0000_0000 && AllOfLength(keys, 32)
    ensures ParseKeys(SerializeKeys(keys) + suffix) == Parsed(keys, suffix)
  {
    var body := Flat(keys) + suffix;
    assert SerializeKeys(keys) + suffix == U32(|keys|) + body;
    U32Parses(|keys|, body);
    PartsParse(keys, 32, suffix);
  }

  lemma InstructionListParses(ixs: seq<SanitizedInstruction>, suffix: seq<byte>)
    requires |ixs| < 0x1_0000_0000 && forall i :: 0 <= i < |ixs| ==> InstructionFits(ixs[i])
    ensures ParseInstructionList(SerializeInstructionList(ixs) + suffix) == Parsed(ixs, suffix)
  {
    var body := SerializeInstructions(ixs) + suffix;
    assert SerializeInstructionList(ixs) + suffix == U32(|ixs|) + body;
    U32Parses(|ixs|, body);
    InstructionsParse(ixs, suffix);
  }

  lemma SignaturesParse(signatures: seq<seq<byte>>, suffix: seq<byte>)
    requires |signatures| <= MAX_SIGNERS && AllOfLength(signatures, 64)
    ensures ParseSignatures(SerializeSignatures(signatures) + suffix) == Parsed(signatures, suffix)
  {
    var b := SerializeSignatures(signatures) + suffix;
    assert b[0] == |signatures| && b[1..] == Flat(signatures) + suffix;
    PartsParse(signatures, 64, suffix);
  }

  /** A message is parsed part by part; `k` and `l` are the bytes of its keys and of its instructions. */
  lemma MessageFromParts(h: seq<byte>, k: seq<byte>, hash: seq<byte>, l: seq<byte>, suffix: seq<byte>,
                         keys: seq<Pubkey>, ixs: seq<SanitizedInstruction>)
    requires |h| == 3 && |hash| == 32
    requires ParseKeys(k + (hash + (l + suffix))) == Parsed(keys, hash + (l + suffix))
    requires ParseInstructionList(l + suffix) == Parsed(ixs, suffix)
    ensures ParseMessage(h + k + hash + l + suffix)
         == Parsed(SanitizedMessage(MessageHeader(h[0], h[1], h[2]), keys, hash, ixs), suffix)
  {
    hide ParseKeys, ParseInstructionList;
    var b := h + k + hash + l + suffix;
    assert b[3..] == k + (hash + (l + suffix));
    BytesParse(hash, l + suffix);
  }

  lemma MessageParses(m: SanitizedMessage, suffix: seq<byte>)
    requires MessageFits(m)
    ensures ParseMessage(SerializeMessage(m) + suffix) == Parsed(m, suffix)
  {
    hide ParseKeys, ParseInstructionList, ParseMessage, SerializeKeys, SerializeInstructionList;
    var h, k, l := SerializeHeader(m.header), SerializeKeys(m.accountKeys), SerializeInstructionList(m.instructions);
    KeysParse(m.accountKeys, m.recentBlockhash + (l + suffix));
    InstructionListParses(m.instructions, suffix);
    MessageFromParts(h, k, m.recentBlockhash, l, suffix, m.accountKeys, m.instructions);
  }

  /** A transaction is parsed part by part; `v`, `s` and `m` are the bytes of its version, signatures and message. */
  lemma TransactionFromParts(v: seq<byte>, s: seq<byte>, m: seq<byte>, suffix: seq<byte>,
                             version: nat, signatures: seq<seq<byte>>, message: SanitizedMessage)
    requires ParseU32(v + (s + (m + suffix))) == Parsed(version, s + (m + suffix))
    requires ParseSignatures(s + (m + suffix)) == Parsed(signatures, m + suffix)
    requires ParseMessage(m + suffix) == Parsed(message, suffix)
    ensures ParseTransaction(v + s + m + suffix) == Parsed(RuntimeTransaction(version, signatures, message), suffix)
  {
    hide ParseU32, ParseSignatures, ParseMessage;
    assert v + s + m + suffix == v + (s + (m + suffix));
  }

  /** A transaction that fits the widths is read back from its bytes, whatever bytes follow them. */
  lemma TransactionParses(tx: RuntimeTransaction, suffix: seq<byte>)
    requires TransactionFits(tx)
    ensures Serialize(tx).Ok? && ParseTransaction(Serialize(tx).value + suffix) == Parsed(tx, suffix)
  {
    var v, s, m := U32(tx.version), SerializeSignatures(tx.signatures), SerializeMessage(tx.message);
    U32Parses(tx.version, s + (m + suffix));
    SignaturesParse(tx.signatures, m + suffix);
    MessageParses(tx.message, suffix);
    TransactionFromParts(v, s, m, suffix, tx.version, tx.signatures, tx.message);
  }

  /** No transaction's bytes are a proper prefix of another's, and different transactions have different bytes. */
  lemma SerializePrefixFree(tx: RuntimeTransaction, tx': RuntimeTransaction)
    requires TransactionFits(tx) && TransactionFits(tx')
    requires Serialize(tx).value <= Serialize(tx').value
    ensures tx == tx'
  {
    TransactionParses(tx, []);
    TransactionParses(tx', []);
    hide *;
    var b, b' := Serialize(tx).value, Serialize(tx').value;
    TransactionParses(tx, b'[|b|..]);
    assert b + b'[|b|..] == b' == b' + [];
  }

  // ---------- serializing undoes parsing: the parser accepts nothing else ----------

  lemma U32Unparses(b: seq<byte>)
    requires ParseU32(b).Parsed?
    ensures var r := ParseU32(b); r.value < 0x1_0000_0000 && b == U32(r.value) + r.rest
  {
    NumberOfBound(b[..4]);
    FourBytePower();
    LowBytesOfNumber(b[..4]);
  }

  lemma LengthPrefixedUnparses(b: seq<byte>)
    requires ParseLengthPrefixed(b).Parsed?
    ensures var r := ParseLengthPrefixed(b); |r.value| < 0x1_0000_0000 && b == LengthPrefixed(r.value) + r.rest
  {
    U32Unparses(b);
  }

  lemma {:induction false} PartsUnparse(count: nat, n: nat, b: seq<byte>)
    requires ParseParts(count, n, b).Parsed?
    ensures var r := ParseParts(count, n, b);
            |r.value| == count && AllOfLength(r.value, n) && b == Flat(r.value) + r.rest
    decreases count
  {
    if count == 0 {
    } else {
      var head := ParseBytes(n, b);
      PartsUnparse(count - 1, n, head.rest);
      var tail := ParseParts(count - 1, n, head.rest);
      assert ([head.value] + tail.value)[1..] == tail.value;
      assert b == head.value + (Flat(tail.value) + tail.rest);
    }
  }

  lemma InstructionUnparses(b: seq<byte>)
    requires ParseInstruction(b).Parsed?
    ensures var r := ParseInstruction(b); InstructionFits(r.value) && b == SerializeInstruction(r.value) + r.rest
  {
    hide LengthPrefixed, ParseLengthPrefixed;
    var accounts := ParseLengthPrefixed(b[1..]);
    var data := ParseLengthPrefixed(accounts.rest);
    LengthPrefixedUnparses(b[1..]);
    LengthPrefixedUnparses(accounts.rest);
    SmallNumbersAreBytes(accounts.value);
    InstructionJoins(b, LengthPrefixed(accounts.value), accounts.rest, LengthPrefixed(data.value), data.rest);
  }

  lemma InstructionJoins(b: seq<byte>, a: seq<byte>, afterA: seq<byte>, d: seq<byte>, rest: seq<byte>)
    requires b != [] && b[1..] == a + afterA && afterA == d + rest
    ensures b == [b[0]] + a + d + rest
  {
    assert b == [b[0]] + b[1..];
  }

  lemma {:induction false} InstructionsUnparse(count: nat, b: seq<byte>)
    requires ParseInstructions(count, b).Parsed?
    ensures var r := ParseInstructions(count, b);
            && |r.value| == count && (forall i :: 0 <= i < count ==> InstructionFits(r.value[i]))
            && b == SerializeInstructions(r.value) + r.rest
    decreases count
  {
    hide ParseInstruction, SerializeInstruction, InstructionFits;
    if count == 0 {
    } else {
      var head := ParseInstruction(b);
      var tail := ParseInstructions(count - 1, head.rest);
      InstructionUnparses(b);
      InstructionsUnparse(count - 1, head.rest);
      InstructionsJoin(b, head.value, head.rest, tail.value, tail.rest);
    }
  }

  lemma InstructionsJoin(b: seq<byte>, head: SanitizedInstruction, afterHead: seq<byte>,
                         tail: seq<SanitizedInstruction>, rest: seq<byte>)
    requires b == SerializeInstruction(head) + afterHead && afterHead == SerializeInstructions(tail) + rest
    ensures b == SerializeInstructions([head] + tail) + rest
  {
    assert ([head] + tail)[1..] == tail;
    var h, t := SerializeInstruction(head), SerializeInstructions(tail);
    assert h + t + rest == h + (t + rest);
  }

  lemma KeysUnparse(b: seq<byte>)
    requires ParseKeys(b).Parsed?
    ensures var r := ParseKeys(b);
            |r.value| < 0x1_0000_0000 && AllOfLength(r.value, 32) && b == SerializeKeys(r.value) + r.rest
  {
    var count := ParseU32(b);
    U32Unparses(b);
    PartsUnparse(count.value, 32, count.rest);
  }

  lemma InstructionListUnparses(b: seq<byte>)
    requires ParseInstructionList(b).Parsed?
    ensures var r := ParseInstructionList(b);
            && |r.value| < 0x1_0000_0000 && (forall i :: 0 <= i < |r.value| ==> InstructionFits(r.value[i]))
            && b == SerializeInstructionList(r.value) + r.rest
  {
    var count := ParseU32(b);
    U32Unparses(b);
    InstructionsUnparse(count.value, count.rest);
  }

  lemma MessageJoins(b: seq<byte>, k: seq<byte>, afterK: seq<byte>, hash: seq<byte>, afterHash: seq<byte>,
                     l: seq<byte>, rest: seq<byte>)
    requires |b| >= 3 && b[3..] == k + afterK && afterK == hash + afterHash && afterHash == l + rest
    ensures b == [b[0], b[1], b[2]] + k + hash + l + rest
  {
    assert b == [b[0], b[1], b[2]] + b[3..];
  }

  lemma MessageUnparses(b: seq<byte>)
    requires ParseMessage(b).Parsed?
    ensures var r := ParseMessage(b); MessageFits(r.value) && b == SerializeMessage(r.value) + r.rest
  {
    hide ParseKeys, ParseInstructionList, SerializeKeys, SerializeInstructionList, InstructionFits, AllOfLength;
    var keys := ParseKeys(b[3..]);
    var hash := ParseBytes(32, keys.rest);
    var ixs := ParseInstructionList(hash.rest);
    KeysUnparse(b[3..]);
    InstructionListUnparses(hash.rest);
    MessageJoins(b, SerializeKeys(keys.value), keys.rest, hash.value, hash.rest,
                 SerializeInstructionList(ixs.value), ixs.rest);
  }

  lemma SignaturesUnparse(b: seq<byte>)
    requires ParseSignatures(b).Parsed?
    ensures var r := ParseSignatures(b);
            |r.value| <= MAX_SIGNERS && AllOfLength(r.value, 64) && b == SerializeSignatures(r.value) + r.rest
  {
    PartsUnparse(b[0], 64, b[1..]);
    assert b == [b[0]] + b[1..];
  }

  lemma TransactionJoins(b: seq<byte>, v: seq<byte>, afterV: seq<byte>, s: seq<byte>, afterS: seq<byte>,
                         m: seq<byte>, rest: seq<byte>)
    requires b == v + afterV && afterV == s + afterS && afterS == m + rest
    ensures b == v + s + m + rest
  {
  }

  /** Whatever the parser accepts is the serialization of the transaction it returns, followed by the rest. */
  lemma TransactionUnparses(b: seq<byte>)
    requires ParseTransaction(b).Parsed?
    ensures var r := ParseTransaction(b);
            TransactionFits(r.value) && Serialize(r.value).Ok? && b == Serialize(r.value).value + r.rest
  {
    var version := ParseU32(b);
    var signatures := ParseSignatures(version.rest);
    var message := ParseMessage(signatures.rest);
    U32Unparses(b);
    SignaturesUnparse(version.rest);
    MessageUnparses(signatures.rest);
    TransactionJoins(b, U32(version.value), version.rest, SerializeSignatures(signatures.value), signatures.rest,
                     SerializeMessage(message.value), message.rest);
  }

  // ---------- sizes ----------

  function InstructionsSize(ixs: seq<SanitizedInstruction>): nat {
    if ixs == [] then 0 else 9 + |ixs[0].accounts| + |ixs[0].data| + InstructionsSize(ixs[1..])
  }

  lemma {:induction false} FlatSize(parts: seq<seq<byte>>, n: nat)
    requires AllOfLength(parts, n)
    ensures |Flat(parts)| == n * |parts|
  {
    if parts == [] {
    } else {
      FlatSize(parts[1..], n);
    }
  }

  lemma {:induction false} InstructionsSizeExact(ixs: seq<SanitizedInstruction>)
    ensures |SerializeInstructions(ixs)| == InstructionsSize(ixs)
  {
    if ixs == [] {
    } else {
      InstructionsSizeExact(ixs[1..]);
    }
  }

  /** The exact size of a transaction's bytes. */
  lemma SerializedSize(tx: RuntimeTransaction)
    requires Serialize(tx).Ok? && AllOfLength(tx.signatures, 64)
    requires AllOfLength(tx.message.accountKeys, 32) && |tx.message.recentBlockhash| == 32
    ensures |Serialize(tx).value| ==
      48 + 64 * |tx.signatures| + 32 * |tx.message.accountKeys| + InstructionsSize(tx.message.instructions)
  {
    FlatSize(tx.signatures, 64);
    FlatSize(tx.message.accountKeys, 32);
    InstructionsSizeExact(tx.message.instructions);
  }

  // ---------- the layout: what stands at which byte ----------

  lemma U32Spells(n: nat)
    ensures NumberOf(U32(n)) == n % 0x1_0000_0000
  {
    NumberOfLowBytes(n, 4);
    FourBytePower();
  }

  /** The parts of a concatenation are its slices. */
  lemma Slices(a: seq<byte>, b: seq<byte>, c: seq<byte>, d: seq<byte>)
    ensures var whole := a + b + c + d; var i, j := |a|, |a| + |b|;
            whole[..i] == a && whole[i..j] == b && whole[j..j + |c|] == c && whole[j + |c|..] == d
  {
  }

  /** An instruction: program index, four-byte number of accounts, account indices, four-byte length, data. */
  lemma InstructionLayout(ix: SanitizedInstruction)
    ensures var b, n := SerializeInstruction(ix), |ix.accounts|;
            && |b| == 9 + n + |ix.data|
            && b[0] == ix.programIdIndex % 256
            && NumberOf(b[1..5]) == n % 0x1_0000_0000
            && (forall i :: 0 <= i < n ==> b[5 + i] == ix.accounts[i] % 256)
            && NumberOf(b[5 + n..9 + n]) == |ix.data| % 0x1_0000_0000
            && b[9 + n..] == ix.data
  {
    hide NumberOf, LowBytes;
    var b, n, indices := SerializeInstruction(ix), |ix.accounts|, CutToBytes(ix.accounts);
    U32Spells(n);
    U32Spells(|ix.data|);
    Slices([ToByte(ix.programIdIndex)] + U32(n), indices, U32(|ix.data|), ix.data);
    assert b == [ToByte(ix.programIdIndex)] + U32(n) + indices + U32(|ix.data|) + ix.data;
    assert b[1..5] == U32(n);
    forall i | 0 <= i < n ensures b[5 + i] == ix.accounts[i] % 256 {
      assert b[5..5 + n][i] == indices[i];
    }
  }

  lemma {:induction false} FlatAt(parts: seq<seq<byte>>, n: nat, i: nat)
    requires AllOfLength(parts, n) && i < |parts|
    ensures |Flat(parts)| == n * |parts| >= n * i + n
    ensures Flat(parts)[n * i..n * i + n] == parts[i]
  {
    FlatSize(parts, n);
    if i > 0 {
      FlatAt(parts[1..], n, i - 1);
      SliceAfter(parts[0], Flat(parts[1..]), n * (i - 1), n);
    }
  }

  lemma SliceAfter(a: seq<byte>, b: seq<byte>, i: nat, n: nat)
    requires i + n <= |b|
    ensures (a + b)[|a| + i..|a| + i + n] == b[i..i + n]
  {
  }

  lemma {:induction false} InstructionsAt(ixs: seq<SanitizedInstruction>, i: nat)
    requires i < |ixs|
    ensures var at, b := InstructionsSize(ixs[..i]), SerializeInstruction(ixs[i]);
            at + |b| <= |SerializeInstructions(ixs)| && SerializeInstructions(ixs)[at..at + |b|] == b
  {
    hide SerializeInstruction;
    InstructionLayout(ixs[0]);
    if i > 0 {
      InstructionsAt(ixs[1..], i - 1);
      assert ixs[..i][1..] == ixs[1..][..i - 1];
      SliceAfter(SerializeInstruction(ixs[0]), SerializeInstructions(ixs[1..]), InstructionsSize(ixs[1..][..i - 1]),
                 |SerializeInstruction(ixs[i])|);
    }
  }

  /** A message: the three counts of the header, four-byte number of keys, the keys, the blockhash, four-byte number of
      instructions, the instructions one after the other. */
  lemma MessageLayout(m: SanitizedMessage)
    requires AllOfLength(m.accountKeys, 32) && |m.recentBlockhash| == 32
    ensures var b, after := SerializeMessage(m), 7 + 32 * |m.accountKeys|;
            && |b| == after + 36 + InstructionsSize(m.instructions)
            && b[0] == m.header.numRequiredSignatures % 256
            && b[1] == m.header.numReadonlySigned % 256
            && b[2] == m.header.numReadonlyUnsigned % 256
            && NumberOf(b[3..7]) == |m.accountKeys| % 0x1_0000_0000
            && (forall i :: 0 <= i < |m.accountKeys| ==> b[7 + 32 * i..39 + 32 * i] == m.accountKeys[i])
            && b[after..after + 32] == m.recentBlockhash
            && NumberOf(b[after + 32..after + 36]) == |m.instructions| % 0x1_0000_0000
            && b[after + 36..] == SerializeInstructions(m.instructions)
  {
    hide NumberOf, LowBytes, Flat, SerializeInstructions, SerializeMessage, MessageRest;
    var b, after := SerializeMessage(m), 7 + 32 * |m.accountKeys|;
    var h, keys, rest := SerializeHeader(m.header), Flat(m.accountKeys), MessageRest(m);
    MessageParts(m);
    RestParts(m);
    U32Spells(|m.accountKeys|);
    U32Spells(|m.instructions|);
    Slices(h, U32(|m.accountKeys|), keys, rest);
    assert b[..3] == h && b[after..] == rest;
    Slice(b, after, 0, 32);
    Slice(b, after, 32, 36);
    forall i | 0 <= i < |m.accountKeys| ensures b[7 + 32 * i..39 + 32 * i] == m.accountKeys[i] {
      FlatAt(m.accountKeys, 32, i);
      SliceAfter(h + U32(|m.accountKeys|), keys, 32 * i, 32);
    }
  }

  function MessageRest(m: SanitizedMessage): seq<byte> {
    m.recentBlockhash + U32(|m.instructions|) + SerializeInstructions(m.instructions)
  }

  lemma RestParts(m: SanitizedMessage)
    requires |m.recentBlockhash| == 32
    ensures var rest := MessageRest(m);
            && |rest| == 36 + InstructionsSize(m.instructions)
            && rest[0..32] == m.recentBlockhash && rest[32..36] == U32(|m.instructions|)
            && rest[36..] == SerializeInstructions(m.instructions)
  {
    hide SerializeInstructions;
    InstructionsSizeExact(m.instructions);
  }

  lemma Slice(b: seq<byte>, at: nat, i: nat, j: nat)
    requires i <= j && at + j <= |b|
    ensures b[at + i..at + j] == b[at..][i..j]
  {
  }

  lemma MessageParts(m: SanitizedMessage)
    ensures AllOfLength(m.accountKeys, 32) ==> |Flat(m.accountKeys)| == 32 * |m.accountKeys|
    ensures SerializeMessage(m) ==
      SerializeHeader(m.header) + U32(|m.accountKeys|) + Flat(m.accountKeys) + MessageRest(m)
  {
    if AllOfLength(m.accountKeys, 32) {
      FlatSize(m.accountKeys, 32);
    }
  }

  /** A transaction: four-byte version, number of signatures, the signatures, the message. */
  lemma TransactionLayout(tx: RuntimeTransaction)
    requires Serialize(tx).Ok? && AllOfLength(tx.signatures, 64)
    ensures var b, n := Serialize(tx).value, |tx.signatures|;
            && |b| >= 5 + 64 * n
            && NumberOf(b[0..4]) == tx.version % 0x1_0000_0000
            && b[4] == n
            && (forall i :: 0 <= i < n ==> b[5 + 64 * i..69 + 64 * i] == tx.signatures[i])
            && b[5 + 64 * n..] == SerializeMessage(tx.message)
  {
    hide NumberOf, LowBytes, Flat, SerializeMessage;
    var b, n, signatures := Serialize(tx).value, |tx.signatures|, Flat(tx.signatures);
    FlatSize(tx.signatures, 64);
    U32Spells(tx.version);
    Slices(U32(tx.version), [ToByte(n)], signatures, SerializeMessage(tx.message));
    assert b == U32(tx.version) + [ToByte(n)] + signatures + SerializeMessage(tx.message);
    forall i | 0 <= i < n ensures b[5 + 64 * i..69 + 64 * i] == tx.signatures[i] {
      FlatAt(tx.signatures, 64, i);
      assert b[5 + 64 * i..69 + 64 * i] == signatures[64 * i..64 * i + 64];
    }
  }

  /** Only the number of signatures is checked; the limit is on the size in closed form. */
  lemma SizeOutcome(tx: RuntimeTransaction)
    requires AllOfLength(tx.signatures, 64)
    requires AllOfLength(tx.message.accountKeys, 32) && |tx.message.recentBlockhash| == 32
    ensures var m := tx.message;
            var size := 48 + 64 * |tx.signatures| + 32 * |m.accountKeys| + InstructionsSize(m.instructions);
            && (Serialize(tx).Ok? <==> |tx.signatures| <= 16)
            && (|tx.signatures| > 16 ==> Serialize(tx) == Err(TooManySignatures(|tx.signatures|)))
            && CheckTxSizeLimit(tx) ==
               if |tx.signatures| > 16 then Refused(TooManySignatures(|tx.signatures|))
               else if size > 4096 then TooLarge(size) else Fits
  {
    if Serialize(tx).Ok? {
      SerializedSize(tx);
    }
  }
}
