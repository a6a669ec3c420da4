# A verified model of the Arch SDK

The Arch SDK compiles instructions into messages, puts them on the wire, converts keys and numbers between
representations, and keeps a WebSocket client subscribed while connections come and go. This project models the parts
of it that carry state or arithmetic and proves what they promise.

- **Messages** (`CompiledKeys`, `SanitizedMessages`, `MessageRoles`, `MessageMeaning`, `MessageDetermined`,
  `NullPayer`). A list of instructions becomes an ordered key table, a header that encodes roles by position, and
  instructions that refer to keys by index. The mutating map loop, the four-way split and the index search are methods
  proved against specification functions. About those functions it is proved that compilation succeeds exactly when
  three counts fit, that reading a message back gives the same instructions with exactly the least union of the roles
  asked for, and that recompiling what was read gives the identical message. `MessageDetermined` specifies the message
  without those functions, by what the instructions mention and grant, and proves that compiling gives exactly the one
  message that meets the specification.
- **Wire format** (`Wire`, `MessageOnWire`, `Loader`, `LoaderAddress`). What stands at which byte is stated directly.
  A parser undoes the serializer with any bytes appended, and accepts nothing else. Every compiled message fits its
  widths, so the signed bytes of two instruction lists agree exactly when their meanings do. The payload bound of the
  program loader is exact.
- **Codecs** (`Base58`, `Base58Laws`, `Base64`, `Base64Laws`, `Borsh`, on top of `LittleEndian` and `BigEndian`). The
  carry loops and the bit accumulator are methods over arrays, proved against values of numbers and against the
  group-by-group reading of base64; the alphabets are characterised by character codes.
- **WebSocket client** (`WebSocketTypes`, `EventManagers`, `WsAdapters`, `ConnectionManagers`, `SubscriptionManagers`,
  `ReconnectionManagers`, `ClientStates`, `ArchWebSocketClients`, `ClientSteps`, `ClientDisconnects`,
  `ClientExamples`). The objects are classes with the fields of the source. Each callback, each user call and each
  stretch of an async method between two awaits is one method; `ClientStates` states the invariant on a value, and
  `ArchWebSocketClient.Run` keeps it over every sequence of steps.
- **Program addresses and byte trees** (`ProgramAddresses`, `ByteTrees`). The bump search over an arbitrary hash and
  curve test, and the two JSON tree conversions with the exact sets of trees they preserve.

The hash, the curve test, the draw of `Math.random()`, what the WebSocket factory does, and the choice of the next step
are parameters. Keys are byte strings and stand for their own hexadecimal text, which is injective.

## Where the code falls short of what is said of it

The model follows the code. Each point below is a theorem that says exactly when the expectation holds, with an input or
a run where it does not.

- The comment on `createSanitizedMessage` (src/serde/sanitized-message.ts:145) says that without a payer the first
  signer encountered will be the payer. The code puts writable signers first, each group in the order of first mention.
  `NullPayer` treats both readings of "first signer encountered": by key (`LeadsWithFirstSignerIff`,
  `FirstSignerNeedNotLead`) and by account entry (`LeadsWithFirstSigningEntryIff`, `FirstSigningEntryNeedNotLead`).
- The repository's README.md (lines 360-362) gives 30000 and 0.2 as the defaults of `maxDelay` and `jitter`. They are
  in effect when no strategy is given; a strategy that omits them gets 60000 and 0.1, and 0 counts as omitted
  (`DocumentedDefaultsIff`, `DocumentedCapExceeded`). The documented initial delay and growth factor are in effect
  unless the strategy states a zero (`DocumentedGrowthIff`).
- Disconnecting is meant to end reconnecting. Without another call by the user, a disconnected client arms or fires a
  reconnect timer in some run exactly when, at the disconnect, a timer other than the remembered one is armed; or an
  attempt is left, and either an attempt is in flight or a socket other than the current one may still close with a
  reconnect handler on it; or the limit is reached but one attempt in flight may succeed, which starts the count over,
  and then another may fail or such a socket may close. `ClientDisconnects.DisconnectThenRun` is the one half, for every
  run; `DisconnectThenReconnect` is the other, with at most three steps. Each family is reached from a new client:
  `StrayTimer` and `StrayTimerReconnects`, `InFlightReconnects`, `StraySocketReconnects`. The first family is empty at
  every point of a run exactly when no attempt is scheduled while an earlier timer is still armed
  (`CancelLeavesNothingIff`).
- The repository's README.md (lines 436-442) offers `setReconnectOptions(true, ...)` to adjust reconnecting. A client
  made without `autoReconnect` never attaches a reconnect handler, so whatever the options say no close ever arms a
  timer (`Run` with `NoTimerWithoutStray`).
- A listener of the connect event looks as if it ran on every connection. Listeners are attached after the await of
  `connect`, so they run when a socket opens exactly when it was already the current one, and a new socket runs none
  (`SocketOpens`).
- A `subscribe` that was rejected is meant to leave no subscription behind. It leaves a confirmed entry exactly when its
  timeout fired before the server accepted, or when the server rejects it under the id of an equal entry that was there
  before (`RejectedButConfirmedIff`, reached by `LateAnswer`).

## Model

| member | source | states |
|---|---|---|
| CompiledKeyTables.CompiledKeys.Compile | src/struct/compiled-keys.ts:35-78 | The in-place map loop yields, for every input, the table with the keys in order of first mention, each with the union of the roles granted anywhere, the payer a writable signer. |
| CompiledKeyTables.Grant | src/struct/compiled-keys.ts:41-75 | Looking a record up or adding one and updating it in place is one update of the table; no other key's record changes. |
| CompiledKeyTables.SummarySnoc | src/struct/compiled-keys.ts:41-75 | One more mention of a key is one map update: the table of a longer list is the table of the shorter one with that mention granted. |
| CompiledKeyTables.CompiledKeys.TryIntoMessageComponents | src/struct/compiled-keys.ts:80-149 | The loop, the filters and the count checks give exactly the four groups with the payer first, their counts as header, or the overflow error. |
| CompiledKeyTables.CountedComponents | src/struct/compiled-keys.ts:122-148 | The three checks in the source's order fail exactly when signers or read-only non-signers exceed 255; otherwise the header has the three counts and the keys are the four groups one after the other. |
| CompiledKeyTables.PayerNotSelected | src/struct/compiled-keys.ts:88-120 | An empty payer key, for which the source skips the filter, ends up in no group but its own all the same. |
| CompiledKeyTables.SelectIsBucket | src/struct/compiled-keys.ts:93-120 | Filtering the entries without the payer selects exactly the keys with the given two roles, in table order. |
| SanitizedMessages.FindPubkeyIndex | src/serde/sanitized-message.ts:86-101 | The linear search returns the first position of the key, and the "not found" error for that key exactly when it is absent. |
| SanitizedMessages.CompileTsInstruction | src/serde/sanitized-message.ts:104-130 | Program and accounts are replaced by their positions; a missing key is reported before an overflow, and overflow means some position is above 255. |
| SanitizedMessages.CompileTsInstructions | src/serde/sanitized-message.ts:133-138 | Instruction by instruction, the first failure decides. |
| SanitizedMessages.InstructionOutcome | src/serde/sanitized-message.ts:104-130 | For any key list: a missing program is the error, else the first missing account, else overflow iff some first position is above 255; otherwise each key becomes its first position and the data stays. |
| SanitizedMessages.InstructionsOutcome | src/serde/sanitized-message.ts:133-138 | The error of a list is that of its first failing instruction; without one, every instruction has its own result. |
| SanitizedMessages.CreateSanitizedMessage | src/serde/sanitized-message.ts:149-182 | The whole pipeline computes `MessageOf`, about which the results below speak. |
| MessageRoles.TableMeaning | src/struct/compiled-keys.ts:41-75 | The table has a key iff an instruction or the payer names it, as signer (writable) iff some account entry or the payer says so. |
| MessageRoles.TableInvoked | src/struct/compiled-keys.ts:41-49 | A key of the table is marked as invoked iff it is the program of some instruction. |
| MessageRoles.KeysAreExactlyTheNamed | src/struct/compiled-keys.ts:97-148 | A message lists each named key once and nothing else, a given payer at position 0. |
| MessageRoles.HeaderRolesAreLeast | src/struct/compiled-keys.ts:97-148 | The header marks position i signer (writable) iff the payer or some account entry asks that of its key: no role lost, none added. |
| MessageRoles.ComponentsCount | src/struct/compiled-keys.ts:122-138 | For any table with its payer, the header counts the signers, the read-only signers and the read-only others; there is one iff the first and the last count are at most 255. |
| MessageRoles.KeyListDistinct | src/struct/compiled-keys.ts:141-146 | The concatenated groups have no duplicate and contain exactly the keys of the table. |
| MessageMeaning.IndexedInstructionsMeaning | src/serde/sanitized-message.ts:104-138 | With all keys listed, indexing succeeds iff every named key sits at most at 255, fails with overflow otherwise, and every index resolves to its key. |
| MessageMeaning.LateKeyIsReferenced | src/serde/sanitized-message.ts:116-123 | The second stage's check catches exactly the totals above 256 that the first stage lets pass, because only the payer may be unreferenced. |
| MessageMeaning.SucceedsIffCountsFit | src/serde/sanitized-message.ts:149-182 | A message is produced iff there are at most 256 distinct keys, 255 signers and 255 read-only non-signers; else the overflow error, so the "not found" exception is unreachable. |
| MessageMeaning.DecompileCompile | src/serde/sanitized-message.ts:149-182 | Resolving a message gives back program ids, account keys in order and data, each account with exactly the union of its roles. |
| MessageMeaning.RecompileIsFixpoint | src/serde/sanitized-message.ts:149-182 | Recompiling what a message says gives the identical header, key order and instructions. |
| MessageMeaning.PromotedCompilesTheSame | src/serde/sanitized-message.ts:149-182 | Writing the union of roles into every account entry changes neither the message nor the error. |
| MessageMeaning.SameMessageIffSameMeaning | src/serde/sanitized-message.ts:149-182 | Two instruction lists compile to the same message iff they mean the same. |
| MessageDetermined.TableInOrderOfMention | src/struct/compiled-keys.ts:41-75 | Of two keys other than the payer, the one earlier in the table is mentioned first, instruction by instruction, program before accounts. |
| MessageDetermined.HeaderCounts | src/struct/compiled-keys.ts:122-138 | The three numbers of a message's header: the signer keys, those of them that nothing makes writable, and the other keys that nothing makes writable. |
| MessageDetermined.CompilesToIff | src/serde/sanitized-message.ts:149-182 | Compiling gives `m` iff the counts fit and `m` has exactly the named keys, the payer first and then the four groups each in the order of first mention, those counts, the blockhash, and instructions that refer to their keys: one message and no other. |
| NullPayer.LeadsWithFirstSignerIff | src/serde/sanitized-message.ts:145 | The comment read by key: without a payer, the first-mentioned key that any entry marks as a signer leads iff it is writable or no signer is. |
| NullPayer.LeadsWithFirstSigningEntryIff | src/serde/sanitized-message.ts:145 | The comment read by entry: the key of the first account entry that asks for a signature leads iff it is the first-mentioned writable signer, or no signer is writable and it is the first-mentioned signer. |
| NullPayer.LeaderIff | src/struct/compiled-keys.ts:97-146 | Without a payer, any signer leads iff it is the first-mentioned writable signer, or no signer is writable and it is the first-mentioned signer. |
| NullPayer.FirstSigningEntryNeedNotLead | src/serde/sanitized-message.ts:145 | For any three distinct keys an instruction exists whose first signing entry, although writable, does not lead. |
| NullPayer.FirstSignerNeedNotLead | src/serde/sanitized-message.ts:145 | For any three distinct keys an instruction exists whose first signer does not lead, contrary to the comment. |
| Wire.InstructionParses | src/serde/sanitized-instruction.ts:4-28 | An instruction that fits its widths is read back from its bytes with any suffix. |
| Wire.MessageParses | src/serde/sanitized-message.ts:19-50 | A message that fits its widths is read back from its bytes with any suffix. |
| Wire.TransactionParses | src/serde/transaction.ts:13-33 | A transaction that fits its widths is read back from its bytes with any suffix. |
| Wire.SerializePrefixFree | src/serde/transaction.ts:13-33 | No transaction's bytes are a prefix of another's. |
| Wire.TransactionUnparses | src/serde/transaction.ts:13-33 | Whatever the parser accepts is the serialization of what it returns, followed by the rest. |
| Wire.MessageUnparses | src/serde/sanitized-message.ts:19-50 | The same for messages: each accepted byte string is the one encoding of its message. |
| Wire.SerializedSize | src/serde/transaction.ts:35-45 | The exact number of bytes of a transaction. |
| Wire.InstructionLayout | src/serde/sanitized-instruction.ts:4-28 | What stands at which byte of any instruction: index, number of accounts, account indices, length, data, each number modulo its width. |
| Wire.MessageLayout | src/serde/sanitized-message.ts:19-50 | The header bytes in order, the key count at 3, key i at 7 + 32i, then blockhash, instruction count and instructions. |
| Wire.TransactionLayout | src/serde/transaction.ts:13-33 | Version at 0, signature count at 4, signature i at 5 + 64i, then the message. |
| Wire.SizeOutcome | src/serde/transaction.ts:13-45 | Serializing fails iff there are more than 16 signatures; the size check refuses exactly the sizes above 4096, in closed form. |
| MessageOnWire.CompiledMessageFits | src/serde/sanitized-message.ts:149-182 | Every message compiled from 32-byte keys and blockhash fits its wire widths, so no number is cut. |
| MessageOnWire.WireCarriesMeaning | src/serde/sanitized-message.ts:19-50 | Compile, serialize, parse, decompile: the same programs, accounts and data with the union of the roles. |
| MessageOnWire.SameBytesIffSameMeaning | src/serde/sanitized-message.ts:19-50 | The bytes to be signed agree iff the meanings and the blockhashes agree. |
| Loader.EncodeWriteBytes | src/system-instructions/loader-instructions.ts:24-30 | The two in-place copies leave the eight length bytes and then the payload. |
| Loader.WriteLayout | src/system-instructions/loader-instructions.ts:24-54 | The data of a write is variant 0, the offset, the payload's length in eight bytes and the payload; program, accounts and their flags are these. |
| Loader.WriteRoles | src/system-instructions/loader-instructions.ts:32-54 | In the compiled message of a write exactly the authority and a payer sign, and exactly the program account and a payer are writable. |
| LoaderAddress.PublishedAddress | src/constants.ts:67-71 | The bytes of the loader's program id spell its published base58 address. |
| Loader.WriteTransactionSize | src/system-instructions/loader-instructions.ts:32-54 | A one-signature write transaction has 139 bytes, 32 per distinct key, and the payload, for every key, payer, offset and payload. |
| Loader.ExtendBytesMaxLenValue | src/system-instructions/loader-instructions.ts:150-170 | The computed bound is 3861. |
| Loader.WriteFitsIff | src/system-instructions/loader-instructions.ts:150-170 | For any payer: the write fits the limit iff its payload is within the bound, shifted by 32 for each distinct key fewer or more than three. |
| Loader.ExtendBytesMaxLenIsTight | src/system-instructions/loader-instructions.ts:150-170 | With payer absent or the authority the bound is exact for three distinct keys and safe when keys coincide. |
| Base58.BytesToBase58 | src/codec/bytes.ts:90-115 | The nested carry loops produce one '1' per leading zero byte and then the base-58 digits of the value. |
| Base58.PushByte | src/codec/bytes.ts:100-109 | One pass multiplies the digit list by 256 and adds the byte; the carry stays a byte and digits below 58. |
| Base58.MulAddIsDigits | src/codec/bytes.ts:100-109 | A pass over the digits of n gives the digits of 256n plus the carry, without leading zeros. |
| Base58.Base58ToBytes | src/codec/bytes.ts:118-132 | The in-place loop returns the 32-byte form of the value of the text, or the first error. |
| Base58.AlphabetIsAscending | src/codec/bytes.ts:9-10 | The 58 characters stand in strictly ascending order of their codes. |
| Base58.AlphabetMembers | src/codec/bytes.ts:9-10 | They are exactly the ASCII digits and letters but 0, I, O and l. |
| Base58.ShiftInPlace | src/codec/bytes.ts:121-127 | One backward pass over the key multiplies it by 58 and adds the digit; the carry stays below 58 between bytes. |
| Base58.ShiftedBytes | src/codec/bytes.ts:121-129 | A carry is left over iff the value no longer fits, and the bytes are those of the new value. |
| Base58Laws.DecodesIff | src/codec/bytes.ts:118-132 | Decoding succeeds iff all characters are in the alphabet and the value is below 256^32: an overflow of a prefix is an overflow of the whole. |
| Base58Laws.FirstFailure | src/codec/bytes.ts:118-132 | The error is decided by the first character that is foreign or takes the value beyond 32 bytes. |
| Base58Laws.TextSpellsValue | src/codec/bytes.ts:90-115 | The text spells the big-endian number of the bytes. |
| Base58Laws.OnePerLeadingZero | src/codec/bytes.ts:90-115 | Exactly one leading '1' per leading zero byte. |
| Base58Laws.TextIsInjective | src/codec/bytes.ts:90-115 | Byte strings of whatever lengths with the same text are equal. |
| Base58Laws.KeyTextLength | src/codec/bytes.ts:90-115 | A 32-byte key has between 32 and 44 characters. |
| Base58Laws.KeyRoundTrip | src/codec/bytes.ts:118-132 | Decoding the text of any 32-byte key gives the key. |
| Base58Laws.TextRoundTripIff | src/codec/bytes.ts:118-132 | Re-encoding a decoded text gives it back iff it has one '1' per leading zero byte of its key. |
| Base64.DecodeBody | src/codec/bytes.ts:53-67 | The bit accumulator keeps fewer than 8 pending bits and fills the output slots exactly with the group-by-group reading. |
| Base64.DecodeBase64Text | src/codec/bytes.ts:45-68 | Whitespace, padding, the length check and the loop together compute `DecodeBase64`. |
| Base64.QuantaSnoc | src/codec/bytes.ts:57-66 | One more digit stays pending or completes exactly one byte. |
| Base64.AlphabetMembers | src/codec/bytes.ts:5-7 | Exactly the characters of table 1 of RFC 4648 are accepted. |
| Base64.AlphabetValues | src/codec/bytes.ts:5-7 | They have the values of that table. |
| Base64Laws.DecodeUndoesEncode | src/codec/bytes.ts:44-68 | Decoding gives back every byte string from its encoding (section 4 of RFC 4648), padded or not, with ASCII whitespace anywhere. |
| Base64Laws.AcceptsIffForgiving | src/codec/bytes.ts:44-68 | Exactly the inputs of the forgiving-base64 decode (section 7 of the WHATWG Infra Standard) are accepted. |
| Base64Laws.DigitsRoundTripIff | src/codec/bytes.ts:44-68 | Encoding what was decoded gives the digits back iff the dropped bits are zero. |
| Base64Laws.DecodesNumber | src/codec/bytes.ts:53-67 | Any number of digits: the bytes are as many as three for four digits, and spell the big-endian number of the digits without the bits of the incomplete byte. |
| Base64Laws.WhitespaceIgnored | src/codec/bytes.ts:8 | Inserting one of the five ASCII whitespace characters anywhere changes nothing. |
| Base64Laws.ForeignRefused | src/codec/bytes.ts:50-52 | Inserting any other character outside alphabet and padding anywhere makes the text invalid. |
| Borsh.UnsignedLE | src/codec/borsh.ts:34-42 | The loop writes the low bytes of any integer, negative ones in two's complement. |
| Borsh.UnsignedAt | src/codec/borsh.ts:104-109 | The backward loop reads the number of the window, zeros outside the data. |
| Borsh.EncodeI64LE | src/codec/borsh.ts:79-82 | Accepts exactly the i64 range and writes its reference bytes. |
| Borsh.EncodeI128LE | src/codec/borsh.ts:84-87 | Accepts exactly the i128 range and writes its reference bytes. |
| Borsh.EncodeU64LE | src/codec/borsh.ts:59-62 | Accepts exactly the u64 range and writes its reference bytes. |
| Borsh.EncodeU128LE | src/codec/borsh.ts:64-67 | Accepts exactly the u128 range and writes its reference bytes. |
| Borsh.DecodeU64LE | src/codec/borsh.ts:111-113 | Reads the reference u64 at any offset. |
| Borsh.DecodeU128LE | src/codec/borsh.ts:115-117 | Reads the reference u128 at any offset. |
| Borsh.DecodeI64LE | src/codec/borsh.ts:129-132 | Reads the reference i64 at any offset. |
| Borsh.DecodeI128LE | src/codec/borsh.ts:134-137 | Reads the reference i128 at any offset. |
| Borsh.NumberEncoders | src/codec/borsh.ts:44-77 | The u16, u32 and i32 encoders refuse fractions and out-of-range values and write the reference bytes of the rest. |
| Borsh.NumberDecoders | src/codec/borsh.ts:89-127 | The shift-and-or decoders read the reference values, signs included. |
| Borsh.DecodeUndoesEncode | src/codec/borsh.ts:34-137 | For every integer type, decoding gives back every encodable value at any offset inside any buffer. |
| Borsh.EncodeUndoesDecode | src/codec/borsh.ts:34-137 | Encoding a decoded value gives back the window it was read from, missing bytes as zeros. |
| Borsh.EncodeUndoesDecodeInside | src/codec/borsh.ts:34-137 | On a full-width slice the two are inverse. |
| Borsh.ShortDataReadsAsPadded | src/codec/borsh.ts:104-109 | Short data reads as if padded with zeros. |
| Borsh.NegativeOffsetReadsAsPadded | src/codec/borsh.ts:104-109 | A negative offset reads as if zeros stood before the data. |
| Borsh.IntegerRanges | src/codec/borsh.ts:6-11 | The ranges and widths of the seven integer types, as numbers. |
| Borsh.EncodedMeaning | src/codec/borsh.ts:44-87 | A value is encoded iff it is in range; its bytes are as many as the type is wide and spell it, a negative one plus the modulus. |
| Borsh.DecodedMeaning | src/codec/borsh.ts:89-137 | The decoded value is the one in range that its bytes spell, or spell plus the modulus. |
| Borsh.U64ToLeBytesMeaning | src/system-instructions/system-instructions.ts:34-40 | The helper writes any integer modulo 2^64, and agrees with the checked encoder exactly on the u64 range. |
| ProgramAddresses.FillBuffer | src/serde/pubkey.ts:132-139 | The in-place buffer fill equals the concatenation of seeds and program id. |
| ProgramAddresses.CreateProgramAddress | src/serde/pubkey.ts:113-150 | Too many seeds, the first too long seed, an on-curve hash, or the address, in this order. |
| ProgramAddresses.FindProgramAddress | src/serde/pubkey.ts:72-102 | The loop computes the downward search `Found`. |
| ProgramAddresses.FindsGreatestBump | src/serde/pubkey.ts:72-102 | The result is the greatest bump in 1..255 whose hash is off the curve, and that hash. |
| ProgramAddresses.FindsIff | src/serde/pubkey.ts:72-150 | It succeeds iff there are at most 15 seeds of at most 32 bytes and some bump is off the curve. |
| ProgramAddresses.CreatedOutcome | src/serde/pubkey.ts:113-150 | More than 16 seeds, the first seed above 32 bytes, a hash on the curve, or the hash of seeds and program id, in this order. |
| ProgramAddresses.FoundOutcome | src/serde/pubkey.ts:72-102 | Which error a failing search ends in: too many seeds with the bump counted, the first seed that is too long, or no bump. |
| ProgramAddresses.ConcatApart | src/serde/pubkey.ts:132-139 | Seeds are hashed one after the other as they are: the concatenation of two lists is that of their concatenations. |
| ByteTrees.ReadBackIff | src/serde/uint8array.ts:10-51 | A value survives being written and read iff none of its arrays is made only of numbers, the empty one included. |
| ByteTrees.WriteBackIff | src/serde/uint8array.ts:10-51 | A JSON tree survives being read and written iff its number arrays hold integers from 0 to 255. |
| ByteTrees.AccountListsReadBackIff | src/provider/rpc.ts:255-259 | With the empty-array exception, a list of account objects reads back iff its accounts do. |
| ByteTrees.SerializeMeaning | src/serde/uint8array.ts:10-29 | Writing keeps every node and the order of items and fields, and turns bytes into their numbers. |
| ByteTrees.DeserializeMeaning | src/serde/uint8array.ts:32-51 | Reading keeps every node but arrays made only of numbers, which become bytes. |
| ByteTrees.ToUint8Meaning | src/serde/uint8array.ts:34 | A number is stored as its integer part, of whatever sign, modulo 256. |
| EventManagers.EventManager.AddListener | src/websocket-client/managers/event-manager.ts:8-13 | The registry gains exactly this listener. |
| EventManagers.EventManager.RemoveListener | src/websocket-client/managers/event-manager.ts:15-22 | The registry loses exactly this listener, the entry with its last one. |
| WsAdapters.WebSocketAdapter.Snapshot | src/websocket-client/managers/ws-adapter.ts:223-234 | A dispatch runs each handler of the event exactly once, whatever the handlers change. |
| WsAdapters.WebSocketAdapter.ConnectSocket | src/websocket-client/managers/ws-adapter.ts:19-49 | Opening is idempotent while a socket is open or connecting. |
| WsAdapters.WebSocketAdapter.Closes | src/websocket-client/managers/ws-adapter.ts:59-65 | A disconnect is announced only if the socket was connected. |
| ConnectionManagers.ConnectionManager.StartConnect | src/websocket-client/managers/connection-manager.ts:21-91 | Nothing happens iff the socket is connected or an attempt is pending; otherwise a fresh adapter becomes current, even when opening it fails. |
| ConnectionManagers.ConnectionManager.SocketOpens | src/websocket-client/managers/connection-manager.ts:74-80 | The one-shot connect handler ends the attempt and removes itself. |
| SubscriptionManagers.FiltersMatchIffEqual | src/websocket-client/managers/subscription-manager.ts:237-246 | Equal key counts and one-way agreement is filter equality. |
| SubscriptionManagers.SubscriptionManager.FindMatching | src/websocket-client/managers/subscription-manager.ts:40-49 | A confirmed entry with this topic and filter is found iff there is one, and it is the first one inserted. |
| SubscriptionManagers.SubscriptionManager.Subscribe | src/websocket-client/managers/subscription-manager.ts:29-116 | Refused without a connection, answered from the first matching confirmed entry, or else a new request id, one pending entry with the topic and filter, all others unchanged, and one one-shot handler. |
| SubscriptionManagers.SubscriptionManager.OnSubscriptionResponse | src/websocket-client/managers/subscription-manager.ts:81-105 | An answer removes the pending entry, adds the confirmed one under the server's id if accepted, and settles a waiting promise: resolved with that id, or rejected; nothing else changes. |
| SubscriptionManagers.SubscriptionManager.OnSubscribeTimeout | src/websocket-client/managers/subscription-manager.ts:70-78 | The timeout removes the pending entry and rejects; nothing else changes. |
| SubscriptionManagers.SubscriptionManager.GetActiveSubscriptions | src/websocket-client/managers/subscription-manager.ts:203-207 | The confirmed entries, all of them, in insertion order. |
| OrderedMaps.DeleteKeepsOrder | src/websocket-client/managers/subscription-manager.ts:86 | Deleting an entry of a map keeps the order of the others. |
| SubscriptionManagers.RejectedButConfirmedIff | src/websocket-client/managers/subscription-manager.ts:70-105 | After an answer a rejected request has a confirmed entry iff the server accepted after the timeout had fired, or rejected under the id of an equal earlier entry. |
| SubscriptionManagers.AnsweredConsistent | src/websocket-client/managers/subscription-manager.ts:81-105 | Answers keep: every key is its entry's id, every pending entry has an open request with the same topic and filter. |
| SubscriptionManagers.TimedOutConsistent | src/websocket-client/managers/subscription-manager.ts:70-78 | Timeouts keep the same. |
| SubscriptionManagers.SubscriptionManager.Redispatch | src/websocket-client/managers/subscription-manager.ts:209-231 | However many re-emitting handlers an adapter has, the request's handler on the manager's socket runs at most once. |
| SubscriptionManagers.SubscriptionManager.DeliverResponse | src/websocket-client/managers/ws-adapter.ts:81-94 | General dispatch, re-emission and direct dispatch together run the request's handler once if it is on the adapter, or on the manager's open socket and some handler re-emits, and not at all otherwise; when it runs, the promise settles and the entry is confirmed as the answer says. |
| SubscriptionManagers.SubscriptionManager.DeliverUnsubscribed | src/websocket-client/managers/ws-adapter.ts:94-98 | An unsubscribe answer removes its own entry, and no other, exactly when it reaches a waiting call, on the adapter or through re-emission. |
| SubscriptionManagers.SubscriptionManager.ResubscribeAllConfirmed | src/websocket-client/managers/subscription-manager.ts:184-201 | When each request is confirmed under a fresh id, the active (topic, filter) pairs are preserved, no two entries match, none is pending, and no handler is left behind. |
| SubscriptionManagers.PairAdded | src/websocket-client/managers/subscription-manager.ts:184-201 | A confirmed pair that is new is the only one added, and creates no match. |
| ReconnectionManagers.ReconnectionManager.ScheduleReconnect | src/websocket-client/managers/reconnection-manager.ts:32-50 | One more timer is armed iff an attempt is left, with the delay of that attempt; the attempts since the last reset never exceed the limit. |
| ReconnectionManagers.ReconnectionManager.CancelReconnect | src/websocket-client/managers/reconnection-manager.ts:56-61 | Only the latest timer is cancelled; every other one stays armed. |
| ReconnectionManagers.StepKeepsOnlyLatestIff | src/websocket-client/managers/reconnection-manager.ts:32-61 | A step keeps the remembered timer the only armed one iff it does not schedule an attempt while a timer is armed. |
| ReconnectionManagers.OnlyLatestUpTo | src/websocket-client/managers/reconnection-manager.ts:32-61 | The remembered timer stays the only armed one for exactly as long as no attempt is scheduled while a timer is armed. |
| ReconnectionManagers.CancelLeavesNothingIff | src/websocket-client/managers/reconnection-manager.ts:32-61 | Cancelling would leave nothing armed at every point of a run iff the run never schedules an attempt while an earlier timer is armed. |
| ReconnectionManagers.StaysQuiet | src/websocket-client/arch-web-socket-client.ts:73-96 | A client without connection and reconnect handler that may not reconnect neither arms nor fires a timer in its next step, and may not reconnect after it either. |
| ReconnectionManagers.ReconnectionManager.RetryUntilConnected | src/websocket-client/arch-web-socket-client.ts:73-85 | The retry recursion ends after at most the attempts left, connected iff one of them succeeds. |
| ReconnectionManagers.CalculateDelay | src/websocket-client/utils/backoff.ts:7-36 | No exponential delay exceeds the maximum in effect, whatever the other options. |
| ReconnectionManagers.ExponentialDelayBand | src/websocket-client/utils/backoff.ts:17-31 | An exponential delay lies in the jitter band around its base, cut off at the maximum, for options of any sign. |
| ReconnectionManagers.DelayFormula | src/websocket-client/utils/backoff.ts:7-36 | Each kind of delay for any attempt and draw, with an absent or zero option at its fallback: constant, linear, or growing with a jitter to either side and cut off. |
| ReconnectionManagers.DocumentedDefaultsIff | src/websocket-client/utils/backoff.ts:18-21 | The documented maximum and jitter are in effect iff no strategy is given or the strategy states the option as a nonzero number. |
| ReconnectionManagers.DocumentedGrowthIff | src/websocket-client/config/backoff-strategy.ts:16-22 | The documented initial delay and factor are in effect unless the strategy states a zero, and growth is exponential by default. |
| ReconnectionManagers.DocumentedCapExceeded | src/websocket-client/utils/backoff.ts:17-31 | A strategy that states only its type waits 60000 at the seventh attempt, for every random draw. |
| ClientStates.ListenerAdded | src/websocket-client/arch-web-socket-client.ts:122-127 | Registering and attaching a listener keeps registry and current socket in agreement. |
| ClientStates.ListenerRemoved | src/websocket-client/arch-web-socket-client.ts:130-135 | So does removing one from both. |
| ClientStates.TopicCleared | src/websocket-client/arch-web-socket-client.ts:137-164 | So does removing all listeners of a topic from both. |
| ClientStates.ConnectionCompletes | src/websocket-client/arch-web-socket-client.ts:56-71 | A socket that becomes current carries exactly the registered listeners and the client's own reconnect handler, also when it already was current. |
| ClientStates.AnswerConsumed | src/websocket-client/managers/subscription-manager.ts:107-111 | Once a request's handler ran, no socket waits for the request any more. |
| ArchWebSocketClients.ArchWebSocketClient.constructor | src/websocket-client/arch-web-socket-client.ts:26-54 | A new client has no socket, listener, request or timer, its options or their defaults are in effect, and the invariant holds. |
| ArchWebSocketClients.ArchWebSocketClient.On | src/websocket-client/arch-web-socket-client.ts:122-127 | Registry and current socket gain the listener. |
| ArchWebSocketClients.ArchWebSocketClient.Off | src/websocket-client/arch-web-socket-client.ts:130-135 | Registry and current socket lose the listener. |
| ArchWebSocketClients.ArchWebSocketClient.ConnectCall | src/websocket-client/managers/connection-manager.ts:21-91 | The client's `connect` makes a socket iff none is connected and no attempt is pending. |
| ArchWebSocketClients.ArchWebSocketClient.FinishConnect | src/websocket-client/arch-web-socket-client.ts:56-71 | The connection manager's socket becomes the client's, whichever it is, and its handlers are those it had, two re-emitting ones, the registered listeners, and with `autoReconnect` a new reconnect handler in place of the old one. |
| ArchWebSocketClients.ArchWebSocketClient.SocketOpens | src/websocket-client/arch-web-socket-client.ts:56-61 | The opening of a socket runs the registered connect listeners iff the socket was current before, and none when it is a new one. |
| ArchWebSocketClients.ArchWebSocketClient.TimerFires | src/websocket-client/arch-web-socket-client.ts:75-77 | A fired timer moves to the attempts in flight, and its `connect` makes a socket iff none is connected and no attempt is pending. |
| ArchWebSocketClients.ArchWebSocketClient.ReconnectFails | src/websocket-client/arch-web-socket-client.ts:80-82 | The failure of an attempt in flight ends it and arms one more timer iff an attempt is left, also after a disconnect. |
| ArchWebSocketClients.ArchWebSocketClient.FinishUnsubscribe | src/websocket-client/arch-web-socket-client.ts:138-147 | Every listener of the topic, and no other handler, is gone from registry and current socket. |
| ArchWebSocketClients.ArchWebSocketClient.DisconnectCall | src/websocket-client/arch-web-socket-client.ts:87-96 | No connecting socket and no reconnect handler is left, and of the timers the latest is cancelled: none stays armed iff no other was armed. The client keeps its old socket, and exactly the other stray sockets stay stray. |
| ArchWebSocketClients.ArchWebSocketClient.SocketCloses | src/websocket-client/arch-web-socket-client.ts:73-85 | A close arms exactly one more timer and counts one more attempt iff the socket was connected, has the handler and an attempt is left. |
| ArchWebSocketClients.ArchWebSocketClient.ResponseArrives | src/websocket-client/managers/ws-adapter.ts:81-94 | An answer, arriving at any socket ever made, is consumed at most once and only by a request not answered before; its promise, if waiting, resolves with the server's id under which the entry is then confirmed, or is rejected. |
| ArchWebSocketClients.ArchWebSocketClient.Broadcast | src/websocket-client/managers/ws-adapter.ts:101-106 | A broadcast on the current socket runs each registered listener of the topic exactly once. |
| ArchWebSocketClients.ArchWebSocketClient.ResubscribeConfirmed | src/websocket-client/managers/subscription-manager.ts:184-201 | The resubscription confirmed by the server keeps the client's invariant, the active pairs and all earlier requests. |
| ArchWebSocketClients.ArchWebSocketClient.ResubscribeAnswered | src/websocket-client/managers/subscription-manager.ts:184-201 | Whatever the server does with each request (accept, refuse, let it time out), exactly the accepted pairs survive, none is pending, no two match, and the client's invariant holds. |
| ArchWebSocketClients.ArchWebSocketClient.RestoreOne | src/websocket-client/managers/subscription-manager.ts:194-200 | One turn of that loop adds the pair iff the answer is an acceptance, and leaves all other entries as they were. |
| ArchWebSocketClients.ArchWebSocketClient.ReadyToResubscribe | src/websocket-client/arch-web-socket-client.ts:76-80 | A valid client meets the precondition of subscribing again. |
| ArchWebSocketClients.DisconnectsLeaveNothingIff | src/websocket-client/managers/reconnection-manager.ts:32-61 | At the moment of a disconnect no timer would be armed, at every point of a run, iff no two attempts of the run overlap; what may be armed later is the subject of `ClientDisconnects`. |
| ArchWebSocketClients.QuietUpTo | src/websocket-client/arch-web-socket-client.ts:73-96 | From any point of a run at which a free client may not reconnect, no timer is armed or fires for as long as the user neither connects nor changes the options. |
| ArchWebSocketClients.NoTimerWithoutStray | src/websocket-client/arch-web-socket-client.ts:63-69 | A run without reconnect handlers on sockets that may close arms no timer by a close, whatever the options become, and none at all if it started with none. |
| ClientDisconnects.DisconnectThenRun | src/websocket-client/arch-web-socket-client.ts:73-96 | If the client may not reconnect once disconnected, no run after the disconnect arms or fires a timer while the user neither connects nor changes the options. |
| ClientDisconnects.DisconnectThenReconnect | src/websocket-client/arch-web-socket-client.ts:73-96 | If it may, at most three steps after the disconnect, none of them such a call, arm or fire one. |
| ClientDisconnects.Reconnect | src/websocket-client/arch-web-socket-client.ts:73-96 | Every client that may reconnect does so in at most three steps without a call by the user. |
| ArchWebSocketClients.ArchWebSocketClient.Perform | src/websocket-client/arch-web-socket-client.ts:56-188 | Each of the nineteen kinds of step has the effect that `Did` states, and leaves alone what it does not name; possible or not, it keeps the invariant, never reissues a request id or reopens a settled request, and, unless it changes the options, stays within the attempt limit. |
| ArchWebSocketClients.ArchWebSocketClient.Run | src/websocket-client/arch-web-socket-client.ts:56-188 | Over every sequence of steps: current socket and registry agree on every event a caller may name, pending entries have open requests, request ids are issued once, answers consumed once, every promise that settles does so by its own answer (with the id it carries) or its own timeout, every entry that is confirmed goes back to an acceptance of a request with its topic and filter, attempts bounded while the options stay, disconnecting leaves no timer armed at every point iff no two attempts overlap, and without `autoReconnect` no socket is ever stray. |
| ClientExamples.LateAnswer | src/websocket-client/managers/subscription-manager.ts:70-105 | From a new client six steps lead to a rejected request with a confirmed entry, for every topic, filter and id. |
| ClientExamples.StrayTimer | src/websocket-client/managers/reconnection-manager.ts:56-61 | From a new client nine steps lead to a disconnected client with a reconnect timer armed. |
| ClientExamples.InFlightReconnects | src/websocket-client/arch-web-socket-client.ts:73-96 | A disconnect while a reconnect attempt is in flight cancels nothing, and the failure of the attempt arms the next timer. |
| ClientExamples.StraySocketReconnects | src/websocket-client/arch-web-socket-client.ts:56-71 | A socket that opened late kept an old reconnect handler; it closes after the disconnect and arms a timer, although none was armed and no attempt was in flight. |
| ClientExamples.StrayTimerReconnects | src/websocket-client/arch-web-socket-client.ts:73-96 | When that timer fires, the disconnected client connects again. |

## Left out

- Hexadecimal and ASCII helpers, `bytesEqual`, `toByteArray`, `isHex`: each is one pass over its input without state.
- Legacy message, instruction, account and UTXO encodings, token and other instruction builders, rent, txid, program
  errors, HTTP providers: fixed layouts, lookups and plumbing.
- sha256, secp256k1 and the message `hash`: libraries; the hash and the curve test of `ProgramAddresses` are arbitrary
  functions.
- `toHex` and `toNumberArray` views, borsh schema constants.
- Keys and signatures of other lengths on the wire (JavaScript concatenates them as they are); `MessageFits` and
  `TransactionFits` state the lengths the format assumes.
- NaN and infinite numbers; numbers are reals, and the limit of reconnect attempts is an integer. Bit operations are
  multiplications, divisions and remainders.
- Object keys such as `__proto__` and the reordering of integer-like keys in the JSON trees.
- The order in which handlers of one event run: handler sets are unordered, and a dispatch visits them in any order.
- The bodies of the caller's listeners; what they call on the client is a later step, not a nested one.
- Keep-alive pings, activity times, logging, the connection manager's own callback sets, and unparsable messages.
- The time stamp inside request ids: the counter alone makes them distinct. Event names are structured values, so a
  server id that spells another event's name, or one of the form `pending-...`, does not occur; nor does the envelope
  form that lets a server name any event.
- Filters are maps from keys to JSON texts, so a filter value `undefined` does not occur.
- The waiting loop of a second `connect` and the promises that link an async method's two halves: the second half may
  run at any time and any number of times, which allows more runs than the source has. A reconnect attempt in flight
  ends once, but may succeed at any time, also after a disconnect.
- What is written to the socket, and the timeout of an unsubscribe, which only rejects its promise.
- The loop of `unsubscribeTopic`: each of its calls is a step of its own.
- ArchWebSocketClients.ArchWebSocketClient.ReconnectSucceeds: covers `resetAttempts` and the clearing of the map; each
  request that follows is a step of its own, because other steps may come in between.
- SubscriptionManagers.SubscriptionManager.ResubscribeAllConfirmed: is about the run in which the server confirms every
  request; `ResubscribeAnswered` covers every answer. Both are about runs without interleaved steps.
- An exception thrown by `ws.send` while a request is being sent.
