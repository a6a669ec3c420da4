/** Instructions as a caller writes them (src/struct/instruction.ts, src/struct/account.ts). */
module Instructions {
  import opened Prelude

  /** A public key is a byte string. Hex spelling is injective, so the source's maps from hex are maps from keys. */
  type Pubkey = seq<byte>

  datatype AccountMeta = AccountMeta(pubkey: Pubkey, isSigner: bool, isWritable: bool)

  datatype Instruction = Instruction(programId: Pubkey, accounts: seq<AccountMeta>, data: seq<byte>)
}
