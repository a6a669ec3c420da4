/** `Uint8Array.prototype.set`: copying bytes into a buffer at an offset. */
module TypedArrays {
  import opened Prelude

  method Set(buffer: array<byte>, bytes: seq<byte>, offset: nat)
    requires offset + |bytes| <= buffer.Length
    modifies buffer
    ensures buffer[..] == old(buffer[..offset]) + bytes + old(buffer[offset + |bytes|..])
  {
    for i := 0 to |bytes|
      invariant buffer[..offset] == old(buffer[..offset])
      invariant buffer[offset..offset + i] == bytes[..i]
      invariant buffer[offset + |bytes|..] == old(buffer[offset + |bytes|..])
    {
      buffer[offset + i] := bytes[i];
    }
    assert buffer[..] == buffer[..offset] + buffer[offset..offset + |bytes|] + buffer[offset + |bytes|..];
  }
}
