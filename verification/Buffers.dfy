/** Fixed-size byte buffers filled by slice copies. */
module Buffers {
  import opened Terms

  /** `buffer[at..at + len].copy_from_slice(bytes)`. */
  method CopyInto(buffer: array<Byte>, at: nat, bytes: seq<Byte>)
    requires at + |bytes| <= buffer.Length
    modifies buffer
    ensures buffer[..] == old(buffer[..at]) + bytes + old(buffer[at + |bytes|..])
  {
    forall i | 0 <= i < |bytes| {
      buffer[at + i] := bytes[i];
    }
  }
}
