/** Fixed-width values of the node. */
module Types {
  type byte = n: nat | n < 0x100
  type u64 = n: nat | n < 0x1_0000_0000_0000_0000

  type u32 = n: nat | n < 0x1_0000_0000

  const U32_RANGE: nat := 0x1_0000_0000
  const U64_RANGE: nat := 0x1_0000_0000_0000_0000

  type Bytes32 = s: seq<byte> | |s| == 32 witness seq(32, _ => 0)

  /** A 32-byte hash. */
  datatype B256 = B256(bytes: Bytes32)

  /** A block header: its number, and everything else as one opaque field. */
  datatype Header = Header(number: u64, rest: seq<byte>)

  datatype Body = Body(content: seq<byte>)
}
