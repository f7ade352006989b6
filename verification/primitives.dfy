/** Machine-level types shared by every component. */
module Primitives {

  datatype Option<+T> = None | Some(value: T)

  datatype Error =
    | Malformed             // bytes that are not a well-formed message
    | UnsupportedWireType
    | InvalidBalance
    | EmptyAccount
    | NodeNotFound
    | KeyNotFound

  datatype Result<+T> = Ok(value: T) | Err(error: Error)

  const UINT64_LIMIT: nat := 0x1_0000_0000_0000_0000
  const UINT256_LIMIT: nat := 0x1_0000_0000_0000_0000_0000_0000_0000_0000_0000_0000_0000_0000_0000_0000_0000_0000

  newtype byte = n: int | 0 <= n < 256
  type Bytes = seq<byte>
  type uint64 = n: int | 0 <= n < UINT64_LIMIT
  type uint256 = n: int | 0 <= n < UINT256_LIMIT

  type Address = b: Bytes | |b| == 20 witness [0, 0, 0, 0, 0, 0, 0, 0, 0, 0, 0, 0, 0, 0, 0, 0, 0, 0, 0, 0]
  type Hash = b: Bytes | |b| == 32 witness
    [0, 0, 0, 0, 0, 0, 0, 0, 0, 0, 0, 0, 0, 0, 0, 0, 0, 0, 0, 0, 0, 0, 0, 0, 0, 0, 0, 0, 0, 0, 0, 0]

  const ZERO_ADDRESS: Address := [0, 0, 0, 0, 0, 0, 0, 0, 0, 0, 0, 0, 0, 0, 0, 0, 0, 0, 0, 0]
  const ZERO_HASH: Hash :=
    [0, 0, 0, 0, 0, 0, 0, 0, 0, 0, 0, 0, 0, 0, 0, 0, 0, 0, 0, 0, 0, 0, 0, 0, 0, 0, 0, 0, 0, 0, 0, 0]
}
