/**
 The value types that the machine module borrows from the shared crate of the
 virtual machine: actor identifiers, exit codes, epochs, token amounts, content
 identifiers, network versions, addresses and message receipts. Only what the
 machine module relies on is modelled.
 */
module Shared {

  /** An unsigned 8-bit value, the unit of raw return data. */
  newtype byte = x: int | 0 <= x < 0x100

  /** Actor identifiers are unsigned 64-bit integers. */
  newtype ActorId = x: int | 0 <= x < 0x1_0000_0000_0000_0000

  /** A chain epoch is a signed 64-bit integer. */
  newtype ChainEpoch = x: int | -0x8000_0000_0000_0000 <= x < 0x8000_0000_0000_0000

  /** Exit codes are non-negative; 0 is success. Their partition into failure
      classes is configuration and is not modelled. */
  type ExitCode = nat

  /** Token amounts and the penalty / tip figures are unbounded big integers. */
  type TokenAmount = int

  /** A content identifier: the hash that commits a block of state. */
  datatype Cid = Cid(digest: seq<byte>)

  /** The network version in force at an epoch. */
  datatype NetworkVersion = NetworkVersion(number: nat)

  /** An address of the ID protocol, naming an actor directly by its identifier.
      The key-based and actor-derived address protocols are not modelled. */
  datatype Address = IdAddress(id: ActorId)

  /** A message receipt, the part of an application result stored on chain. */
  datatype Receipt = Receipt(exitCode: ExitCode, returnData: seq<byte>, gasUsed: int)
}
