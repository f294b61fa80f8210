/**
 * Machine integers, identities, tier levels, tier records, status codes and
 * transfer instructions of the NOSTROMO launchpad contract.
 */
module NostromoTypes {

  const TWO_63: int := 0x8000_0000_0000_0000
  const TWO_64: int := 0x1_0000_0000_0000_0000

  type uint8 = x: int | 0 <= x < 0x100
  type uint64 = x: int | 0 <= x < 0x1_0000_0000_0000_0000
  type sint64 = x: int | -0x8000_0000_0000_0000 <= x < 0x8000_0000_0000_0000

  /** A 256-bit public key, taken as the number it encodes. */
  type Id = nat

  /** C++ conversion of an integer value to `uint64`: reduction modulo 2^64. */
  function ToUint64(x: int): (r: uint64)
    ensures 0 <= x < TWO_64 ==> r == x
    ensures TWO_64 <= x < 2 * TWO_64 ==> r == x - TWO_64
    ensures -TWO_64 <= x < 0 ==> r == x + TWO_64
  {
    x % TWO_64
  }

  /** C++ conversion of a `uint64` to `sint64` (two's complement reinterpretation). */
  function ToSint64(x: uint64): (r: sint64)
    ensures x < TWO_63 ==> r == x
    ensures TWO_63 <= x ==> r < 0 && r + TWO_64 == x
  {
    if x < TWO_63 then x else x - TWO_64
  }

  // Tier levels; NONE marks a user whose stake has been returned.
  const NONE: uint8 := 0
  const EGG: uint8 := 1
  const DOG: uint8 := 2
  const ALIEN: uint8 := 3
  const WARRIOR: uint8 := 4
  const QUEEN: uint8 := 5

  /** The levels a user may stake for. */
  predicate ValidLevel(level: uint8) {
    EGG <= level <= QUEEN
  }

  /** A tier record: the stake it locks and its pool weight. */
  datatype Tier = Tier(stakeAmount: uint64, poolWeight: uint64)

  /** The contract's tier table, keyed by level. */
  type TierTable = map<uint8, Tier>

  /** Every stakeable level has a record, so a lookup by a valid level succeeds. */
  ghost predicate TiersDefined(tiers: TierTable) {
    forall level: uint8 :: ValidLevel(level) ==> level in tiers
  }

  /** The outcome a procedure writes to `output.status`. */
  datatype Status =
    | Success
    | InvalidTier
    | InsufficientBalance
    | TierAlreadySet
    | UserNotFound
    | NoTierFound
    | UnableToUnstake
  {
    /** The `uint8` code the contract reports for this outcome. */
    function Code(): (c: uint8)
      ensures c <= 6
      ensures c == 0 <==> this == Success
    {
      match this
      case Success => 0
      case InvalidTier => 1
      case InsufficientBalance => 2
      case TierAlreadySet => 3
      case UserNotFound => 4
      case NoTierFound => 5
      case UnableToUnstake => 6
    }
  }

  /** Distinct outcomes are reported with distinct codes. */
  lemma CodeInjective(s: Status, t: Status)
    ensures s.Code() == t.Code() ==> s == t
  {
  }

  /** An instruction to the host ledger to pay `amount` to `to`. */
  datatype Transfer = Transfer(to: Id, amount: sint64)
}
