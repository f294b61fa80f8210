# NOSTROMO launchpad: the user-tier staking ledger

This project models the user-tier staking ledger of the NOSTROMO launchpad
contract (`src/contracts/NOSTROMOLaunchpad.h`) and proves properties of it.

A user stakes for a tier level with `addUserTier(tier)`. The contract keeps
the attached payment, which must be exactly `stakeAmount(tier) + transactionFee`.
It records the level in `userTiers` and adds the stake to
`stakedQubicsInContract`. With `removeUserTier()` the user pays at least the fee,
goes back to level NONE and gets the stake paid back. Each procedure is a
chain of guards. Every guard ends the call with a status code. Some guards
refund the attached payment and some do not.

Modules:

- `NostromoTypes` (`nostromo_types.dfy`): the `uint8`, `uint64` and `sint64`
  widths and the C++ conversions between them, the tier levels NONE..QUEEN,
  the tier record, the `Status` outcomes with their `uint8` codes, and the
  `Transfer` instruction sent to the host ledger.
- `StakingLedger` (`staking_ledger.dfy`): the ledger as a value (the map and the
  counter), the total stake held by all users (`TotalStaked`), and the
  invariant `Consistent`. The invariant says the counter equals that total
  reduced modulo 2^64, and that every stored level is NONE..QUEEN.
- `LaunchpadSpec` (`launchpad_spec.dfy`): one outcome function per procedure.
  It maps the ledger, the caller, the input and the payment to the status, the
  transfers issued and the new ledger. The module also holds the lemmas about
  these functions.
- `NostromoLaunchpad` (`nostromo_launchpad.dfy`): the class `Launchpad`. The map
  and the counter are mutable fields; the tier table and the fee are constants.
  Each procedure is a method written as the same chain of early returns. Each
  method is proved to keep `Valid()` and to produce exactly what its outcome
  function gives. The client method `StakeCycle` shows that the class contracts
  compose over one stake cycle: a stake, a rejected second stake, then the
  unstake.
- `LaunchpadFindings` (`launchpad_findings.dfy`): the existing-tier guard of
  `addUserTier` as the code writes it (see "## Findings").

How the host interface is modelled:

- The caller (`qpi.invocator()`) and the attached payment
  (`qpi.invocationReward()`) are parameters.
- Every `qpi.transfer(to, amount)` becomes a `Transfer(to, amount)` in the
  returned sequence.
- Both `QPI::HashMap`s are Dafny maps.
- The tier table must define levels 1..5 (`TiersDefined`), so the lookup at
  line 148 cannot fail.

How the source's machine arithmetic is modelled:

- The comparison at line 149 converts the fee and the payment to `uint64`, and
  the sum wraps (`StakeMatches`). `StakeMatchesIsExact` proves that this
  comparison means `payment == stakeAmount + fee` exactly, once the fee check at
  line 127 has passed.
- The counter updates at lines 160 and 215 wrap modulo 2^64.
- The transfer at line 212 passes a `uint64` stake as a `sint64` amount
  (`ToSint64`).

Readings of the source:

- Line 206 writes `userTiers.set(...)` without `state.`. It is read as the
  update of the contract's `userTiers` field.
- Line 215 subtracts `stakingTier.stakedAmount`, a field that does not exist. It
  is read as `stakeAmount` (line 46).
- The second locals struct at line 168 reuses the name `addUserTier_locals`. It
  is read as the locals of `removeUserTier`, with the same two fields.
- The existing-tier guard at line 138 is inverted relative to its comment at
  lines 134-136. The contract object uses the comment's rule: a caller whose
  stored level is not NONE is rejected with TIER_ALREADY_SET. The code as
  written is modelled beside it (`RejectsNone`) and its effects are proved in
  `LaunchpadFindings`.
- `removeUserTier` returns USER_NOT_FOUND and NO_TIER_FOUND without a refund
  (lines 192-200). Every other rejection in the contract refunds the attached
  payment (lines 119, 129, 140, 151, 183). These two paths issue no transfer
  and keep the payment, and the model follows the code.
- On success, `removeUserTier` keeps the whole attached payment, not only the
  fee. Only the stake is paid back.

## Model

| member | source | states |
|---|---|---|
| NostromoTypes.ToUint64 | src/contracts/NOSTROMOLaunchpad.h:149-160 | conversion to `uint64` is the identity on 0..2^64-1, subtracts 2^64 from a sum that overflowed once, and adds 2^64 to a difference that went once below zero |
| NostromoTypes.ToSint64 | src/contracts/NOSTROMOLaunchpad.h:212 | a `uint64` amount below 2^63 is passed to the transfer unchanged; a larger one turns negative, congruent modulo 2^64 |
| NostromoTypes.Status.Code | src/contracts/NOSTROMOLaunchpad.h:32-38 | each outcome reports a code in 0..6, and code 0 means exactly SUCCESS |
| NostromoTypes.CodeInjective | src/contracts/NOSTROMOLaunchpad.h:32-38 | distinct outcomes have distinct status codes |
| StakingLedger.TotalStakedUpdate | src/contracts/NOSTROMOLaunchpad.h:159-160 | setting one user's level changes the total stake by the new level's stake minus the user's old stake; no other user's stake counts differently |
| StakingLedger.HolderStakeBounded | src/contracts/NOSTROMOLaunchpad.h:211-215 | no holder's stake exceeds the total stake held by all users |
| LaunchpadSpec.StakeMatchesIsExact | src/contracts/NOSTROMOLaunchpad.h:149 | once the payment covers the fee, the wrapped `uint64` comparison holds exactly when the payment equals stake plus fee |
| LaunchpadSpec.AddUserTierOutcome | src/contracts/NOSTROMOLaunchpad.h:112-166 | INVALID_TIER exactly for a tier outside 1..5; then INSUFFICIENT_BALANCE for a payment below the fee; then TIER_ALREADY_SET exactly when the guard rejects the caller's stored level; success exactly when the payment equals stake plus fee. Every rejection refunds the whole payment and changes nothing. Success issues no transfer, sets only the caller's entry to the tier, and adds the stake to the counter modulo 2^64 |
| LaunchpadSpec.RemoveUserTierOutcome | src/contracts/NOSTROMOLaunchpad.h:176-218 | INSUFFICIENT_BALANCE exactly when the payment is below the fee, with a full refund; USER_NOT_FOUND for an absent caller and NO_TIER_FOUND for a caller at NONE, both without a transfer. No rejection changes the ledger. Success sets only the caller's entry to NONE, pays the old tier's stake to the caller, and takes it off the counter modulo 2^64 |
| LaunchpadSpec.InitialConsistent | src/contracts/NOSTROMOLaunchpad.h:88-92 | the zeroed initial state (empty map, counter 0) satisfies the ledger invariant |
| LaunchpadSpec.AddPreservesConsistency | src/contracts/NOSTROMOLaunchpad.h:159-160 | `addUserTier` keeps the counter equal, modulo 2^64, to the total stake of users holding a tier |
| LaunchpadSpec.RemovePreservesConsistency | src/contracts/NOSTROMOLaunchpad.h:206-215 | `removeUserTier` keeps the counter equal, modulo 2^64, to the total stake of users holding a tier |
| LaunchpadSpec.RemoveNeverUnderflows | src/contracts/NOSTROMOLaunchpad.h:215 | while the total stake fits in 64 bits, the counter equals it exactly, and a successful remove subtracts a stake no larger than the counter, so the subtraction does not wrap |
| LaunchpadSpec.AddThenRemove | src/contracts/NOSTROMOLaunchpad.h:159-217 | a successful add followed by a remove with the fee attached succeeds, pays back exactly the stake (as a `sint64`; exactly the stake when the fee is not negative), restores the counter and leaves the caller at NONE with every other entry unchanged |
| LaunchpadSpec.AddOnceUntilRemoved | src/contracts/NOSTROMOLaunchpad.h:134-143 | after a successful add, a later add by the same caller that gets past the range and fee checks is TIER_ALREADY_SET, refunds the payment and changes nothing |
| LaunchpadSpec.RestakeAfterRemove | src/contracts/NOSTROMOLaunchpad.h:134-159 | after a successful remove, the caller can stake any tier again with the exact payment |
| LaunchpadSpec.AddRetainsFee | src/contracts/NOSTROMOLaunchpad.h:148-165 | a successful add issues no transfer; the counter grows by exactly the stake, and the part of the payment left over is exactly the fee |
| NostromoLaunchpad.Launchpad.constructor | src/contracts/NOSTROMOLaunchpad.h:86-95 | the contract starts with an empty user map and a zero counter, with the given tier table and fee, and satisfies its invariant |
| NostromoLaunchpad.Launchpad.AddUserTier | src/contracts/NOSTROMOLaunchpad.h:112-166 | keeps the invariant; the status, transfers, new map and new counter are those of `AddUserTierOutcome`, with the existing-tier guard rejecting a caller who holds a tier |
| NostromoLaunchpad.Launchpad.RemoveUserTier | src/contracts/NOSTROMOLaunchpad.h:176-218 | keeps the invariant; the status, transfers, new map and new counter are those of `RemoveUserTierOutcome` |
| LaunchpadFindings.AsWrittenBlocksRestake | src/contracts/NOSTROMOLaunchpad.h:137-143 | with the guard as written, a caller who has unstaked is at NONE and every later add that passes the range and fee checks is TIER_ALREADY_SET |
| LaunchpadFindings.AsWrittenDoubleStakeBreaksConsistency | src/contracts/NOSTROMOLaunchpad.h:137-160 | with the guard as written, a caller who holds a tier with a non-zero stake can stake a second tier; the call succeeds and the counter no longer equals the total stake of the map |

## Left out

- The project part of the contract is left out: `NOSTROMOProject`, `NOSTROMOInvestment`, the project-state constants (lines 19-26), `projects`, `projectFee`, `projectNextId`, `admin`, `wallet` and `isAdmin`. They are declared, but no code in the modelled file reads or updates them.
- `poolWeight` is carried in the tier record, but no modelled procedure reads it.
- The capacities `NOSTROMO_MAX_USERS`, `NOSTROMO_MAX_PROJECTS` and `NOSTROMO_MAX_LEVELS` are left out, and so is the hashing inside `QPI::HashMap`. The maps are unbounded Dafny maps. The source ignores the result of `set`, so what happens when a map is full is not specified.
- The host plumbing is left out: `PUBLIC_PROCEDURE_WITH_LOCALS`, `REGISTER_USER_FUNCTIONS_AND_PROCEDURES` and the procedure numbers. Whether the host executes a transfer, for example one with a negative amount, is also outside the model. The model only records the transfers that are issued.
- Identities are natural numbers. Signatures and authentication of the caller are not modelled.
- The initialisation routine at lines 227-228 is commented out in the source. The model's constructor takes a tier table that is already seeded.
- `src/oracles/oracle_machines.h` holds only transaction-layout structs; it has no behaviour to model.
- NOST_UNABLE_TO_UNSTAKE (line 38) is a declared code that no procedure returns. It exists in `Status` only for its code.

## Findings

| source | as written | input that shows it | evidently intended | confidence | as-written member | corrected member |
|---|---|---|---|---|---|---|
| src/contracts/NOSTROMOLaunchpad.h:137-143 | the guard rejects a caller whose stored level is NONE and lets a caller who holds a tier through | a caller holding EGG with a non-zero stake calls `addUserTier(DOG)` paying `stakeAmount(DOG) + fee`: the call succeeds, the map keeps only DOG and the counter keeps both stakes. A caller who has called `removeUserTier` is at NONE and can never stake again | reject with TIER_ALREADY_SET a caller whose stored level is not NONE, as the comment at lines 134-136 says | high (from reading the code; not executed) | LaunchpadFindings.AsWrittenDoubleStakeBreaksConsistency | LaunchpadSpec.AddPreservesConsistency |
