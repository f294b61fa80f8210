/**
 * What `addUserTier` and `removeUserTier` do to the ledger, as functions from
 * the ledger, the caller, the input and the attached payment to the status,
 * the transfers issued and the new ledger; and the properties of the two.
 */
module LaunchpadSpec {
  import opened NostromoTypes
  import opened StakingLedger

  /** What one call produces: its status, the transfers it issues, the ledger after it. */
  datatype Outcome = Outcome(status: Status, transfers: seq<Transfer>, ledger: Ledger)

  /** Which stored level the existing-tier guard of `addUserTier` rejects. */
  datatype ExistingTierGuard =
    | RejectsNone  // the comparison as the code writes it
    | RejectsHeld  // the rule its comment states: reject a caller whose tier is set

  predicate GuardRejects(guard: ExistingTierGuard, found: uint8) {
    match guard
    case RejectsNone => found == NONE
    case RejectsHeld => found != NONE
  }

  /** The caller has an entry and the guard rejects its level. */
  predicate AlreadySet(guard: ExistingTierGuard, userTiers: map<Id, uint8>, caller: Id) {
    caller in userTiers && GuardRejects(guard, userTiers[caller])
  }

  /**
   * The comparison `stakeAmount + transactionFee != invocationReward()`:
   * the fee and the payment are converted to `uint64` and the sum wraps.
   */
  function StakeMatches(stake: uint64, fee: sint64, payment: sint64): bool {
    ToUint64(stake + ToUint64(fee)) == ToUint64(payment)
  }

  /** Once the payment covers the fee, the wrapped comparison is exact equality. */
  lemma StakeMatchesIsExact(stake: uint64, fee: sint64, payment: sint64)
    requires fee <= payment
    ensures StakeMatches(stake, fee, payment) <==> payment == stake + fee
  {
  }

  /**
   * `addUserTier(tier)` called by `caller` with `payment` attached: the guards
   * in order (tier range, fee, existing tier, exact payment), every rejection
   * refunding the payment and changing nothing; success records the tier,
   * adds its stake to the counter and keeps the payment.
   */
  function AddUserTierOutcome(guard: ExistingTierGuard, tiers: TierTable, fee: sint64, l: Ledger,
                              caller: Id, tier: uint8, payment: sint64): (o: Outcome)
    requires TiersDefined(tiers)
    ensures o.status in {Success, InvalidTier, InsufficientBalance, TierAlreadySet}
    ensures o.status == InvalidTier <==> !ValidLevel(tier)
    ensures o.status == TierAlreadySet <==>
              ValidLevel(tier) && fee <= payment && AlreadySet(guard, l.userTiers, caller)
    ensures o.status == Success <==>
              ValidLevel(tier) && fee <= payment && !AlreadySet(guard, l.userTiers, caller)
              && payment == tiers[tier].stakeAmount + fee
    ensures o.status != Success ==> o.ledger == l && o.transfers == [Transfer(caller, payment)]
    ensures o.status == Success ==>
              && o.transfers == []
              && o.ledger.userTiers == l.userTiers[caller := tier]
              && o.ledger.staked == ToUint64(l.staked + StakeOf(tiers, tier))
  {
    var refund := [Transfer(caller, payment)];
    if tier <= 0 || tier > 5 then Outcome(InvalidTier, refund, l)
    else if payment < fee then Outcome(InsufficientBalance, refund, l)
    else if caller in l.userTiers && GuardRejects(guard, l.userTiers[caller]) then
      Outcome(TierAlreadySet, refund, l)
    else
      var stakingTier := tiers[tier];
      StakeMatchesIsExact(stakingTier.stakeAmount, fee, payment);
      if !StakeMatches(stakingTier.stakeAmount, fee, payment) then Outcome(InsufficientBalance, refund, l)
      else
        Outcome(Success, [],
                Ledger(l.userTiers[caller := tier], ToUint64(l.staked + stakingTier.stakeAmount)))
  }

  /**
   * `removeUserTier()` called by `caller` with `payment` attached: a payment
   * below the fee is refunded; an unknown caller or one at NONE is turned
   * away without a refund; otherwise the caller goes back to NONE and the
   * stake of its old tier is paid back and taken off the counter.
   */
  function RemoveUserTierOutcome(tiers: TierTable, fee: sint64, l: Ledger, caller: Id, payment: sint64): (o: Outcome)
    requires TiersDefined(tiers) && LevelsValid(l.userTiers)
    ensures o.status in {Success, InsufficientBalance, UserNotFound, NoTierFound}
    ensures o.status == InsufficientBalance <==> payment < fee
    ensures o.status == UserNotFound <==> fee <= payment && caller !in l.userTiers
    ensures o.status == NoTierFound <==> fee <= payment && caller in l.userTiers && l.userTiers[caller] == NONE
    ensures o.status == Success <==> fee <= payment && caller in l.userTiers && l.userTiers[caller] != NONE
    ensures o.status != Success ==> o.ledger == l
    ensures o.status == InsufficientBalance ==> o.transfers == [Transfer(caller, payment)]
    ensures o.status == UserNotFound || o.status == NoTierFound ==> o.transfers == []
    ensures o.status == Success ==>
              var stake := StakeOf(tiers, l.userTiers[caller]);
              && o.transfers == [Transfer(caller, ToSint64(stake))]
              && o.ledger.userTiers == l.userTiers[caller := NONE]
              && o.ledger.staked == ToUint64(l.staked - stake)
  {
    if payment < fee then Outcome(InsufficientBalance, [Transfer(caller, payment)], l)
    else if caller !in l.userTiers then Outcome(UserNotFound, [], l)
    else
      var foundTier := l.userTiers[caller];
      if foundTier == NONE then Outcome(NoTierFound, [], l)
      else
        var stakingTier := tiers[foundTier];
        Outcome(Success, [Transfer(caller, ToSint64(stakingTier.stakeAmount))],
                Ledger(l.userTiers[caller := NONE], ToUint64(l.staked - stakingTier.stakeAmount)))
  }

  /** A fresh contract: no users, nothing staked. */
  lemma InitialConsistent(tiers: TierTable)
    ensures Consistent(tiers, Ledger(map[], 0))
  {
  }

  /** `addUserTier` keeps the counter equal to the total stake of the ledger. */
  lemma AddPreservesConsistency(tiers: TierTable, fee: sint64, l: Ledger, caller: Id, tier: uint8, payment: sint64)
    requires TiersDefined(tiers) && Consistent(tiers, l)
    ensures Consistent(tiers, AddUserTierOutcome(RejectsHeld, tiers, fee, l, caller, tier, payment).ledger)
  {
    var o := AddUserTierOutcome(RejectsHeld, tiers, fee, l, caller, tier, payment);
    if o.status == Success {
      var total := TotalStaked(tiers, l.userTiers);
      TotalStakedUpdate(tiers, l.userTiers, caller, tier);
      assert TotalStaked(tiers, o.ledger.userTiers) == total + StakeOf(tiers, tier);
      ToUint64AddCongruent(total, StakeOf(tiers, tier));
    }
  }

  /** `removeUserTier` keeps the counter equal to the total stake of the ledger. */
  lemma RemovePreservesConsistency(tiers: TierTable, fee: sint64, l: Ledger, caller: Id, payment: sint64)
    requires TiersDefined(tiers) && Consistent(tiers, l)
    ensures Consistent(tiers, RemoveUserTierOutcome(tiers, fee, l, caller, payment).ledger)
  {
    var o := RemoveUserTierOutcome(tiers, fee, l, caller, payment);
    if o.status == Success {
      var total := TotalStaked(tiers, l.userTiers);
      var stake := StakeOf(tiers, l.userTiers[caller]);
      TotalStakedUpdate(tiers, l.userTiers, caller, NONE);
      assert TotalStaked(tiers, o.ledger.userTiers) == total - stake;
      ToUint64AddCongruent(total, -(stake as int));
    }
  }

  /**
   * While the total stake fits in 64 bits, the counter is the exact total and
   * the subtraction of a successful `removeUserTier` does not wrap.
   */
  lemma RemoveNeverUnderflows(tiers: TierTable, fee: sint64, l: Ledger, caller: Id, payment: sint64)
    requires TiersDefined(tiers) && Consistent(tiers, l)
    requires TotalStaked(tiers, l.userTiers) < TWO_64
    ensures l.staked == TotalStaked(tiers, l.userTiers)
    ensures RemoveUserTierOutcome(tiers, fee, l, caller, payment).status == Success ==>
              && StakeOf(tiers, l.userTiers[caller]) <= l.staked
              && RemoveUserTierOutcome(tiers, fee, l, caller, payment).ledger.staked
                 == l.staked - StakeOf(tiers, l.userTiers[caller])
  {
    if RemoveUserTierOutcome(tiers, fee, l, caller, payment).status == Success {
      HolderStakeBounded(tiers, l.userTiers, caller);
    }
  }

  /**
   * A successful `addUserTier` followed by `removeUserTier` with the fee
   * attached succeeds, pays back exactly the stake, restores the counter and
   * leaves the caller at NONE with every other entry as it was.
   */
  lemma AddThenRemove(tiers: TierTable, fee: sint64, l: Ledger, caller: Id, tier: uint8, payment: sint64, payment': sint64)
    requires TiersDefined(tiers) && Consistent(tiers, l)
    requires AddUserTierOutcome(RejectsHeld, tiers, fee, l, caller, tier, payment).status == Success
    requires fee <= payment'
    ensures Consistent(tiers, AddUserTierOutcome(RejectsHeld, tiers, fee, l, caller, tier, payment).ledger)
    ensures
      var mid := AddUserTierOutcome(RejectsHeld, tiers, fee, l, caller, tier, payment).ledger;
      var o := RemoveUserTierOutcome(tiers, fee, mid, caller, payment');
      && o.status == Success
      && o.transfers == [Transfer(caller, ToSint64(tiers[tier].stakeAmount))]
      && (0 <= fee ==> o.transfers == [Transfer(caller, tiers[tier].stakeAmount)])
      && o.ledger.staked == l.staked
      && o.ledger.userTiers == l.userTiers[caller := NONE]
  {
    AddPreservesConsistency(tiers, fee, l, caller, tier, payment);
    var stake := tiers[tier].stakeAmount;
    ToUint64AddCongruent(l.staked + stake, -(stake as int));
  }

  /**
   * After a successful `addUserTier`, every further `addUserTier` by the same
   * caller with a valid tier and the fee attached is turned away as
   * TIER_ALREADY_SET: one stake per user until it is removed.
   */
  lemma AddOnceUntilRemoved(tiers: TierTable, fee: sint64, l: Ledger, caller: Id,
                            tier: uint8, payment: sint64, tier': uint8, payment': sint64)
    requires TiersDefined(tiers)
    requires AddUserTierOutcome(RejectsHeld, tiers, fee, l, caller, tier, payment).status == Success
    requires ValidLevel(tier') && fee <= payment'
    ensures
      var mid := AddUserTierOutcome(RejectsHeld, tiers, fee, l, caller, tier, payment).ledger;
      var o := AddUserTierOutcome(RejectsHeld, tiers, fee, mid, caller, tier', payment');
      o.status == TierAlreadySet && o.ledger == mid && o.transfers == [Transfer(caller, payment')]
  {
  }

  /** After a successful `removeUserTier` the caller can stake any tier again with the exact payment. */
  lemma RestakeAfterRemove(tiers: TierTable, fee: sint64, l: Ledger, caller: Id, payment: sint64, tier: uint8)
    requires TiersDefined(tiers) && LevelsValid(l.userTiers)
    requires RemoveUserTierOutcome(tiers, fee, l, caller, payment).status == Success
    requires ValidLevel(tier) && tiers[tier].stakeAmount + fee < TWO_63
    ensures
      var mid := RemoveUserTierOutcome(tiers, fee, l, caller, payment).ledger;
      AddUserTierOutcome(RejectsHeld, tiers, fee, mid, caller, tier, tiers[tier].stakeAmount + fee).status == Success
  {
  }

  /**
   * A successful `addUserTier` keeps the whole payment: the counter grows by
   * the stake and the remainder retained is exactly the fee.
   */
  lemma AddRetainsFee(tiers: TierTable, fee: sint64, l: Ledger, caller: Id, tier: uint8, payment: sint64)
    requires TiersDefined(tiers)
    requires AddUserTierOutcome(RejectsHeld, tiers, fee, l, caller, tier, payment).status == Success
    requires l.staked + tiers[tier].stakeAmount < TWO_64
    ensures
      var o := AddUserTierOutcome(RejectsHeld, tiers, fee, l, caller, tier, payment);
      && o.transfers == []
      && o.ledger.staked - l.staked == tiers[tier].stakeAmount
      && payment - (o.ledger.staked - l.staked) == fee
  {
  }
}
