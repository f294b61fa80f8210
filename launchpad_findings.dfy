/**
 * The existing-tier guard of `addUserTier` as the code writes it: it turns
 * away a caller whose stored level is NONE and lets a caller who holds a tier
 * through. These lemmas show what that does to the ledger; the contract
 * object uses the rule the guard's comment states (LaunchpadSpec.RejectsHeld).
 */
module LaunchpadFindings {
  import opened NostromoTypes
  import opened StakingLedger
  import opened LaunchpadSpec

  /**
   * As written, a caller who has unstaked is left at NONE and can never stake
   * again: every later `addUserTier` that gets past the range and fee checks
   * is answered TIER_ALREADY_SET.
   */
  lemma AsWrittenBlocksRestake(tiers: TierTable, fee: sint64, l: Ledger, caller: Id, payment: sint64,
                               tier: uint8, payment': sint64)
    requires TiersDefined(tiers) && LevelsValid(l.userTiers)
    requires RemoveUserTierOutcome(tiers, fee, l, caller, payment).status == Success
    requires ValidLevel(tier) && fee <= payment'
    ensures
      var mid := RemoveUserTierOutcome(tiers, fee, l, caller, payment).ledger;
      var o := AddUserTierOutcome(RejectsNone, tiers, fee, mid, caller, tier, payment');
      o.status == TierAlreadySet && o.ledger == mid
  {
  }

  /**
   * As written, a caller who already holds a tier with a non-zero stake can
   * stake again: the call succeeds, the map keeps only the new tier, the
   * counter keeps both stakes, and the ledger invariant is lost (the first
   * stake can no longer be paid back by `removeUserTier`).
   */
  lemma AsWrittenDoubleStakeBreaksConsistency(tiers: TierTable, fee: sint64, l: Ledger, caller: Id, tier: uint8)
    requires TiersDefined(tiers) && Consistent(tiers, l)
    requires caller in l.userTiers && StakeOf(tiers, l.userTiers[caller]) > 0
    requires ValidLevel(tier) && tiers[tier].stakeAmount + fee < TWO_63
    ensures
      var o := AddUserTierOutcome(RejectsNone, tiers, fee, l, caller, tier, tiers[tier].stakeAmount + fee);
      o.status == Success && !Consistent(tiers, o.ledger)
  {
    var held := StakeOf(tiers, l.userTiers[caller]);
    var stake := StakeOf(tiers, tier);
    var total := TotalStaked(tiers, l.userTiers);
    var o := AddUserTierOutcome(RejectsNone, tiers, fee, l, caller, tier, tiers[tier].stakeAmount + fee);
    assert o.status == Success;
    TotalStakedUpdate(tiers, l.userTiers, caller, tier);
    var rest := total - held + stake;
    assert TotalStaked(tiers, o.ledger.userTiers) == rest;
    ToUint64AddCongruent(total, stake);
    ToUint64AddCongruent(rest, held);
    assert o.ledger.staked == ToUint64(ToUint64(rest) + held);
  }
}
