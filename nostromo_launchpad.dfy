/**
 * The contract object: the user-tier map and the staked counter it updates in
 * place, the read-only tier table and transaction fee, and the two public
 * procedures, each proved against its outcome function.
 */
module NostromoLaunchpad {
  import opened NostromoTypes
  import opened StakingLedger
  import opened LaunchpadSpec

  class Launchpad {
    const tiers: TierTable
    const transactionFee: sint64
    var userTiers: map<Id, uint8>
    var stakedQubicsInContract: uint64

    /** The ledger part of the contract state. */
    function LedgerState(): Ledger
      reads this
    {
      Ledger(userTiers, stakedQubicsInContract)
    }

    /** The contract invariant: the tier table is seeded and the ledger is consistent. */
    ghost predicate Valid()
      reads this
    {
      TiersDefined(tiers) && Consistent(tiers, LedgerState())
    }

    /** A contract whose state starts zeroed, with a seeded tier table and a fee. */
    constructor (tiers: TierTable, transactionFee: sint64)
      requires TiersDefined(tiers)
      ensures Valid()
      ensures this.tiers == tiers && this.transactionFee == transactionFee
      ensures userTiers == map[] && stakedQubicsInContract == 0
    {
      this.tiers := tiers;
      this.transactionFee := transactionFee;
      userTiers := map[];
      stakedQubicsInContract := 0;
      new;
      InitialConsistent(tiers);
    }

    /** Procedure `addUserTier`, with the existing-tier guard rejecting a caller whose tier is set. */
    method AddUserTier(caller: Id, tier: uint8, payment: sint64) returns (status: Status, transfers: seq<Transfer>)
      requires Valid()
      modifies this
      ensures Valid()
      ensures Outcome(status, transfers, LedgerState())
           == AddUserTierOutcome(RejectsHeld, tiers, transactionFee, old(LedgerState()), caller, tier, payment)
    {
      AddPreservesConsistency(tiers, transactionFee, LedgerState(), caller, tier, payment);
      if tier <= 0 || tier > 5 {
        status, transfers := InvalidTier, [Transfer(caller, payment)];
        return;
      }
      if payment < transactionFee {
        status, transfers := InsufficientBalance, [Transfer(caller, payment)];
        return;
      }
      if caller in userTiers {
        var foundTier := userTiers[caller];
        if foundTier != NONE {
          status, transfers := TierAlreadySet, [Transfer(caller, payment)];
          return;
        }
      }
      var stakingTier := tiers[tier];
      if ToUint64(stakingTier.stakeAmount + ToUint64(transactionFee)) != ToUint64(payment) {
        status, transfers := InsufficientBalance, [Transfer(caller, payment)];
        return;
      }
      userTiers := userTiers[caller := tier];
      stakedQubicsInContract := ToUint64(stakedQubicsInContract + stakingTier.stakeAmount);
      status, transfers := Success, [];
    }

    /** Procedure `removeUserTier`. */
    method RemoveUserTier(caller: Id, payment: sint64) returns (status: Status, transfers: seq<Transfer>)
      requires Valid()
      modifies this
      ensures Valid()
      ensures Outcome(status, transfers, LedgerState())
           == RemoveUserTierOutcome(tiers, transactionFee, old(LedgerState()), caller, payment)
    {
      RemovePreservesConsistency(tiers, transactionFee, LedgerState(), caller, payment);
      if payment < transactionFee {
        status, transfers := InsufficientBalance, [Transfer(caller, payment)];
        return;
      }
      if caller !in userTiers {
        status, transfers := UserNotFound, [];
        return;
      }
      var foundTier := userTiers[caller];
      if foundTier == NONE {
        status, transfers := NoTierFound, [];
        return;
      }
      userTiers := userTiers[caller := NONE];
      var stakingTier := tiers[foundTier];
      transfers := [Transfer(caller, ToSint64(stakingTier.stakeAmount))];
      stakedQubicsInContract := ToUint64(stakedQubicsInContract - stakingTier.stakeAmount);
      status := Success;
    }
  }

  /** A stake, an attempt to stake twice, and the unstake, on one contract. */
  method StakeCycle(tiers: TierTable, fee: sint64, caller: Id)
    requires TiersDefined(tiers) && 0 <= fee && tiers[EGG].stakeAmount + fee < TWO_63
  {
    var c := new Launchpad(tiers, fee);
    var stake := tiers[EGG].stakeAmount;
    var s1, t1 := c.AddUserTier(caller, EGG, stake + fee);
    assert s1 == Success && t1 == [] && c.stakedQubicsInContract == stake;
    var s2, t2 := c.AddUserTier(caller, DOG, fee);
    assert s2 == TierAlreadySet && t2 == [Transfer(caller, fee)] && c.stakedQubicsInContract == stake;
    var s3, t3 := c.RemoveUserTier(caller, fee);
    assert s3 == Success && t3 == [Transfer(caller, stake)];
    assert c.stakedQubicsInContract == 0 && c.userTiers[caller] == NONE;
  }
}
