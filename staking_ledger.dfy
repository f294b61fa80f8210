/**
 * The user-tier ledger as a value: the map from identity to tier level and the
 * `stakedQubicsInContract` counter, with the sum of stakes that the counter is
 * meant to track.
 */
module StakingLedger {
  import opened NostromoTypes

  /** The state the two staking procedures read and write. */
  datatype Ledger = Ledger(userTiers: map<Id, uint8>, staked: uint64)

  /** The stake locked by a holder of `level`: none for NONE or a level without a record. */
  function StakeOf(tiers: TierTable, level: uint8): uint64 {
    if level != NONE && level in tiers then tiers[level].stakeAmount else 0
  }

  /** The stakes of the users in `users`, added up. */
  ghost function SumOver(tiers: TierTable, m: map<Id, uint8>, users: set<Id>): nat
    requires users <= m.Keys
    decreases users
  {
    if users == {} then 0
    else
      var u :| u in users;
      StakeOf(tiers, m[u]) + SumOver(tiers, m, users - {u})
  }

  /** The stakes of every user holding a tier. */
  ghost function TotalStaked(tiers: TierTable, m: map<Id, uint8>): nat {
    SumOver(tiers, m, m.Keys)
  }

  /** Every stored level is NONE or a stakeable level. */
  ghost predicate LevelsValid(m: map<Id, uint8>) {
    forall u :: u in m ==> m[u] <= QUEEN
  }

  /**
   * The ledger invariant: stored levels are in range and the 64-bit counter
   * holds the total stake, reduced modulo 2^64 as `uint64` arithmetic does.
   */
  ghost predicate Consistent(tiers: TierTable, l: Ledger) {
    LevelsValid(l.userTiers) && l.staked == ToUint64(TotalStaked(tiers, l.userTiers))
  }

  /** Any user can be taken out of the sum first. */
  lemma {:induction false} SumOverRemove(tiers: TierTable, m: map<Id, uint8>, users: set<Id>, u: Id)
    requires users <= m.Keys && u in users
    ensures SumOver(tiers, m, users) == StakeOf(tiers, m[u]) + SumOver(tiers, m, users - {u})
    decreases users
  {
    var v :| v in users && SumOver(tiers, m, users) == StakeOf(tiers, m[v]) + SumOver(tiers, m, users - {v});
    if v != u {
      SumOverRemove(tiers, m, users - {v}, u);
      SumOverRemove(tiers, m, users - {u}, v);
      assert users - {v} - {u} == users - {u} - {v};
    }
  }

  /** The sum only depends on the levels of the users summed over. */
  lemma {:induction false} SumOverAgree(tiers: TierTable, m1: map<Id, uint8>, m2: map<Id, uint8>, users: set<Id>)
    requires users <= m1.Keys && users <= m2.Keys
    requires forall u :: u in users ==> m1[u] == m2[u]
    ensures SumOver(tiers, m1, users) == SumOver(tiers, m2, users)
    decreases users
  {
    if users != {} {
      var u :| u in users;
      SumOverRemove(tiers, m1, users, u);
      SumOverRemove(tiers, m2, users, u);
      SumOverAgree(tiers, m1, m2, users - {u});
    }
  }

  /** Setting one user's level swaps that user's old stake for the new one in the total. */
  lemma TotalStakedUpdate(tiers: TierTable, m: map<Id, uint8>, u: Id, level: uint8)
    ensures TotalStaked(tiers, m[u := level]) + (if u in m then StakeOf(tiers, m[u]) else 0)
         == TotalStaked(tiers, m) + StakeOf(tiers, level)
  {
    var m' := m[u := level];
    SumOverRemove(tiers, m', m'.Keys, u);
    SumOverAgree(tiers, m', m, m'.Keys - {u});
    if u in m {
      SumOverRemove(tiers, m, m.Keys, u);
      assert m'.Keys - {u} == m.Keys - {u};
    } else {
      assert m'.Keys - {u} == m.Keys;
    }
  }

  /** No single holder's stake exceeds the total. */
  lemma HolderStakeBounded(tiers: TierTable, m: map<Id, uint8>, u: Id)
    requires u in m
    ensures StakeOf(tiers, m[u]) <= TotalStaked(tiers, m)
  {
    SumOverRemove(tiers, m, m.Keys, u);
  }

  /** Adding to a value already reduced modulo 2^64 is adding before reducing. */
  lemma ToUint64AddCongruent(a: int, b: int)
    ensures ToUint64(ToUint64(a) + b) == ToUint64(a + b)
  {
  }
}
