/** The registry's accounting invariants and the properties the registry
    scenarios rely on: the registry always holds enough tokens to return
    every lock and pay every reward it has recorded; each pool's claimable
    reward is what it issued less what its miners claimed; and the
    cumulative-voucher rule pays each increment once. */
module PoolProperties {
  import opened Results
  import opened Sums
  import opened Token
  import opened Curve
  import opened PoolRegistry

  /** What the registry owes each pool's miners and owner. */
  ghost function Liabilities(pools: map<nat, Pool>): map<nat, nat> {
    map id | id in pools :: pools[id].unfinalizedReward + pools[id].finalizedReward
  }

  /** The registry holds at least all locked collateral plus all recorded reward. */
  ghost predicate Solvent(r: Registry) {
    Sum(r.lockedInfinity) + Sum(Liabilities(r.pools)) <= BalanceOf(r.balances, r.self)
  }

  /** For every pool: finalizedReward == totalReward - (sum of claims). */
  ghost predicate LedgerConsistent(r: Registry) {
    forall id :: id in r.pools ==> r.pools[id].finalizedReward + Sum(ClaimsOf(r, id)) == r.pools[id].totalReward
  }

  /** Pool ids are 1, 2, ... below `nextPoolId`; every wallet's recorded
      pool exists and is either its own open pool or closed; every open
      pool is recorded under its owner, who also created it; a recorded
      wallet created the pool it is recorded with; claims exist
      only for real pools;
      a wallet with a recorded pool has exactly `amountToLock` locked, and
      any other wallet nothing. */
  ghost predicate WellFormed(r: Registry) {
    && 1 <= r.nextPoolId
    && (forall id :: id in r.pools ==> 1 <= id < r.nextPoolId)
    && r.claimed.Keys <= r.pools.Keys
    && (forall a :: a in r.poolIdOf ==>
          r.poolIdOf[a] in r.pools && (r.pools[r.poolIdOf[a]].owner == a || r.pools[r.poolIdOf[a]].owner == ZERO))
    && (forall id :: id in r.pools && r.pools[id].owner != ZERO ==>
          r.pools[id].owner in r.poolIdOf && r.poolIdOf[r.pools[id].owner] == id
          && r.pools[id].creator == r.pools[id].owner)
    && (forall a :: a in r.poolIdOf ==> r.pools[r.poolIdOf[a]].creator == a)
    && (forall a :: a in r.poolIdOf ==> Locked(r, a) == r.amountToLock)
    && (forall a :: a in r.lockedInfinity && a !in r.poolIdOf ==> r.lockedInfinity[a] == 0)
  }

  ghost predicate Valid(r: Registry) {
    WellFormed(r) && Solvent(r) && LedgerConsistent(r)
  }

  lemma DeployValid(self: Address, pow: Address, amountToLock: nat, balances: Balances)
    ensures Valid(Deploy(self, pow, amountToLock, balances))
  {
  }

  lemma LiabilitiesUpdate(pools: map<nat, Pool>, id: nat, p: Pool)
    ensures Liabilities(pools[id := p]) == Liabilities(pools)[id := p.unfinalizedReward + p.finalizedReward]
  {
  }

  lemma LiabilityOf(pools: map<nat, Pool>, id: nat)
    requires id in pools
    ensures Get(Liabilities(pools), id) == pools[id].unfinalizedReward + pools[id].finalizedReward
  {
  }

  /** Changing one pool's reward buckets moves the total liability by the change. */
  lemma LiabilitiesShift(pools: map<nat, Pool>, id: nat, p: Pool)
    requires id in pools
    ensures Sum(Liabilities(pools[id := p])) + pools[id].unfinalizedReward + pools[id].finalizedReward
         == Sum(Liabilities(pools)) + p.unfinalizedReward + p.finalizedReward
  {
    LiabilitiesUpdate(pools, id, p);
    LiabilityOf(pools, id);
    SumUpdate(Liabilities(pools), id, p.unfinalizedReward + p.finalizedReward);
  }

  // createPool

  lemma CreatePoolWellFormed(r: Registry, caller: Sender, fee: nat, name: string, url: string, now: nat)
    requires WellFormed(r)
    requires CreatePool(r, caller, fee, name, url, now).Ok?
    ensures WellFormed(CreatePool(r, caller, fee, name, url, now).value)
  {
  }

  lemma CreatePoolSolvent(r: Registry, caller: Sender, fee: nat, name: string, url: string, now: nat)
    requires WellFormed(r) && Solvent(r) && caller != r.self
    requires CreatePool(r, caller, fee, name, url, now).Ok?
    ensures Solvent(CreatePool(r, caller, fee, name, url, now).value)
  {
    var t := CreatePool(r, caller, fee, name, url, now).value;
    var id := r.nextPoolId;
    SumUpdate(r.lockedInfinity, caller, r.amountToLock);
    LiabilitiesUpdate(r.pools, id, t.pools[id]);
    SumUpdate(Liabilities(r.pools), id, 0);
  }

  lemma CreatePoolLedger(r: Registry, caller: Sender, fee: nat, name: string, url: string, now: nat)
    requires WellFormed(r) && LedgerConsistent(r)
    requires CreatePool(r, caller, fee, name, url, now).Ok?
    ensures LedgerConsistent(CreatePool(r, caller, fee, name, url, now).value)
  {
  }

  /** `createPool` keeps the invariants and conserves the token supply. */
  lemma CreatePoolKeepsValid(r: Registry, caller: Sender, fee: nat, name: string, url: string, now: nat)
    requires Valid(r) && caller != r.self
    requires CreatePool(r, caller, fee, name, url, now).Ok?
    ensures Valid(CreatePool(r, caller, fee, name, url, now).value)
    ensures Supply(CreatePool(r, caller, fee, name, url, now).value.balances) == Supply(r.balances)
  {
    CreatePoolWellFormed(r, caller, fee, name, url, now);
    CreatePoolSolvent(r, caller, fee, name, url, now);
    CreatePoolLedger(r, caller, fee, name, url, now);
    TransferConservesSupply(r.balances, caller, r.self, r.amountToLock);
  }

  // updatePool

  lemma UpdatePoolWellFormed(r: Registry, caller: Sender, fee: nat, name: string, url: string)
    requires WellFormed(r)
    requires UpdatePool(r, caller, fee, name, url).Ok?
    ensures WellFormed(UpdatePool(r, caller, fee, name, url).value)
  {
  }

  lemma UpdatePoolSolvent(r: Registry, caller: Sender, fee: nat, name: string, url: string)
    requires Solvent(r)
    requires UpdatePool(r, caller, fee, name, url).Ok?
    ensures Solvent(UpdatePool(r, caller, fee, name, url).value)
  {
    var t := UpdatePool(r, caller, fee, name, url).value;
    var id := r.poolIdOf[caller];
    LiabilitiesShift(r.pools, id, t.pools[id]);
  }

  lemma UpdatePoolLedger(r: Registry, caller: Sender, fee: nat, name: string, url: string)
    requires LedgerConsistent(r)
    requires UpdatePool(r, caller, fee, name, url).Ok?
    ensures LedgerConsistent(UpdatePool(r, caller, fee, name, url).value)
  {
  }

  lemma UpdatePoolKeepsValid(r: Registry, caller: Sender, fee: nat, name: string, url: string)
    requires Valid(r)
    requires UpdatePool(r, caller, fee, name, url).Ok?
    ensures Valid(UpdatePool(r, caller, fee, name, url).value)
  {
    UpdatePoolWellFormed(r, caller, fee, name, url);
    UpdatePoolSolvent(r, caller, fee, name, url);
    UpdatePoolLedger(r, caller, fee, name, url);
  }

  // closePool

  lemma ClosePoolWellFormed(r: Registry, caller: Sender, now: nat)
    requires WellFormed(r)
    requires ClosePool(r, caller, now).Ok?
    ensures WellFormed(ClosePool(r, caller, now).value)
  {
  }

  lemma ClosePoolSolvent(r: Registry, caller: Sender, now: nat)
    requires Solvent(r)
    requires ClosePool(r, caller, now).Ok?
    ensures Solvent(ClosePool(r, caller, now).value)
  {
    var t := ClosePool(r, caller, now).value;
    var id := r.poolIdOf[caller];
    LiabilitiesShift(r.pools, id, t.pools[id]);
  }

  lemma ClosePoolLedger(r: Registry, caller: Sender, now: nat)
    requires LedgerConsistent(r)
    requires ClosePool(r, caller, now).Ok?
    ensures LedgerConsistent(ClosePool(r, caller, now).value)
  {
  }

  lemma ClosePoolKeepsValid(r: Registry, caller: Sender, now: nat)
    requires Valid(r)
    requires ClosePool(r, caller, now).Ok?
    ensures Valid(ClosePool(r, caller, now).value)
  {
    ClosePoolWellFormed(r, caller, now);
    ClosePoolSolvent(r, caller, now);
    ClosePoolLedger(r, caller, now);
  }

  // unlockInfinity

  lemma UnlockInfinityWellFormed(r: Registry, caller: Sender, now: nat)
    requires WellFormed(r)
    requires UnlockInfinity(r, caller, now).Ok?
    ensures WellFormed(UnlockInfinity(r, caller, now).value)
  {
  }

  lemma UnlockInfinitySolvent(r: Registry, caller: Sender, now: nat)
    requires Solvent(r)
    requires UnlockInfinity(r, caller, now).Ok?
    ensures Solvent(UnlockInfinity(r, caller, now).value)
  {
    SumUpdate(r.lockedInfinity, caller, 0);
  }

  lemma UnlockInfinityLedger(r: Registry, caller: Sender, now: nat)
    requires LedgerConsistent(r)
    requires UnlockInfinity(r, caller, now).Ok?
    ensures LedgerConsistent(UnlockInfinity(r, caller, now).value)
  {
  }

  /** `unlockInfinity` keeps the invariants and conserves the token supply. */
  lemma UnlockInfinityKeepsValid(r: Registry, caller: Sender, now: nat)
    requires Valid(r)
    requires UnlockInfinity(r, caller, now).Ok?
    ensures Valid(UnlockInfinity(r, caller, now).value)
    ensures Supply(UnlockInfinity(r, caller, now).value.balances) == Supply(r.balances)
  {
    UnlockInfinityWellFormed(r, caller, now);
    UnlockInfinitySolvent(r, caller, now);
    UnlockInfinityLedger(r, caller, now);
    TransferConservesSupply(r.balances, r.self, caller, Locked(r, caller));
  }

  // _notifyReward

  /** The registry balance after the PoW engine sends `amount` tokens to it. */
  function Funded(r: Registry, from: Address, amount: nat): (t: Registry)
    requires Transfer(r.balances, from, r.self, amount).Ok?
    ensures from != r.self ==> BalanceOf(t.balances, r.self) == BalanceOf(r.balances, r.self) + amount
    ensures t.(balances := r.balances) == r
  {
    r.(balances := Transfer(r.balances, from, r.self, amount).value)
  }

  /** Receiving tokens touches nothing but the balances. */
  lemma FundedKeepsShape(r: Registry, from: Address, amount: nat)
    requires WellFormed(r) && LedgerConsistent(r)
    requires Transfer(r.balances, from, r.self, amount).Ok?
    ensures WellFormed(Funded(r, from, amount)) && LedgerConsistent(Funded(r, from, amount))
  {
  }

  lemma FundedNotifySolvent(r: Registry, from: Address, caller: Sender, poolId: nat, amount: nat)
    requires Solvent(r) && from != r.self
    requires Transfer(r.balances, from, r.self, amount).Ok?
    requires NotifyReward(Funded(r, from, amount), caller, poolId, amount).Ok?
    ensures Solvent(NotifyReward(Funded(r, from, amount), caller, poolId, amount).value)
  {
    var t := NotifyReward(Funded(r, from, amount), caller, poolId, amount).value;
    LiabilitiesShift(r.pools, poolId, t.pools[poolId]);
  }

  lemma NotifyWellFormed(r: Registry, caller: Sender, poolId: nat, amount: nat)
    requires WellFormed(r)
    requires NotifyReward(r, caller, poolId, amount).Ok?
    ensures WellFormed(NotifyReward(r, caller, poolId, amount).value)
  {
  }

  lemma NotifyLedger(r: Registry, caller: Sender, poolId: nat, amount: nat)
    requires LedgerConsistent(r)
    requires NotifyReward(r, caller, poolId, amount).Ok?
    ensures LedgerConsistent(NotifyReward(r, caller, poolId, amount).value)
  {
  }

  /** A reward credit keeps the registry valid when the PoW engine has first
      sent the tokens it credits. */
  lemma FundedNotifyKeepsValid(r: Registry, from: Address, caller: Sender, poolId: nat, amount: nat)
    requires Valid(r) && from != r.self
    requires Transfer(r.balances, from, r.self, amount).Ok?
    requires NotifyReward(Funded(r, from, amount), caller, poolId, amount).Ok?
    ensures Valid(NotifyReward(Funded(r, from, amount), caller, poolId, amount).value)
  {
    FundedNotifySolvent(r, from, caller, poolId, amount);
    var f := Funded(r, from, amount);
    FundedKeepsShape(r, from, amount);
    NotifyWellFormed(f, caller, poolId, amount);
    NotifyLedger(f, caller, poolId, amount);
  }

  // finalizeReward

  lemma FinalizeRewardWellFormed(r: Registry, caller: Sender, submitsCost: nat)
    requires WellFormed(r)
    requires FinalizeReward(r, caller, submitsCost).Ok?
    ensures WellFormed(FinalizeReward(r, caller, submitsCost).value)
  {
  }

  lemma FinalizeRewardSolvent(r: Registry, caller: Sender, submitsCost: nat)
    requires Solvent(r)
    requires FinalizeReward(r, caller, submitsCost).Ok?
    ensures Solvent(FinalizeReward(r, caller, submitsCost).value)
  {
    var t := FinalizeReward(r, caller, submitsCost).value;
    var id := r.poolIdOf[caller];
    LiabilitiesShift(r.pools, id, t.pools[id]);
  }

  lemma FinalizeRewardLedger(r: Registry, caller: Sender, submitsCost: nat)
    requires LedgerConsistent(r)
    requires FinalizeReward(r, caller, submitsCost).Ok?
    ensures LedgerConsistent(FinalizeReward(r, caller, submitsCost).value)
  {
  }

  /** `finalizeReward` keeps the invariants and conserves the token supply. */
  lemma FinalizeRewardKeepsValid(r: Registry, caller: Sender, submitsCost: nat)
    requires Valid(r)
    requires FinalizeReward(r, caller, submitsCost).Ok?
    ensures Valid(FinalizeReward(r, caller, submitsCost).value)
    ensures Supply(FinalizeReward(r, caller, submitsCost).value.balances) == Supply(r.balances)
  {
    FinalizeRewardWellFormed(r, caller, submitsCost);
    FinalizeRewardSolvent(r, caller, submitsCost);
    FinalizeRewardLedger(r, caller, submitsCost);
    FinalizeRewardSupply(r, caller, submitsCost);
  }

  lemma FinalizeRewardSupply(r: Registry, caller: Sender, submitsCost: nat)
    requires FinalizeReward(r, caller, submitsCost).Ok?
    ensures Supply(FinalizeReward(r, caller, submitsCost).value.balances) == Supply(r.balances)
  {
    var p := r.pools[r.poolIdOf[caller]];
    TransferConservesSupply(r.balances, r.self, caller, PoolFee(p.unfinalizedReward - submitsCost, p.fee));
  }

  // claim

  lemma ClaimWellFormed(r: Registry, signedBy: (Address, Voucher, Signature) -> bool,
                        poolId: nat, miner: Address, totalReward: nat, sig: Signature)
    requires WellFormed(r)
    requires Claim(r, signedBy, poolId, miner, totalReward, sig).Ok?
    ensures WellFormed(Claim(r, signedBy, poolId, miner, totalReward, sig).value)
  {
  }

  lemma ClaimSolvent(r: Registry, signedBy: (Address, Voucher, Signature) -> bool,
                     poolId: nat, miner: Address, totalReward: nat, sig: Signature)
    requires Solvent(r)
    requires Claim(r, signedBy, poolId, miner, totalReward, sig).Ok?
    ensures Solvent(Claim(r, signedBy, poolId, miner, totalReward, sig).value)
  {
    var t := Claim(r, signedBy, poolId, miner, totalReward, sig).value;
    LiabilitiesShift(r.pools, poolId, t.pools[poolId]);
  }

  lemma ClaimLedger(r: Registry, signedBy: (Address, Voucher, Signature) -> bool,
                    poolId: nat, miner: Address, totalReward: nat, sig: Signature)
    requires LedgerConsistent(r)
    requires Claim(r, signedBy, poolId, miner, totalReward, sig).Ok?
    ensures LedgerConsistent(Claim(r, signedBy, poolId, miner, totalReward, sig).value)
  {
    var t := Claim(r, signedBy, poolId, miner, totalReward, sig).value;
    SumUpdate(ClaimsOf(r, poolId), miner, totalReward);
    assert ClaimsOf(t, poolId) == ClaimsOf(r, poolId)[miner := totalReward];
    assert forall j :: j in t.pools && j != poolId ==> ClaimsOf(t, j) == ClaimsOf(r, j);
  }

  /** `claim` keeps the invariants and conserves the token supply. */
  lemma ClaimKeepsValid(r: Registry, signedBy: (Address, Voucher, Signature) -> bool,
                        poolId: nat, miner: Address, totalReward: nat, sig: Signature)
    requires Valid(r)
    requires Claim(r, signedBy, poolId, miner, totalReward, sig).Ok?
    ensures Valid(Claim(r, signedBy, poolId, miner, totalReward, sig).value)
    ensures Supply(Claim(r, signedBy, poolId, miner, totalReward, sig).value.balances) == Supply(r.balances)
  {
    ClaimWellFormed(r, signedBy, poolId, miner, totalReward, sig);
    ClaimSolvent(r, signedBy, poolId, miner, totalReward, sig);
    ClaimLedger(r, signedBy, poolId, miner, totalReward, sig);
    ClaimSupply(r, signedBy, poolId, miner, totalReward, sig);
  }

  lemma ClaimSupply(r: Registry, signedBy: (Address, Voucher, Signature) -> bool,
                    poolId: nat, miner: Address, totalReward: nat, sig: Signature)
    requires Claim(r, signedBy, poolId, miner, totalReward, sig).Ok?
    ensures Supply(Claim(r, signedBy, poolId, miner, totalReward, sig).value.balances) == Supply(r.balances)
  {
    TransferConservesSupply(r.balances, r.self, miner, totalReward - Claimed(r, poolId, miner));
  }

  // consequences

  /** In a valid registry a wallet's lock is never more than the registry holds. */
  lemma LockCovered(r: Registry, a: Address)
    requires Solvent(r)
    ensures Locked(r, a) <= BalanceOf(r.balances, r.self)
  {
    EntryBelowSum(r.lockedInfinity, a);
  }

  /** So the unlock of a closed pool's collateral, once due, always goes through. */
  lemma UnlockAlwaysPays(r: Registry, caller: Sender, now: nat)
    requires Valid(r)
    requires caller in r.poolIdOf && r.pools[r.poolIdOf[caller]].owner == ZERO
    requires r.pools[r.poolIdOf[caller]].lastSubmit + UNLOCK_DELAY <= now
    ensures UnlockInfinity(r, caller, now).Ok?
  {
    LockCovered(r, caller);
  }

  /** A miner's claims from a pool never add up past what the pool issued. */
  lemma ClaimedBelowIssued(r: Registry, id: nat, miner: Address)
    requires LedgerConsistent(r) && id in r.pools
    ensures Claimed(r, id, miner) <= r.pools[id].totalReward
  {
    EntryBelowSum(ClaimsOf(r, id), miner);
  }

  /** The claimable bucket of a pool is always backed by the registry's tokens. */
  lemma FinalizedCovered(r: Registry, id: nat)
    requires Solvent(r) && id in r.pools
    ensures r.pools[id].finalizedReward <= BalanceOf(r.balances, r.self)
  {
    LiabilityOf(r.pools, id);
    EntryBelowSum(Liabilities(r.pools), id);
  }

  /** In a valid registry, a wallet with a recorded pool can always finalize
      it -- open or closed, whenever the reward was credited -- as long as
      the submission cost does not exceed the unfinalized reward. */
  lemma FinalizeAlwaysPays(r: Registry, caller: Sender, submitsCost: nat)
    requires Valid(r) && caller in r.poolIdOf
    requires submitsCost <= r.pools[r.poolIdOf[caller]].unfinalizedReward
    ensures FinalizeReward(r, caller, submitsCost).Ok?
  {
    var id := r.poolIdOf[caller];
    LiabilityOf(r.pools, id);
    EntryBelowSum(Liabilities(r.pools), id);
  }

  /** A correctly signed voucher for more than was claimed, within the
      claimable bucket, is always paid. */
  lemma ClaimAlwaysPays(r: Registry, signedBy: (Address, Voucher, Signature) -> bool,
                        poolId: nat, miner: Address, totalReward: nat, sig: Signature)
    requires Valid(r) && poolId in r.pools
    requires signedBy(r.pools[poolId].creator, Voucher(poolId, miner, totalReward), sig)
    requires miner != ZERO
    requires Claimed(r, poolId, miner) < totalReward <= Claimed(r, poolId, miner) + r.pools[poolId].finalizedReward
    ensures Claim(r, signedBy, poolId, miner, totalReward, sig).Ok?
  {
    FinalizedCovered(r, poolId);
  }

  /** The cumulative-voucher rule: after redeeming a voucher for T1, a
      voucher for T2 pays exactly T2 - T1, and no voucher for T2 <= T1 --
      the same one replayed, or an older one -- pays anything. */
  lemma CumulativeVoucher(r: Registry, signedBy: (Address, Voucher, Signature) -> bool,
                          poolId: nat, miner: Address, t1: nat, sig1: Signature, t2: nat, sig2: Signature)
    requires Claim(r, signedBy, poolId, miner, t1, sig1).Ok?
    requires miner != r.self
    ensures var r1 := Claim(r, signedBy, poolId, miner, t1, sig1).value;
      var second := Claim(r1, signedBy, poolId, miner, t2, sig2);
      && (second.Ok? ==>
            && t1 < t2
            && BalanceOf(second.value.balances, miner) == BalanceOf(r1.balances, miner) + (t2 - t1))
      && (t2 <= t1 && signedBy(r.pools[poolId].creator, Voucher(poolId, miner, t2), sig2) ==>
            second == Err(NothingToClaim))
  {
  }

  /** `createPool` never overwrites live collateral: the wallet it locks for
      had nothing locked. */
  lemma CreateNeverOverwritesLock(r: Registry, caller: Sender, fee: nat, name: string, url: string, now: nat)
    requires WellFormed(r)
    requires CreatePool(r, caller, fee, name, url, now).Ok?
    ensures Locked(r, caller) == 0
  {
  }

  /** A due unlock in a valid registry pays back exactly `amountToLock`. */
  lemma UnlockReturnsAmountToLock(r: Registry, caller: Sender, now: nat)
    requires Valid(r) && caller != r.self
    requires caller in r.poolIdOf && r.pools[r.poolIdOf[caller]].owner == ZERO
    requires r.pools[r.poolIdOf[caller]].lastSubmit + UNLOCK_DELAY <= now
    ensures UnlockInfinity(r, caller, now).Ok?
    ensures BalanceOf(UnlockInfinity(r, caller, now).value.balances, caller)
         == BalanceOf(r.balances, caller) + r.amountToLock
  {
    UnlockAlwaysPays(r, caller, now);
  }

  /** Closing a pool strands nothing it has already made claimable: a
      voucher signed by the wallet that opened the pool pays after the close
      exactly as it would have before. */
  lemma ClosedPoolStillPays(r: Registry, signedBy: (Address, Voucher, Signature) -> bool,
                            owner: Sender, miner: Address, totalReward: nat, sig: Signature, now: nat)
    requires Valid(r) && OwnsOpenPool(r, owner) && miner != ZERO
    requires signedBy(owner, Voucher(r.poolIdOf[owner], miner, totalReward), sig)
    requires Claimed(r, r.poolIdOf[owner], miner) < totalReward
          <= Claimed(r, r.poolIdOf[owner], miner) + r.pools[r.poolIdOf[owner]].finalizedReward
    ensures ClosePool(r, owner, now).Ok?
    ensures Claim(ClosePool(r, owner, now).value, signedBy, r.poolIdOf[owner], miner, totalReward, sig).Ok?
  {
    var k := ClosePool(r, owner, now).value;
    ClosePoolKeepsValid(r, owner, now);
    var id := r.poolIdOf[owner];
    assert k.claimed == r.claimed && k.pools[id].creator == owner;
    assert k.pools[id].finalizedReward == r.pools[id].finalizedReward;
    ClaimAlwaysPays(k, signedBy, id, miner, totalReward, sig);
  }

  /** Nor does it strand the reward the pool held when it was closed: the
      wallet that opened the pool can still finalize it.  Reward credited
      after the close is covered by `FinalizeAlwaysPays`. */
  lemma ClosedPoolStillFinalizes(r: Registry, owner: Sender, submitsCost: nat, now: nat)
    requires Valid(r) && OwnsOpenPool(r, owner)
    requires submitsCost <= r.pools[r.poolIdOf[owner]].unfinalizedReward
    ensures ClosePool(r, owner, now).Ok?
    ensures FinalizeReward(ClosePool(r, owner, now).value, owner, submitsCost).Ok?
  {
    var k := ClosePool(r, owner, now).value;
    ClosePoolKeepsValid(r, owner, now);
    var id := r.poolIdOf[owner];
    LiabilityOf(k.pools, id);
    EntryBelowSum(Liabilities(k.pools), id);
  }
}
