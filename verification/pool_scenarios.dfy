/** The two registry scenarios, stated for every starting registry that
    meets their set-up: a pool's life from creation to the return of its
    collateral, and a reward's way from the PoW engine to a miner. */
module PoolScenarios {
  import opened Results
  import opened Token
  import opened Curve
  import opened PoolRegistry
  import opened PoolProperties

  /** createPool -> updatePool -> closePool -> unlockInfinity. */
  lemma PoolLifecycle(r: Registry, poolOwner: Sender, openedAt: nat, closedAt: nat)
    requires r.nextPoolId == 1 && poolOwner !in r.poolIdOf
    requires poolOwner != r.self && r.self != ZERO
    requires r.amountToLock <= BalanceOf(r.balances, poolOwner)
    ensures var c := CreatePool(r, poolOwner, 50, "Test Pool", "127.0.0.1:1234", openedAt);
      && c.Ok?
      && c.value.poolIdOf[poolOwner] == 1
      && c.value.pools[1] == Pool(poolOwner, poolOwner, 50, "Test Pool", "127.0.0.1:1234", openedAt, 0, 0, 0)
      && Locked(c.value, poolOwner) == r.amountToLock
      && BalanceOf(c.value.balances, poolOwner) + r.amountToLock == BalanceOf(r.balances, poolOwner)
      && BalanceOf(c.value.balances, r.self) == BalanceOf(r.balances, r.self) + r.amountToLock
      && CreatePool(c.value, poolOwner, 0, "", "", openedAt) == Err(PoolAlreadyCreated)
      && var u := UpdatePool(c.value, poolOwner, 51, "Test Pool2", "127.0.0.1:4321");
      && u.Ok?
      && u.value.pools[1] == Pool(poolOwner, poolOwner, 51, "Test Pool2", "127.0.0.1:4321", openedAt, 0, 0, 0)
      && var k := ClosePool(u.value, poolOwner, closedAt);
      && k.Ok?
      && k.value.pools[1].owner == ZERO && k.value.pools[1].lastSubmit == closedAt
      && UnlockInfinity(k.value, poolOwner, closedAt + UNLOCK_DELAY - 1) == Err(LockNotExpired)
      && var x := UnlockInfinity(k.value, poolOwner, closedAt + UNLOCK_DELAY + 1);
      && x.Ok?
      && BalanceOf(x.value.balances, poolOwner) == BalanceOf(k.value.balances, poolOwner) + r.amountToLock
      && BalanceOf(x.value.balances, poolOwner) == BalanceOf(r.balances, poolOwner)
  {
  }

  /** _notifyReward -> finalizeReward -> claim, with a 50% fee: 100 credited,
      10 deducted as submission cost, 45 to the owner, 45 claimable, and a
      first voucher for 35 pays 35 and leaves 10 claimable. */
  lemma RewardPipeline(r: Registry, poolOwner: Sender, funder: Address, pow: Sender, miner: Address,
                       signedBy: (Address, Voucher, Signature) -> bool, sig: Signature, now: nat)
    requires r.nextPoolId !in r.pools && poolOwner !in r.poolIdOf && !(r.nextPoolId in r.claimed)
    requires r.self != ZERO && pow == r.pow
    requires poolOwner != r.self && funder != r.self && funder != poolOwner
    requires miner != ZERO && miner != r.self && miner != poolOwner
    requires r.amountToLock <= BalanceOf(r.balances, poolOwner) && 100 <= BalanceOf(r.balances, funder)
    requires signedBy(poolOwner, Voucher(r.nextPoolId, miner, 35), sig)
    ensures var id := r.nextPoolId;
      var c := CreatePool(r, poolOwner, 5000, "", "", now);
      && c.Ok?
      && c.value.pools[id].unfinalizedReward == 0 && c.value.pools[id].finalizedReward == 0 && c.value.pools[id].totalReward == 0
      && Transfer(c.value.balances, funder, r.self, 100).Ok?
      && var n := NotifyReward(Funded(c.value, funder, 100), pow, id, 100);
      && n.Ok?
      && n.value.pools[id].unfinalizedReward == 100 && n.value.pools[id].finalizedReward == 0 && n.value.pools[id].totalReward == 0
      && var f := FinalizeReward(n.value, poolOwner, 10);
      && f.Ok?
      && BalanceOf(f.value.balances, poolOwner) == BalanceOf(n.value.balances, poolOwner) + 45
      && f.value.pools[id].unfinalizedReward == 0 && f.value.pools[id].finalizedReward == 45 && f.value.pools[id].totalReward == 45
      && var m := Claim(f.value, signedBy, id, miner, 35, sig);
      && m.Ok?
      && BalanceOf(m.value.balances, miner) == BalanceOf(f.value.balances, miner) + 35
      && m.value.pools[id].unfinalizedReward == 0 && m.value.pools[id].finalizedReward == 10 && m.value.pools[id].totalReward == 45
  {
  }
}
