/** The pool registry.  A wallet locks `amountToLock` tokens to open a pool
    (one pool per wallet), may update its fee, name and url, and closes it;
    seven days after closing the wallet can take its collateral back.  The
    PoW engine credits block rewards to a pool's `unfinalizedReward`; the
    pool owner finalizes them -- an off-chain submission cost is deducted,
    the owner's fee paid out, and the rest becomes `finalizedReward`,
    claimable by miners -- and miners redeem vouchers the pool's creator signs for
    their cumulative entitlement `totalReward`, each claim paying only the
    increase over what that miner already claimed. */
module PoolRegistry {
  import opened Results
  import opened Sums
  import opened Token
  import opened Curve

  /** Fees are in basis points out of 10000. */
  const FEE_DENOMINATOR: nat := 10000

  /** How long collateral stays locked after a pool is closed: 7 days, in seconds. */
  const UNLOCK_DELAY: nat := 7 * 24 * 60 * 60

  type Fee = f: nat | f <= FEE_DENOMINATOR

  /** A pool record.  `owner` is ZERO once the pool is closed, while
      `creator` keeps the wallet that opened it: the wallet whose signature
      vouchers must carry.  `lastSubmit` is stamped when the pool is opened
      and when it is closed. */
  datatype Pool = Pool(
    owner: Address,
    creator: Address,
    fee: Fee,
    name: string,
    url: string,
    lastSubmit: nat,
    unfinalizedReward: nat,
    finalizedReward: nat,
    totalReward: nat)

  /** The EIP-712 `Claim(poolId, miner, totalReward)` a pool's creator signs. */
  datatype Voucher = Voucher(poolId: nat, miner: Address, totalReward: nat)

  datatype Registry = Registry(
    self: Address,
    pow: Address,
    amountToLock: nat,
    nextPoolId: nat,
    pools: map<nat, Pool>,
    poolIdOf: map<Address, nat>,
    lockedInfinity: map<Address, nat>,
    claimed: map<nat, map<Address, nat>>,
    balances: Balances)

  datatype RegistryError =
    | PoolAlreadyCreated
    | InvalidFee
    | NotPoolOwner
    | NoPool
    | PoolNotClosed
    | LockNotExpired
    | NotPoW
    | PoolNotFound
    | InsufficientReward
    | InvalidSignature
    | NothingToClaim
    | InsufficientFinalizedReward
    | TransferFailed(reason: TokenError)

  /** A freshly deployed registry: no pools, ids start at 1. */
  function Deploy(self: Address, pow: Address, amountToLock: nat, balances: Balances): (r: Registry)
    ensures r.nextPoolId == 1 && r.pools == map[] && r.poolIdOf == map[]
    ensures Sum(r.lockedInfinity) == 0 && r.claimed == map[]
  {
    Registry(self, pow, amountToLock, 1, map[], map[], map[], map[], balances)
  }

  /** `lockedInfinity(a)`. */
  function Locked(r: Registry, a: Address): nat {
    Get(r.lockedInfinity, a)
  }

  /** What `miner` has claimed from pool `id` so far (the highest voucher redeemed). */
  function ClaimsOf(r: Registry, id: nat): map<Address, nat> {
    if id in r.claimed then r.claimed[id] else map[]
  }

  function Claimed(r: Registry, id: nat, miner: Address): nat {
    Get(ClaimsOf(r, id), miner)
  }

  /** True when `a` opened a pool that is still open. */
  predicate OwnsOpenPool(r: Registry, a: Address) {
    a in r.poolIdOf && r.poolIdOf[a] in r.pools && r.pools[r.poolIdOf[a]].owner == a
  }

  /** `createPool(fee, name, url)` sent by `caller` at time `now`. */
  function CreatePool(r: Registry, caller: Sender, fee: nat, name: string, url: string, now: nat)
    : (res: Result<Registry, RegistryError>)
    ensures caller in r.poolIdOf ==> res == Err(PoolAlreadyCreated)
    ensures res.Ok? <==>
      && caller !in r.poolIdOf
      && fee <= FEE_DENOMINATOR
      && Transfer(r.balances, caller, r.self, r.amountToLock).Ok?
    ensures res.Ok? ==>
      var t := res.value;
      && t.nextPoolId == r.nextPoolId + 1
      && caller in t.poolIdOf && t.poolIdOf[caller] == r.nextPoolId
      && r.nextPoolId in t.pools && t.pools[r.nextPoolId] == Pool(caller, caller, fee, name, url, now, 0, 0, 0)
      && OwnsOpenPool(t, caller)
      && Locked(t, caller) == r.amountToLock
      && (caller != r.self ==>
            && BalanceOf(t.balances, caller) + r.amountToLock == BalanceOf(r.balances, caller)
            && BalanceOf(t.balances, r.self) == BalanceOf(r.balances, r.self) + r.amountToLock)
    ensures res.Ok? ==>
      var t := res.value;
      && t.pools.Keys == r.pools.Keys + {r.nextPoolId}
      && (forall j :: j in r.pools && j != r.nextPoolId ==> t.pools[j] == r.pools[j])
      && (forall a :: a != caller ==>
            && (a in t.poolIdOf <==> a in r.poolIdOf)
            && (a in r.poolIdOf ==> t.poolIdOf[a] == r.poolIdOf[a])
            && Locked(t, a) == Locked(r, a))
      && (forall a :: a != caller && a != r.self ==> BalanceOf(t.balances, a) == BalanceOf(r.balances, a))
      && t.(nextPoolId := r.nextPoolId, pools := r.pools, poolIdOf := r.poolIdOf,
            lockedInfinity := r.lockedInfinity, balances := r.balances) == r
  {
    if caller in r.poolIdOf then Err(PoolAlreadyCreated)
    else if fee > FEE_DENOMINATOR then Err(InvalidFee)
    else
      match Transfer(r.balances, caller, r.self, r.amountToLock)
      case Err(e) => Err(TransferFailed(e))
      case Ok(b) =>
        var id := r.nextPoolId;
        Ok(r.(nextPoolId := id + 1,
              pools := r.pools[id := Pool(caller, caller, fee, name, url, now, 0, 0, 0)],
              poolIdOf := r.poolIdOf[caller := id],
              lockedInfinity := r.lockedInfinity[caller := r.amountToLock],
              balances := b))
  }

  /** `updatePool(fee, name, url)`: the owner of an open pool replaces its
      fee, name and url. */
  function UpdatePool(r: Registry, caller: Sender, fee: nat, name: string, url: string)
    : (res: Result<Registry, RegistryError>)
    ensures res.Ok? <==> OwnsOpenPool(r, caller) && fee <= FEE_DENOMINATOR
    ensures res.Ok? ==> res.value.pools.Keys == r.pools.Keys
    ensures res.Ok? ==>
      var id := r.poolIdOf[caller];
      var p := res.value.pools[id];
      && p.fee == fee && p.name == name && p.url == url
      && p.(fee := r.pools[id].fee, name := r.pools[id].name, url := r.pools[id].url) == r.pools[id]
      && res.value.(pools := r.pools) == r
      && (forall j :: j in r.pools && j != id ==> res.value.pools[j] == r.pools[j])
  {
    if !OwnsOpenPool(r, caller) then Err(NotPoolOwner)
    else if fee > FEE_DENOMINATOR then Err(InvalidFee)
    else
      var id := r.poolIdOf[caller];
      Ok(r.(pools := r.pools[id := r.pools[id].(fee := fee, name := name, url := url)]))
  }

  /** `closePool()`: the owner gives the pool up; its owner becomes ZERO
      and its `lastSubmit` the closing time, which starts the unlock delay. */
  function ClosePool(r: Registry, caller: Sender, now: nat): (res: Result<Registry, RegistryError>)
    ensures res.Ok? <==> OwnsOpenPool(r, caller)
    ensures res.Ok? ==> res.value.pools.Keys == r.pools.Keys
    ensures res.Ok? ==>
      var id := r.poolIdOf[caller];
      && res.value.pools[id].owner == ZERO
      && res.value.pools[id].lastSubmit == now
      && res.value.pools[id].(owner := caller, lastSubmit := r.pools[id].lastSubmit) == r.pools[id]
      && !OwnsOpenPool(res.value, caller)
      && res.value.(pools := r.pools) == r
      && (forall j :: j in r.pools && j != id ==> res.value.pools[j] == r.pools[j])
  {
    if !OwnsOpenPool(r, caller) then Err(NotPoolOwner)
    else
      var id := r.poolIdOf[caller];
      Ok(r.(pools := r.pools[id := r.pools[id].(owner := ZERO, lastSubmit := now)]))
  }

  /** `unlockInfinity()`: the wallet that opened a pool takes back its
      collateral once the pool is closed and UNLOCK_DELAY has passed since
      it was closed; the wallet may then open a new pool. */
  function UnlockInfinity(r: Registry, caller: Sender, now: nat): (res: Result<Registry, RegistryError>)
    ensures caller in r.poolIdOf && r.poolIdOf[caller] in r.pools && r.pools[r.poolIdOf[caller]].owner == ZERO ==>
      (res == Err(LockNotExpired) <==> now < r.pools[r.poolIdOf[caller]].lastSubmit + UNLOCK_DELAY)
    ensures res.Ok? ==>
      && caller in r.poolIdOf && r.poolIdOf[caller] in r.pools
      && r.pools[r.poolIdOf[caller]].owner == ZERO
      && r.pools[r.poolIdOf[caller]].lastSubmit + UNLOCK_DELAY <= now
    ensures res.Ok? ==>
      var t := res.value;
      && Locked(t, caller) == 0
      && caller !in t.poolIdOf
      && t.pools == r.pools
      && (caller != r.self ==>
            && BalanceOf(t.balances, caller) == BalanceOf(r.balances, caller) + Locked(r, caller)
            && BalanceOf(t.balances, r.self) + Locked(r, caller) == BalanceOf(r.balances, r.self))
      && (forall a :: a != caller ==>
            && (a in t.poolIdOf <==> a in r.poolIdOf)
            && (a in r.poolIdOf ==> t.poolIdOf[a] == r.poolIdOf[a])
            && Locked(t, a) == Locked(r, a))
      && (forall a :: a != caller && a != r.self ==> BalanceOf(t.balances, a) == BalanceOf(r.balances, a))
      && t.(poolIdOf := r.poolIdOf, lockedInfinity := r.lockedInfinity, balances := r.balances) == r
  {
    if caller !in r.poolIdOf || r.poolIdOf[caller] !in r.pools then Err(NoPool)
    else
      var p := r.pools[r.poolIdOf[caller]];
      if p.owner != ZERO then Err(PoolNotClosed)
      else if now < p.lastSubmit + UNLOCK_DELAY then Err(LockNotExpired)
      else
        match Transfer(r.balances, r.self, caller, Locked(r, caller))
        case Err(e) => Err(TransferFailed(e))
        case Ok(b) =>
          Ok(r.(lockedInfinity := r.lockedInfinity[caller := 0],
                poolIdOf := r.poolIdOf - {caller},
                balances := b))
  }

  /** `_notifyReward(poolId, amount)`: only the PoW engine may credit a
      pool, and the credit lands in `unfinalizedReward` alone.  A closed
      pool can still be credited. */
  function NotifyReward(r: Registry, caller: Sender, poolId: nat, amount: nat): (res: Result<Registry, RegistryError>)
    ensures res.Ok? <==> caller == r.pow && poolId in r.pools
    ensures res.Ok? ==> res.value.pools.Keys == r.pools.Keys
    ensures res.Ok? ==>
      var p := res.value.pools[poolId];
      && p.unfinalizedReward == r.pools[poolId].unfinalizedReward + amount
      && p.(unfinalizedReward := r.pools[poolId].unfinalizedReward) == r.pools[poolId]
      && res.value.(pools := r.pools) == r
      && (forall j :: j in r.pools && j != poolId ==> res.value.pools[j] == r.pools[j])
  {
    if caller != r.pow then Err(NotPoW)
    else if poolId !in r.pools then Err(PoolNotFound)
    else
      var p := r.pools[poolId];
      Ok(r.(pools := r.pools[poolId := p.(unfinalizedReward := p.unfinalizedReward + amount)]))
  }

  /** The owner's cut of `net` at `fee` basis points, rounded down. */
  function PoolFee(net: nat, fee: Fee): (poolFee: nat)
    ensures poolFee <= net
    ensures poolFee * FEE_DENOMINATOR <= net * fee < (poolFee + 1) * FEE_DENOMINATOR
  {
    net * fee / FEE_DENOMINATOR
  }

  /** `finalizeReward(submitsCost)`: the pool's unfinalized reward, less the
      submission cost, is split into the owner's fee, paid at once to the
      calling wallet that opened the pool (closed or not), and the
      miners' share, which becomes claimable.  The cost stays with the
      registry. */
  function FinalizeReward(r: Registry, caller: Sender, submitsCost: nat): (res: Result<Registry, RegistryError>)
    ensures res.Ok? ==>
      && caller in r.poolIdOf && r.poolIdOf[caller] in r.pools
      && submitsCost <= r.pools[r.poolIdOf[caller]].unfinalizedReward
    ensures res.Ok? ==> res.value.pools.Keys == r.pools.Keys
    ensures res.Ok? <==>
      && caller in r.poolIdOf && r.poolIdOf[caller] in r.pools
      && submitsCost <= r.pools[r.poolIdOf[caller]].unfinalizedReward
      && var p := r.pools[r.poolIdOf[caller]];
         Transfer(r.balances, r.self, caller, PoolFee(p.unfinalizedReward - submitsCost, p.fee)).Ok?
    ensures caller in r.poolIdOf && r.poolIdOf[caller] in r.pools ==>
      (res == Err(InsufficientReward) <==> submitsCost > r.pools[r.poolIdOf[caller]].unfinalizedReward)
    ensures res.Ok? ==>
      var id := r.poolIdOf[caller];
      var before := r.pools[id];
      var after := res.value.pools[id];
      var net := before.unfinalizedReward - submitsCost;
      var minersShare := after.finalizedReward - before.finalizedReward;
      && after.unfinalizedReward == 0
      && after.finalizedReward >= before.finalizedReward
      && after.totalReward == before.totalReward + minersShare
      && PoolFee(net, before.fee) + minersShare == net
      && after.(unfinalizedReward := before.unfinalizedReward,
                finalizedReward := before.finalizedReward,
                totalReward := before.totalReward) == before
      && (caller != r.self ==>
            && BalanceOf(res.value.balances, caller) == BalanceOf(r.balances, caller) + PoolFee(net, before.fee)
            && BalanceOf(res.value.balances, r.self) + PoolFee(net, before.fee) == BalanceOf(r.balances, r.self))
      && res.value.(pools := r.pools, balances := r.balances) == r
      && (forall j :: j in r.pools && j != id ==> res.value.pools[j] == r.pools[j])
      && (forall a :: a != caller && a != r.self ==> BalanceOf(res.value.balances, a) == BalanceOf(r.balances, a))
  {
    if caller !in r.poolIdOf || r.poolIdOf[caller] !in r.pools then Err(NoPool)
    else
      var id := r.poolIdOf[caller];
      var p := r.pools[id];
      if submitsCost > p.unfinalizedReward then Err(InsufficientReward)
      else
        var net := p.unfinalizedReward - submitsCost;
        var poolFee := PoolFee(net, p.fee);
        var minersShare := net - poolFee;
        match Transfer(r.balances, r.self, caller, poolFee)
        case Err(e) => Err(TransferFailed(e))
        case Ok(b) =>
          Ok(r.(pools := r.pools[id := p.(unfinalizedReward := 0,
                                          finalizedReward := p.finalizedReward + minersShare,
                                          totalReward := p.totalReward + minersShare)],
                balances := b))
  }

  /** `claim(poolId, miner, totalReward, signature)`: redeems a voucher the
      pool's creator signed for `miner`'s cumulative entitlement -- also
      after the pool is closed, so that reward credited to it can still
      reach its miners.  Only the increase over what the miner already
      claimed is paid, so an old or replayed voucher pays nothing. */
  function Claim(r: Registry, signedBy: (Address, Voucher, Signature) -> bool,
                 poolId: nat, miner: Address, totalReward: nat, sig: Signature)
    : (res: Result<Registry, RegistryError>)
    ensures res.Ok? ==>
      && poolId in r.pools
      && signedBy(r.pools[poolId].creator, Voucher(poolId, miner, totalReward), sig)
    ensures (poolId in r.pools && signedBy(r.pools[poolId].creator, Voucher(poolId, miner, totalReward), sig)) ==>
      && (res == Err(NothingToClaim) <==> totalReward <= Claimed(r, poolId, miner))
      && (res == Err(InsufficientFinalizedReward) <==>
            && Claimed(r, poolId, miner) < totalReward
            && r.pools[poolId].finalizedReward < totalReward - Claimed(r, poolId, miner))
    ensures res.Ok? ==>
      var delta := totalReward - Claimed(r, poolId, miner);
      var t := res.value;
      && Claimed(r, poolId, miner) < totalReward
      && Claimed(t, poolId, miner) == totalReward
      && poolId in t.pools
      && t.pools[poolId].finalizedReward + delta == r.pools[poolId].finalizedReward
      && t.pools[poolId].(finalizedReward := r.pools[poolId].finalizedReward) == r.pools[poolId]
      && (forall m :: m != miner ==> Claimed(t, poolId, m) == Claimed(r, poolId, m))
      && (forall j, m :: j != poolId ==> Claimed(t, j, m) == Claimed(r, j, m))
      && (miner != r.self ==>
            && BalanceOf(t.balances, miner) == BalanceOf(r.balances, miner) + delta
            && BalanceOf(t.balances, r.self) + delta == BalanceOf(r.balances, r.self))
      && t.(pools := r.pools, claimed := r.claimed, balances := r.balances) == r
      && t.pools.Keys == r.pools.Keys
      && (forall j :: j in r.pools && j != poolId ==> t.pools[j] == r.pools[j])
      && (forall a :: a != miner && a != r.self ==> BalanceOf(t.balances, a) == BalanceOf(r.balances, a))
  {
    if poolId !in r.pools then Err(PoolNotFound)
    else
      var p := r.pools[poolId];
      if !signedBy(p.creator, Voucher(poolId, miner, totalReward), sig) then Err(InvalidSignature)
      else
        var already := Claimed(r, poolId, miner);
        if totalReward <= already then Err(NothingToClaim)
        else
          var delta := totalReward - already;
          if delta > p.finalizedReward then Err(InsufficientFinalizedReward)
          else
            match Transfer(r.balances, r.self, miner, delta)
            case Err(e) => Err(TransferFailed(e))
            case Ok(b) =>
              Ok(r.(pools := r.pools[poolId := p.(finalizedReward := p.finalizedReward - delta)],
                    claimed := r.claimed[poolId := ClaimsOf(r, poolId)[miner := totalReward]],
                    balances := b))
  }
}
