# 8finity PoW and PoolRegistry — a Dafny model

This project models the two contracts of the 8finity protocol whose
behaviour the repository's Hardhat suite pins down:

* **PoW** — the proof-of-work engine. A miner searches for a private key B such
  that the address of pubKey(A) + pubKey(B) XOR `0x8888…8888` is below
  `difficulty`, A being the engine's public `privateKeyA`. The miner then signs
  (recipient, data) with the combined key (A + B) mod n and calls `submit`. An
  accepted submission pays `reward` INFINITY tokens to the recipient, its point
  B is marked spent, and it is counted. Every 100th accepted submission rotates
  the puzzle: new `privateKeyA`, new `difficulty`, `problemNonce + 1`.
* **PoolRegistry** — mining pools. A wallet locks `amountToLock` tokens to open
  a pool. It may update the pool's fee, name and url, and close it; seven days
  after closing it takes its collateral back. The PoW engine credits rewards to a
  pool (`_notifyReward`). The owner finalizes them: a submission cost is
  deducted, a fee in basis points is paid to the owner, and the rest becomes
  claimable. Miners redeem cumulative vouchers signed by the wallet that opened
  the pool (`claim`); each redemption pays only the increase over what that
  miner already claimed.

Every contract call is a pure function from a state record to
`Result<state, error>` (`Ok` or a typed revert). A reverted call therefore has
no effect. The INFINITY token is a balance map (`Token`); its total supply is
the sum of all balances.

Files:
* `results.dfy` — `Result`.
* `sums.dfy` — sums over maps.
* `bits.dfy` — XOR on naturals.
* `token.dfy` — the token ledger.
* `curve.dfy` — the uninterpreted secp256k1 interface.
* `pow.dfy` and `pow_properties.dfy` — the engine and its properties.
* `pool_registry.dfy`, `pool_properties.dfy` and `pool_scenarios.dfy` — the
  registry, its invariants and the two test scenarios.

Two things are kept abstract:
* The curve operations, signature recovery, key rotation, difficulty adjustment
  and reward schedule are function-valued fields of `Curve` and `PoW.Oracle`.
* Block timestamps are parameters (`now`).

## Model

| member | source | states |
|---|---|---|
| Token.Transfer | test/PoolRegistry.ts:38-39 | a transfer reverts exactly when the receiver is the zero address or the sender holds too little; otherwise the sender loses and the receiver gains exactly the amount, and every other balance is unchanged |
| Token.TransferConservesSupply | test/PoolRegistry.ts:49-50 | a transfer leaves the total supply unchanged |
| Curve.CombineKeys | test/PoW.ts:53 | the combined key is a + b reduced once modulo the secp256k1 order n, so it lies below n |
| PoW.StartMining | test/PoW.ts:38 | only the admin can switch mining on, and only once; it sets `reward` to the initial reward and changes nothing else |
| PoW.Submit | test/PoW.ts:56-81 | a submission is accepted iff mining is on, its point B has not been paid before, pointB is on the curve, (address XOR MAGIC) < difficulty, the signature recovers to that address, and the engine can pay. Acceptance pays the recipient exactly the pre-call `reward`, marks point B spent and adds 1 to `numSubmissions`. Reaching a multiple of 100 rotates key, difficulty and `problemNonce`; otherwise puzzle and reward are unchanged. A submission whose point B is spent reverts with `AlreadySubmitted`, whatever its signature |
| PoW.Step | test/PoW.ts:76-81 | a transaction adds at most one to the count, never unmarks a spent point, and a reverted one leaves the state identical |
| PoW.Run | test/PoW.ts:49-82 | over any sequence of transactions the count grows by at most the number of transactions and the spent set only grows |
| Bits.XorInvolutive | test/PoW.ts:56 | XOR with a fixed mask undoes itself: (a XOR m) XOR m == a, so masking an address with MAGIC is a bijection |
| PoWProperties.AcceptedAddresses | test/PoW.ts:56 | the proof-of-work comparison `PoW.MeetsDifficulty`, (address XOR MAGIC) < difficulty, accepts exactly the addresses v XOR MAGIC for v below the difficulty |
| PoWProperties.OffChainSearchDecidesSubmit | test/PoW.ts:50-74 | given the curve hypothesis, for a candidate key b sent as pubKey(b) with every other check passed, `submit` succeeds iff the address of the combined key (A + b) mod n meets the difficulty and the signature recovers to that address — the miner's off-chain test decides acceptance |
| PoWProperties.ReplayRejected | test/PoW.ts:76-81 | resubmitting an accepted submission reverts with `AlreadySubmitted` and leaves the state unchanged |
| PoWProperties.ResignedPointRejected | test/PoW.ts:76-81 | once a point is paid, a submission with that point under any other signature, recipient or data reverts with `AlreadySubmitted` |
| PoWProperties.NeverPaidTwice | test/PoW.ts:68-81 | after a solution is paid, no later transaction with the same point, after any sequence of transactions, is accepted |
| PoWProperties.StartMiningKeepsEpochConsistent | test/PoW.ts:38 | starting mining keeps `problemNonce == numSubmissions / 100` |
| PoWProperties.StepKeepsEpochConsistent | test/PoW.ts:84 | every transaction keeps `problemNonce == numSubmissions / 100` |
| PoWProperties.RunEpochs | test/PoW.ts:47-86 | over any run: the epoch invariant holds and the nonce never decreases. While the nonce stands still, key, difficulty and reward are fixed. After exactly one rotation the key has moved and the difficulty is not the old one halved, given the two premises on the supplied rules |
| PoWProperties.MiningScenario | test/PoW.ts:43-87 | from a started engine with no submissions: below 100 accepted submissions the puzzle read before mining is still live; at exactly 100, `problemNonce == 1`, the key has changed and the difficulty is not the halved old one |
| PoWProperties.StaleReadStillAccepted | test/PoW.ts:47-74 | within the first epoch, a fresh solution valid against the key and difficulty read before the loop is accepted and pays the current reward |
| PoolRegistry.CreatePool | test/PoolRegistry.ts:41-61 | a wallet that already has a pool gets `PoolAlreadyCreated`. Otherwise creation succeeds iff the fee is at most 10000 and the wallet can pay `amountToLock`. The pool gets id `nextPoolId`, is recorded under its owner with the caller as owner and creator, the given fee, name and url and empty reward buckets, and the lock equals `amountToLock`. Exactly `amountToLock` moves from the wallet to the registry. Other pools, other wallets' pool ids and locks, the claim ledger and third parties' balances are unchanged |
| PoolRegistry.UpdatePool | test/PoolRegistry.ts:63-70 | only the owner of an open pool can update it; fee, name and url are replaced and nothing else in the registry changes |
| PoolRegistry.ClosePool | test/PoolRegistry.ts:72-75 | only the owner of an open pool can close it; its owner becomes zero, `lastSubmit` becomes the closing time, and nothing else changes — no other field of the pool, no other pool, no other registry field |
| PoolRegistry.UnlockInfinity | test/PoolRegistry.ts:77-80 | for a closed pool, unlocking fails with `LockNotExpired` iff it comes less than 7 days after closing. A successful unlock returns exactly the locked amount to the locker, zeroes the lock and lets the wallet open a new pool. Pools, `nextPoolId`, the claim ledger, other wallets' pool ids and locks, and third parties' balances are unchanged |
| PoolRegistry.NotifyReward | test/PoolRegistry.ts:98-106 | only the PoW engine can credit an existing pool; the credit is added to `unfinalizedReward` alone; every other pool and every other registry field is unchanged |
| PoolRegistry.PoolFee | test/PoolRegistry.ts:109-111 | the owner's fee is net × fee / 10000 rounded down, never more than net |
| PoolRegistry.FinalizeReward | test/PoolRegistry.ts:108-120 | finalizing succeeds iff the caller has a recorded pool, the cost is at most its unfinalized reward and the registry can pay the fee; a cost above the unfinalized reward reverts with `InsufficientReward`. On success: fee + miners' share == unfinalized − cost; the calling wallet that opened the pool, closed or not, is paid exactly the fee; `unfinalizedReward` becomes 0; `finalizedReward` and `totalReward` both grow by the miners' share; nothing else changes — other pools and third parties' balances included |
| PoolRegistry.Claim | test/PoolRegistry.ts:122-144 | a claim needs the wallet that created the pool to have signed (poolId, miner, totalReward), whether or not the pool is still open, and with such a signature it reverts with `NothingToClaim` iff `totalReward` is not above what the miner already claimed, and with `InsufficientFinalizedReward` iff the increase exceeds `finalizedReward`. A successful claim pays the miner exactly the increase, lowers `finalizedReward` by it, records `totalReward` as claimed, and leaves other ledgers and buckets unchanged; other pools and third parties' balances are unchanged too |
| PoolProperties.CreatePoolKeepsValid | test/PoolRegistry.ts:49-52 | creating a pool keeps the registry solvent, its claim ledger consistent and its records well formed, and conserves the token supply |
| PoolProperties.UpdatePoolKeepsValid | test/PoolRegistry.ts:63-70 | updating a pool keeps the registry's invariants |
| PoolProperties.ClosePoolKeepsValid | test/PoolRegistry.ts:72-75 | closing a pool keeps the registry's invariants |
| PoolProperties.UnlockInfinityKeepsValid | test/PoolRegistry.ts:77-80 | unlocking keeps the invariants and conserves the token supply |
| PoolProperties.FundedNotifyKeepsValid | test/PoolRegistry.ts:100-101 | a reward credit that follows the transfer of the credited tokens keeps the invariants |
| PoolProperties.FinalizeRewardKeepsValid | test/PoolRegistry.ts:113-120 | finalizing keeps the invariants and conserves the token supply |
| PoolProperties.ClaimKeepsValid | test/PoolRegistry.ts:138-144 | a claim keeps the invariants (`finalizedReward == totalReward − sum of claims` for every pool) and conserves the token supply |
| PoolProperties.UnlockAlwaysPays | test/PoolRegistry.ts:77-80 | in a valid registry, unlocking a closed pool's collateral once the delay has passed always succeeds |
| PoolProperties.ClaimAlwaysPays | test/PoolRegistry.ts:138-139 | in a valid registry, a correctly signed voucher for more than was claimed, within the claimable bucket, is always paid |
| PoolProperties.FinalizeAlwaysPays | test/PoolRegistry.ts:113-115 | in a valid registry, a wallet with a recorded pool, open or closed, can always finalize it with a cost up to its unfinalized reward |
| PoolProperties.UnlockReturnsAmountToLock | test/PoolRegistry.ts:77-80 | in a valid registry, a due unlock of a closed pool returns exactly `amountToLock` to the wallet |
| PoolProperties.CreateNeverOverwritesLock | test/PoolRegistry.ts:49-55 | in a well-formed registry, `createPool` only succeeds for a wallet with nothing locked, so it never overwrites live collateral |
| PoolProperties.ClosedPoolStillPays | test/PoolRegistry.ts:72-75 | closing a pool does not strand its claimable reward: a voucher its creator signed that would pay before the close still pays after it |
| PoolProperties.ClosedPoolStillFinalizes | test/PoolRegistry.ts:72-75 | closing a pool does not strand its unfinalized reward: the wallet that opened it can still finalize it |
| PoolProperties.ClaimedBelowIssued | test/PoolRegistry.ts:141-144 | what a miner has claimed from a pool never exceeds the pool's `totalReward` |
| PoolProperties.CumulativeVoucher | test/PoolRegistry.ts:122-139 | after redeeming a voucher for T1, a later claim for T2 succeeds only when T2 > T1 and then pays exactly T2 − T1; a creator-signed voucher for T2 ≤ T1 reverts with `NothingToClaim` |
| PoolScenarios.PoolLifecycle | test/PoolRegistry.ts:35-81 | the first pool gets id 1 with the given record, and `amountToLock` moves into the registry. A second create reverts, update replaces the metadata, and close zeroes the owner and stamps the time. Unlock reverts one second before 7 days and succeeds at 7 days + 1 s, returning the creator's balance to its value before the pool |
| PoolScenarios.RewardPipeline | test/PoolRegistry.ts:83-145 | with fee 5000 the buckets start at 0. Crediting 100 fills only `unfinalizedReward`; finalizing with cost 10 pays the owner 45 and sets finalized = total = 45. A first voucher for 35 pays 35 and leaves finalized 10, total 45, unfinalized 0 |

## Left out

- Curve arithmetic: public-key derivation, point addition and address derivation are supplied functions. That adding public keys adds private keys mod n (`Curve.Homomorphic`) is a hypothesis of the lemmas that need it, not a proof.
- Keccak-256 hashing, ECDSA signing and recovery, and EIP-712 typed-data hashing are supplied predicates. `signedBy(addr, message, sig)` stands for "recovery yields addr".
- The key search loop of the mining test: it is a random search run by the client, not contract behaviour.
- The key-rotation entropy, the difficulty-adjustment formula and the reward schedule are supplied functions. "The key changes" and "the new difficulty is not a halving" are premises (`KeyRotationMoves`, `NotAHalving`).
- Proxy deployment, `initialize`/`initialize2` and the test's injection of token code and storage are set-up. `PoolRegistry.Deploy` gives the registry's initial state; the engine's initial state is any record.
- Token allowances (`approve`/`transferFrom` limits): a `createPool` transfer succeeds whenever the balance suffices.
- Events: their payloads appear as the fields of the resulting state.
- Native-coin and gas accounting.
- 256-bit overflow: amounts are unbounded naturals. Solidity 0.8 would revert on an addition past 2^256 − 1; the subtractions that could underflow are modelled as typed errors, or excluded by the `Fee` range.
- Routing a PoW reward to a pool through `_notifyReward` inside `submit` is not modelled. `Submit` pays the recipient directly, as in the mining test. `PoolProperties.Funded` models the token transfer that precedes a credit.
- Where one call fails several checks, the tests do not say which error wins. The order of the checks in each function is a modelling choice.

Two facts of the mining test that the model keeps:
- `numSubmissions` is never reset at rotation. The mining test polls `numSubmissions < 100` (test/PoW.ts:49) and expects the loop to stop after the rotation (test/PoW.ts:84), so the count keeps growing and rotation fires whenever it reaches a multiple of 100.
- The combined key is (A + B) mod n, n being the curve order (test/PoW.ts:53).

Choices where the tests are silent:
- A closed pool stays recorded under its creator until `unlockInfinity`. Only then can that wallet open a new pool.
- `finalizeReward` finds the caller's pool through that record, so a closed pool can still be finalized.
- A pool remembers the wallet that created it (`creator`), which keeps signing its vouchers after the close zeroes `owner`. Reward credited to a closed pool can therefore still be finalized and claimed.
- A point B, once paid, is spent for good: the spent set is keyed by the point alone, so the same solution re-signed for another recipient, other data or a malleated signature is refused.
- After `unlockInfinity`, `finalizeReward` can no longer find the old pool, so reward still unfinalized in it stays in the registry.
- The submission cost stays in the registry.
- `lastSubmit` is also stamped when the pool is created.
- A fee above 10000 basis points is refused at creation and update.
