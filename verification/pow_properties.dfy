/** What the mining scenario promises about the engine: the acceptance
    condition, exactly-once payment, and the epoch bookkeeping that keeps a
    puzzle fixed for 100 accepted submissions and then rotates it. */
module PoWProperties {
  import opened Results
  import opened Token
  import opened Curve
  import opened PoW
  import opened Bits

  /** The addresses that meet a difficulty are exactly v XOR MAGIC for the
      values v below it. */
  lemma AcceptedAddresses(a: Address, v: nat, difficulty: nat)
    requires a == Xor(v, MAGIC)
    ensures MeetsDifficulty(a, difficulty) <==> v < difficulty
  {
    XorInvolutive(v, MAGIC);
  }

  /** The miner's off-chain search decides acceptance: for a candidate
      private key b, with pubKey(b) sent as the point, `submit` succeeds
      exactly when the address of the combined key (A + b) mod n meets the
      difficulty and the signature recovers to that address -- all other
      checks being passed. */
  lemma OffChainSearchDecidesSubmit(o: Oracle, s: PowState, b: Scalar, sub: Submission, now: nat)
    requires Homomorphic(o.curve)
    requires CombineKeys(s.privateKeyA, b) != 0
    requires sub.pointB == o.curve.publicKey(b) && o.curve.onCurve(sub.pointB)
    requires s.miningActive && sub.pointB !in s.spent
    requires sub.recipient != ZERO && s.reward <= BalanceOf(s.balances, s.self)
    ensures var addr := o.curve.addressOf(o.curve.publicKey(CombineKeys(s.privateKeyA, b)));
      Submit(o, s, sub, now).Ok? <==>
        MeetsDifficulty(addr, s.difficulty) && o.signedBy(addr, sub.Signed(), sub.signature)
  {
  }

  /** Resubmitting an accepted solution reverts, and the revert changes nothing. */
  lemma ReplayRejected(o: Oracle, s: PowState, sub: Submission, now: nat, later: nat)
    requires Submit(o, s, sub, now).Ok?
    ensures Submit(o, Submit(o, s, sub, now).value, sub, later) == Err(AlreadySubmitted)
    ensures Step(o, Submit(o, s, sub, now).value, Call(sub, later)) == Submit(o, s, sub, now).value
  {
  }

  /** Re-signing an accepted point -- for another recipient or other data --
      does not earn a second reward. */
  lemma ResignedPointRejected(o: Oracle, s: PowState, sub: Submission, other: Submission, now: nat, later: nat)
    requires Submit(o, s, sub, now).Ok?
    requires other.pointB == sub.pointB
    ensures Submit(o, Submit(o, s, sub, now).value, other, later) == Err(AlreadySubmitted)
  {
  }

  /** Once a solution has been paid, no later transaction with the same
      point is ever accepted, whatever its signature, recipient or data. */
  lemma NeverPaidTwice(o: Oracle, s: PowState, sub: Submission, now: nat, calls: seq<Call>, i: nat)
    requires Submit(o, s, sub, now).Ok?
    requires i < |calls| && calls[i].sub.pointB == sub.pointB
    ensures Submit(o, Run(o, Submit(o, s, sub, now).value, calls[..i]), calls[i].sub, calls[i].now).Err?
  {
  }

  /** The epoch counter is the number of completed epochs: `numSubmissions`
      is never reset, and `problemNonce` counts its multiples of 100. */
  ghost predicate EpochConsistent(s: PowState) {
    s.problemNonce == s.numSubmissions / EPOCH_LENGTH
  }

  lemma StartMiningKeepsEpochConsistent(s: PowState, caller: Sender, initialReward: nat)
    requires EpochConsistent(s)
    requires StartMining(s, caller, initialReward).Ok?
    ensures EpochConsistent(StartMining(s, caller, initialReward).value)
  {
  }

  lemma StepKeepsEpochConsistent(o: Oracle, s: PowState, c: Call)
    requires EpochConsistent(s)
    ensures EpochConsistent(Step(o, s, c))
  {
  }

  /** Premise about the supplied key derivation: it never hands back the key it replaces. */
  ghost predicate KeyRotationMoves(o: Oracle) {
    forall k: Scalar, e: nat, t: nat :: o.nextKey(k, e, t) != k
  }

  /** Premise about the supplied difficulty rule: it is never a plain halving. */
  ghost predicate NotAHalving(o: Oracle) {
    forall d: nat, e: nat, t: nat :: o.nextDifficulty(d, e, t) != d / 2
  }

  /** Over any sequence of transactions: the epoch counter stays consistent
      and never decreases; while it stands still the key, the difficulty and
      the reward stay fixed; and when it advances by one, the key has moved
      and the difficulty is not the halved old one (given those premises). */
  lemma {:induction false} RunEpochs(o: Oracle, s: PowState, calls: seq<Call>)
    requires EpochConsistent(s)
    ensures var t := Run(o, s, calls);
      && EpochConsistent(t)
      && s.problemNonce <= t.problemNonce
      && (t.problemNonce == s.problemNonce ==>
            t.privateKeyA == s.privateKeyA && t.difficulty == s.difficulty && t.reward == s.reward)
      && (t.problemNonce == s.problemNonce + 1 && KeyRotationMoves(o) ==> t.privateKeyA != s.privateKeyA)
      && (t.problemNonce == s.problemNonce + 1 && NotAHalving(o) ==> t.difficulty != s.difficulty / 2)
    decreases |calls|
  {
    if calls != [] {
      var s1 := Step(o, s, calls[0]);
      StepKeepsEpochConsistent(o, s, calls[0]);
      RunEpochs(o, s1, calls[1..]);
    }
  }

  /** The mining scenario: from a started engine with no submissions yet,
      whatever transactions are sent, while fewer than 100 have been
      accepted the puzzle read before the first one is still the live one;
      when the 100th has been accepted, `problemNonce` is 1 and the puzzle
      has rotated.  Since each transaction adds at most one to the count, a
      client polling `numSubmissions < 100` stops exactly at 100. */
  lemma MiningScenario(o: Oracle, s: PowState, calls: seq<Call>)
    requires s.numSubmissions == 0 && s.problemNonce == 0
    ensures var t := Run(o, s, calls);
      && (t.numSubmissions < EPOCH_LENGTH ==>
            t.problemNonce == 0 && t.privateKeyA == s.privateKeyA && t.difficulty == s.difficulty)
      && (t.numSubmissions == EPOCH_LENGTH ==> t.problemNonce == 1)
      && (t.numSubmissions == EPOCH_LENGTH && KeyRotationMoves(o) ==> t.privateKeyA != s.privateKeyA)
      && (t.numSubmissions == EPOCH_LENGTH && NotAHalving(o) ==> t.difficulty != s.difficulty / 2)
  {
    RunEpochs(o, s, calls);
  }

  /** Inside the first epoch, a solution found against the key and
      difficulty read before mining began is accepted, and pays the
      current reward. */
  lemma StaleReadStillAccepted(o: Oracle, s: PowState, calls: seq<Call>, sub: Submission, now: nat)
    requires s.numSubmissions == 0 && s.problemNonce == 0 && s.miningActive
    requires Run(o, s, calls).numSubmissions < EPOCH_LENGTH
    requires ValidSolution(o, s, sub)
    requires sub.pointB !in Run(o, s, calls).spent
    requires sub.recipient != ZERO && sub.recipient != s.self
    requires Run(o, s, calls).reward <= BalanceOf(Run(o, s, calls).balances, s.self)
    ensures Submit(o, Run(o, s, calls), sub, now).Ok?
    ensures BalanceOf(Submit(o, Run(o, s, calls), sub, now).value.balances, sub.recipient)
         == BalanceOf(Run(o, s, calls).balances, sub.recipient) + Run(o, s, calls).reward
  {
    RunEpochs(o, s, calls);
    RunKeepsIdentity(o, s, calls);
  }

  /** Transactions never change who administers the engine, its address or
      the mining switch once it is on. */
  lemma {:induction false} RunKeepsIdentity(o: Oracle, s: PowState, calls: seq<Call>)
    ensures Run(o, s, calls).self == s.self
    ensures Run(o, s, calls).admin == s.admin
    ensures s.miningActive ==> Run(o, s, calls).miningActive
    decreases |calls|
  {
    if calls != [] {
      RunKeepsIdentity(o, Step(o, s, calls[0]), calls[1..]);
    }
  }
}
