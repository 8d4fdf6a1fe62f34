/** The proof-of-work engine.  A miner looks for a private key B such that
    the address of pubKey(A) + pubKey(B) -- A being the engine's current,
    publicly readable `privateKeyA` -- XORed with MAGIC falls below
    `difficulty`, then signs (recipient, data) with the combined key.  An
    accepted submission pays `reward` tokens to the recipient, its point B
    is marked spent so that no later submission with that point -- under
    any signature, recipient or data -- is paid again, and it is counted.
    Every 100th accepted submission rotates the puzzle (new key A, new
    difficulty, next `problemNonce`).  Curve arithmetic, signature recovery, the key
    derivation, the difficulty adjustment and the reward schedule are
    supplied in an `Oracle`. */
module PoW {
  import opened Results
  import opened Token
  import opened Curve
  import opened Bits

  /** The mask every solution address is XORed with before the comparison. */
  const MAGIC: Address := 0x8888888888888888888888888888888888888888

  /** Accepted submissions per puzzle. */
  const EPOCH_LENGTH: nat := 100

  /** What the combined key signs: keccak256(abi.encodePacked(recipient, data)). */
  datatype Message = Message(recipient: Address, data: seq<bv8>)

  /** The arguments of `submit(recipient, pointB, signature, data)`. */
  datatype Submission = Submission(recipient: Address, pointB: Point, signature: Signature, data: seq<bv8>) {
    function Signed(): Message {
      Message(recipient, data)
    }
  }

  /** The computations `submit` delegates to code outside this model.
      `signedBy(addr, m, sig)` holds when ECDSA recovery of the signed
      message hash of `m` from `sig` yields `addr`.  The three rotation
      rules see the value being replaced, the epoch that ends and the block
      timestamp; the reward rule sees the engine's remaining balance. */
  datatype Oracle = Oracle(
    curve: Curve,
    signedBy: (Address, Message, Signature) -> bool,
    nextKey: (Scalar, nat, nat) -> Scalar,
    nextDifficulty: (nat, nat, nat) -> nat,
    nextReward: (nat, nat) -> nat)

  datatype PowState = PowState(
    admin: Address,
    self: Address,
    miningActive: bool,
    privateKeyA: Scalar,
    difficulty: nat,
    problemNonce: nat,
    numSubmissions: nat,
    reward: nat,
    spent: set<Point>,
    balances: Balances)

  datatype PowError =
    | NotAdmin
    | AlreadyStarted
    | MiningNotStarted
    | AlreadySubmitted
    | InvalidPoint
    | DifficultyNotMet
    | InvalidSignature
    | TransferFailed(reason: TokenError)

  /** The address of the combined point pubKey(A) + B. */
  function SolutionAddress(c: Curve, keyA: Scalar, pointB: Point): Address {
    c.addressOf(c.add(c.publicKey(keyA), pointB))
  }

  /** The proof-of-work condition: (addr XOR MAGIC) < difficulty. */
  predicate MeetsDifficulty(addr: Address, difficulty: nat) {
    Xor(addr, MAGIC) < difficulty
  }

  /** Everything `submit` checks about the solution itself. */
  predicate ValidSolution(o: Oracle, s: PowState, sub: Submission) {
    var addr := SolutionAddress(o.curve, s.privateKeyA, sub.pointB);
    && o.curve.onCurve(sub.pointB)
    && MeetsDifficulty(addr, s.difficulty)
    && o.signedBy(addr, sub.Signed(), sub.signature)
  }

  /** `startMining(initialReward)`: the one-time, admin-only switch. */
  function StartMining(s: PowState, caller: Sender, initialReward: nat): (r: Result<PowState, PowError>)
    ensures r.Ok? <==> caller == s.admin && !s.miningActive
    ensures r.Ok? ==> r.value.miningActive && r.value.reward == initialReward
    ensures r.Ok? ==> r.value.(miningActive := s.miningActive, reward := s.reward) == s
  {
    if caller != s.admin then Err(NotAdmin)
    else if s.miningActive then Err(AlreadyStarted)
    else Ok(s.(miningActive := true, reward := initialReward))
  }

  /** The puzzle switch at the end of an epoch. */
  function Rotate(o: Oracle, s: PowState, now: nat): PowState {
    s.(privateKeyA := o.nextKey(s.privateKeyA, s.problemNonce, now),
       difficulty := o.nextDifficulty(s.difficulty, s.problemNonce, now),
       reward := o.nextReward(s.reward, BalanceOf(s.balances, s.self)),
       problemNonce := s.problemNonce + 1)
  }

  /** `submit(recipient, pointB, signature, data)` in a block with timestamp `now`. */
  function Submit(o: Oracle, s: PowState, sub: Submission, now: nat): (r: Result<PowState, PowError>)
    ensures r.Ok? <==>
      && s.miningActive
      && sub.pointB !in s.spent
      && ValidSolution(o, s, sub)
      && sub.recipient != ZERO
      && s.reward <= BalanceOf(s.balances, s.self)
    ensures s.miningActive && sub.pointB in s.spent ==> r == Err(AlreadySubmitted)
    ensures r.Ok? ==>
      var t := r.value;
      && t.spent == s.spent + {sub.pointB}
      && t.numSubmissions == s.numSubmissions + 1
      && (sub.recipient != s.self ==>
            && BalanceOf(t.balances, sub.recipient) == BalanceOf(s.balances, sub.recipient) + s.reward
            && BalanceOf(t.balances, s.self) + s.reward == BalanceOf(s.balances, s.self))
      && (forall a :: a != sub.recipient && a != s.self ==> BalanceOf(t.balances, a) == BalanceOf(s.balances, a))
      && t.admin == s.admin && t.self == s.self && t.miningActive
    ensures r.Ok? ==>
      var t := r.value;
      if t.numSubmissions % EPOCH_LENGTH == 0 then
        && t.problemNonce == s.problemNonce + 1
        && t.privateKeyA == o.nextKey(s.privateKeyA, s.problemNonce, now)
        && t.difficulty == o.nextDifficulty(s.difficulty, s.problemNonce, now)
      else
        && t.problemNonce == s.problemNonce
        && t.privateKeyA == s.privateKeyA
        && t.difficulty == s.difficulty
        && t.reward == s.reward
  {
    if !s.miningActive then Err(MiningNotStarted)
    else if sub.pointB in s.spent then Err(AlreadySubmitted)
    else if !o.curve.onCurve(sub.pointB) then Err(InvalidPoint)
    else
      var addr := SolutionAddress(o.curve, s.privateKeyA, sub.pointB);
      if !MeetsDifficulty(addr, s.difficulty) then Err(DifficultyNotMet)
      else if !o.signedBy(addr, sub.Signed(), sub.signature) then Err(InvalidSignature)
      else
        match Transfer(s.balances, s.self, sub.recipient, s.reward)
        case Err(e) => Err(TransferFailed(e))
        case Ok(paid) =>
          var counted := s.(balances := paid,
                            spent := s.spent + {sub.pointB},
                            numSubmissions := s.numSubmissions + 1);
          if counted.numSubmissions % EPOCH_LENGTH == 0 then Ok(Rotate(o, counted, now))
          else Ok(counted)
  }

  /** One transaction: a reverted submission leaves the state as it was. */
  datatype Call = Call(sub: Submission, now: nat)

  function Step(o: Oracle, s: PowState, c: Call): (t: PowState)
    ensures t.numSubmissions == s.numSubmissions || t.numSubmissions == s.numSubmissions + 1
    ensures s.spent <= t.spent
    ensures t.numSubmissions == s.numSubmissions ==> t == s
  {
    match Submit(o, s, c.sub, c.now)
    case Ok(t) => t
    case Err(_) => s
  }

  /** A sequence of transactions, each applied atomically. */
  function Run(o: Oracle, s: PowState, calls: seq<Call>): (t: PowState)
    ensures s.numSubmissions <= t.numSubmissions <= s.numSubmissions + |calls|
    ensures s.spent <= t.spent
    decreases |calls|
  {
    if calls == [] then s
    else Run(o, Step(o, s, calls[0]), calls[1..])
  }
}
