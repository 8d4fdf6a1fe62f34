/** The INFINITY token both contracts pay in, reduced to a balance ledger:
    a standard fungible token whose `transfer` moves an amount from one
    account to another and reverts when the sender holds too little or the
    receiver is the zero address.  Allowances are not modelled. */
module Token {
  import opened Results
  import opened Sums

  /** One more than the largest 20-byte address. */
  const ADDRESS_BOUND: nat := 0x1_0000000000000000000000000000000000000000

  /** A 20-byte account address, read as an unsigned integer. */
  type Address = a: nat | a < ADDRESS_BOUND

  /** The zero address: never a message sender, and the owner of a closed pool. */
  const ZERO: Address := 0

  /** An address that can send a transaction (never the zero address). */
  type Sender = a: Address | a != ZERO witness 1

  type Balances = map<Address, nat>

  datatype TokenError =
    | InsufficientBalance
    | InvalidReceiver

  function BalanceOf(b: Balances, a: Address): nat {
    Get(b, a)
  }

  /** The token's total supply: the sum of every balance. */
  ghost function Supply(b: Balances): nat {
    Sum(b)
  }

  /** `transfer(to, amount)` sent by `from` (or a `transferFrom` on its behalf). */
  function Transfer(b: Balances, from: Address, to: Address, amount: nat): (r: Result<Balances, TokenError>)
    ensures r.Err? <==> to == ZERO || BalanceOf(b, from) < amount
    ensures r.Ok? && from != to ==>
      && BalanceOf(r.value, from) + amount == BalanceOf(b, from)
      && BalanceOf(r.value, to) == BalanceOf(b, to) + amount
    ensures r.Ok? ==> forall a :: a != from && a != to ==> BalanceOf(r.value, a) == BalanceOf(b, a)
    ensures r.Ok? && from == to ==> BalanceOf(r.value, from) == BalanceOf(b, from)
  {
    if to == ZERO then Err(InvalidReceiver)
    else if BalanceOf(b, from) < amount then Err(InsufficientBalance)
    else if from == to then Ok(b)
    else
      var debited := b[from := BalanceOf(b, from) - amount];
      Ok(debited[to := BalanceOf(debited, to) + amount])
  }

  /** A transfer creates and destroys nothing: the total supply is unchanged. */
  lemma TransferConservesSupply(b: Balances, from: Address, to: Address, amount: nat)
    requires Transfer(b, from, to, amount).Ok?
    ensures Supply(Transfer(b, from, to, amount).value) == Supply(b)
  {
    if from != to {
      var debited := b[from := BalanceOf(b, from) - amount];
      SumUpdate(b, from, BalanceOf(b, from) - amount);
      SumUpdate(debited, to, BalanceOf(debited, to) + amount);
    }
  }
}
