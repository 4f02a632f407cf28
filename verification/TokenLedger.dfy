/** The balances that token contracts keep for their holders, and what other contracts may
    do to them. A token moves out of an account only with that account's authorization. */
module TokenLedger {
  import opened ByteOrder
  import opened MapSum

  type Token = Address

  type Balances = map<(Token, Address), int>

  function Balance(b: Balances, token: Token, account: Address): int {
    Get(b, (token, account))
  }

  predicate NoDebt(b: Balances) {
    forall k | k in b :: b[k] >= 0
  }

  /** Moves `amount` tokens; a transfer to oneself changes nothing. */
  function Move(b: Balances, token: Token, from: Address, to: Address, amount: int): Balances {
    var debited := b[(token, from) := Balance(b, token, from) - amount];
    debited[(token, to) := Balance(debited, token, to) + amount]
  }

  /** What contracts called by `account` may do to the balances without its authorization:
      anything but take tokens away from it. */
  predicate Unauthorized(account: Address, before: Balances, after: Balances) {
    && NoDebt(after)
    && forall k | k in before && k.1 == account :: Get(after, k) >= before[k]
  }

  lemma UnauthorizedKeepsBalance(account: Address, before: Balances, after: Balances, token: Token)
    requires Unauthorized(account, before, after)
    ensures Balance(after, token, account) >= Balance(before, token, account)
  {
    assert (token, account) in before ==> Get(after, (token, account)) >= before[(token, account)];
  }

  lemma MoveBalance(b: Balances, token: Token, from: Address, to: Address, amount: int, t: Token, a: Address)
    ensures Balance(Move(b, token, from, to, amount), t, a) ==
            Balance(b, t, a)
            - (if t == token && a == from then amount else 0)
            + (if t == token && a == to then amount else 0)
  {
  }

  lemma MoveKeepsNoDebt(b: Balances, token: Token, from: Address, to: Address, amount: nat)
    requires NoDebt(b) && amount <= Balance(b, token, from)
    ensures NoDebt(Move(b, token, from, to, amount))
  {
  }
}
