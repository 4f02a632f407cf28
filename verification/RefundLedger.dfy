/** The refund ledger: what the router owes to users whose payments it could not deliver. */
module RefundLedger {
  import opened ByteOrder
  import opened Fees
  import opened MapSum
  import opened TokenLedger
  import opened Wrappers

  type Refunds = map<(Address, Token), int>

  function RefundOf(r: Refunds, user: Address, token: Token): int {
    Get(r, (user, token))
  }

  /** Adds to a refund balance; an overflow traps. */
  function Credit(r: Refunds, user: Address, token: Token, amount: int): Option<Refunds> {
    var sum := RefundOf(r, user, token) + amount;
    if InI128(sum) then Some(r[(user, token) := sum]) else None
  }

  /** Takes from a refund balance and drops the entry once nothing is left. */
  function Debit(r: Refunds, user: Address, token: Token, amount: int): Refunds {
    var left := RefundOf(r, user, token) - amount;
    if left > 0 then r[(user, token) := left] else r - {(user, token)}
  }

  function OfToken(r: Refunds, token: Token): Refunds {
    map k | k in r && k.1 == token :: r[k]
  }

  /** Everything owed in a token, over all users. */
  ghost function Owed(r: Refunds, token: Token): int {
    Sum(OfToken(r, token))
  }

  ghost predicate AllPositive(r: Refunds) {
    forall k :: k in r ==> r[k] > 0
  }

  lemma OwedAfterSet(r: Refunds, user: Address, token: Token, value: int, t: Token)
    ensures Owed(r[(user, token) := value], t) ==
            Owed(r, t) + if t == token then value - RefundOf(r, user, token) else 0
  {
    var k := (user, token);
    if t == token {
      assert OfToken(r[k := value], t) == OfToken(r, t)[k := value];
      SumUpdate(OfToken(r, t), k, value);
    } else {
      assert OfToken(r[k := value], t) == OfToken(r, t);
    }
  }

  lemma OwedAfterDrop(r: Refunds, user: Address, token: Token, t: Token)
    ensures Owed(r - {(user, token)}, t) ==
            Owed(r, t) - if t == token then RefundOf(r, user, token) else 0
  {
    var k := (user, token);
    if t == token {
      assert OfToken(r - {k}, t) == OfToken(r, t) - {k};
      SumDelete(OfToken(r, t), k);
    } else {
      assert OfToken(r - {k}, t) == OfToken(r, t);
    }
  }

  /** A withdrawal of no more than the refund lowers what is owed by exactly that amount. */
  lemma OwedAfterDebit(r: Refunds, user: Address, token: Token, amount: int, t: Token)
    requires amount <= RefundOf(r, user, token)
    ensures Owed(Debit(r, user, token, amount), t) == Owed(r, t) - if t == token then amount else 0
  {
    var left := RefundOf(r, user, token) - amount;
    if left > 0 {
      OwedAfterSet(r, user, token, left, t);
    } else {
      OwedAfterDrop(r, user, token, t);
    }
  }

  /** No single refund exceeds what is owed in its token. */
  lemma OwedCoversEach(r: Refunds, user: Address, token: Token)
    requires AllPositive(r)
    ensures 0 <= RefundOf(r, user, token) <= Owed(r, token)
  {
    assert RefundOf(r, user, token) == Get(OfToken(r, token), (user, token));
    SumBoundsEntries(OfToken(r, token), (user, token));
  }
}
