/** The flash loan provider: a utilization-dependent fee, rounded up, and a lock against
    loans taken out while another one is running. */
module FlashLoan {
  import opened ByteOrder
  import opened TokenLedger
  import opened Wrappers

  const I128_MAX: int := 0x7FFF_FFFF_FFFF_FFFF_FFFF_FFFF_FFFF_FFFF
  const BASE_FEE_BPS := 5
  const KINK_FEE_BPS := 10
  const MAX_FEE_BPS := 50
  const KINK_UTILIZATION_BPS := 8_000
  const BPS_DIVISOR := 10_000

  datatype Error =
    | InvalidAmount | InsufficientLiquidity | ArithmeticOverflow | RepaymentTooLow | ReentrancyGuard
    | NotAuthorized | Trapped

  // ---------- the fee ----------

  function CeilDiv(n: nat, d: nat): nat
    requires d > 0
  {
    (n + d - 1) / d
  }

  function CalculateAmountFee(amount: int, feeBps: nat): Result<int, Error> {
    if amount <= 0 then Err(InvalidAmount)
    else if amount * feeBps + BPS_DIVISOR - 1 > I128_MAX then Err(ArithmeticOverflow)
    else Ok(CeilDiv(amount * feeBps, BPS_DIVISOR))
  }

  /** The base fee that older clients still quote. */
  function FlashFee(amount: int): Result<int, Error> {
    CalculateAmountFee(amount, BASE_FEE_BPS)
  }

  /** Share of the reserves that a loan takes, in basis points and rounded up. */
  function Utilization(amount: nat, reserves: nat): nat
    requires reserves > 0
  {
    CeilDiv(amount * BPS_DIVISOR, reserves)
  }

  function Min(a: nat, b: nat): nat {
    if a <= b then a else b
  }

  /** The fee rate rises slowly up to the kink and steeply above it. */
  function FeeBps(utilization: nat): nat {
    Min(MAX_FEE_BPS,
        if utilization <= KINK_UTILIZATION_BPS
        then BASE_FEE_BPS + CeilDiv(BASE_FEE_BPS * utilization, KINK_UTILIZATION_BPS)
        else KINK_FEE_BPS + CeilDiv((MAX_FEE_BPS - KINK_FEE_BPS) * (utilization - KINK_UTILIZATION_BPS),
                                    BPS_DIVISOR - KINK_UTILIZATION_BPS))
  }

  function CalculateFee(amount: int, reserves: int): Result<int, Error> {
    if amount <= 0 then Err(InvalidAmount)
    else if reserves <= 0 || amount > reserves then Err(InsufficientLiquidity)
    else if amount * BPS_DIVISOR + reserves - 1 > I128_MAX then Err(ArithmeticOverflow)
    else CalculateAmountFee(amount, FeeBps(Utilization(amount, reserves)))
  }

  // ---------- shape of the fee ----------

  /** `CeilDiv` is the least number of `d`s that cover `n`. */
  lemma CeilDivIsLeast(n: nat, d: nat, q: nat)
    requires d > 0
    ensures CeilDiv(n, d) <= q <==> n <= q * d
  {
    var c := CeilDiv(n, d);
    var r := (n + d - 1) % d;
    assert n + d - 1 == c * d + r;
    if c <= q {
      Scale(c, q, d);
    } else {
      Scale(q + 1, c, d);
      assert (q + 1) * d == q * d + d;
    }
  }

  lemma Scale(a: nat, b: nat, d: nat)
    requires a <= b
    ensures a * d <= b * d
  {
  }

  lemma CeilDivGrows(m: nat, n: nat, d: nat)
    requires d > 0 && m <= n
    ensures CeilDiv(m, d) <= CeilDiv(n, d)
  {
    CeilDivIsLeast(n, d, CeilDiv(n, d));
    CeilDivIsLeast(m, d, CeilDiv(n, d));
  }

  lemma UtilizationRange(amount: nat, reserves: nat)
    requires 0 < amount <= reserves
    ensures 1 <= Utilization(amount, reserves) <= BPS_DIVISOR
  {
    CeilDivIsLeast(amount * BPS_DIVISOR, reserves, BPS_DIVISOR);
    CeilDivIsLeast(amount * BPS_DIVISOR, reserves, 0);
    Scale(amount, reserves, BPS_DIVISOR);
  }

  lemma UtilizationGrowsWithAmount(a: nat, b: nat, reserves: nat)
    requires reserves > 0 && a <= b
    ensures Utilization(a, reserves) <= Utilization(b, reserves)
  {
    CeilDivGrows(a * BPS_DIVISOR, b * BPS_DIVISOR, reserves);
  }

  lemma UtilizationFallsWithReserves(amount: nat, r: nat, s: nat)
    requires 0 < r <= s
    ensures Utilization(amount, s) <= Utilization(amount, r)
  {
    var q := Utilization(amount, r);
    CeilDivIsLeast(amount * BPS_DIVISOR, r, q);
    assert q * r <= q * s;
    CeilDivIsLeast(amount * BPS_DIVISOR, s, q);
  }

  lemma FeeBpsGrows(u: nat, v: nat)
    requires u <= v <= BPS_DIVISOR
    ensures FeeBps(u) <= FeeBps(v)
  {
  }

  lemma FeeBpsRange(u: nat)
    requires 1 <= u <= BPS_DIVISOR
    ensures 6 <= FeeBps(u) <= MAX_FEE_BPS
  {
  }

  lemma AmountFeeGrows(a: nat, b: nat, p: nat, q: nat)
    requires a <= b && p <= q
    ensures CeilDiv(a * p, BPS_DIVISOR) <= CeilDiv(b * q, BPS_DIVISOR)
  {
    Scale(a, b, p);
    assert b * p <= b * q;
    CeilDivGrows(a * p, b * q, BPS_DIVISOR);
  }

  /** A positive loan, covered by the reserves, whose utilization does not overflow. */
  predicate Priceable(amount: int, reserves: int) {
    0 < amount <= reserves && amount * BPS_DIVISOR + reserves - 1 <= I128_MAX
  }

  /** These loans and no others get a fee; no later step of the computation can overflow. */
  lemma FeeDefinedExactly(amount: int, reserves: int)
    ensures CalculateFee(amount, reserves).Ok? <==> Priceable(amount, reserves)
  {
    if 0 < amount <= reserves {
      UtilizationRange(amount, reserves);
      FeeBpsRange(Utilization(amount, reserves));
      var bps := FeeBps(Utilization(amount, reserves));
      assert amount * bps <= amount * MAX_FEE_BPS by { Scale(bps, MAX_FEE_BPS, amount); }
    }
  }

  /** The fee lies between 6 and 50 basis points of the loan, rounded up, and is never below
      the base fee that older clients quote. */
  lemma FeeBounds(amount: int, reserves: int)
    requires Priceable(amount, reserves)
    ensures CalculateFee(amount, reserves).Ok?
    ensures var fee := CalculateFee(amount, reserves).value;
            && CeilDiv(6 * amount, BPS_DIVISOR) <= fee <= CeilDiv(50 * amount, BPS_DIVISOR)
            && 0 < fee
            && FlashFee(amount).Ok? && FlashFee(amount).value <= fee
  {
    FeeDefinedExactly(amount, reserves);
    UtilizationRange(amount, reserves);
    var bps := FeeBps(Utilization(amount, reserves));
    FeeBpsRange(Utilization(amount, reserves));
    AmountFeeGrows(amount, amount, 6, bps);
    AmountFeeGrows(amount, amount, bps, 50);
    AmountFeeGrows(amount, amount, BASE_FEE_BPS, bps);
  }

  /** Borrowing more never costs less. */
  lemma FeeGrowsWithAmount(a: int, b: int, reserves: int)
    requires 0 < a <= b && Priceable(b, reserves)
    ensures CalculateFee(a, reserves).Ok? && CalculateFee(b, reserves).Ok?
    ensures CalculateFee(a, reserves).value <= CalculateFee(b, reserves).value
  {
    FeeDefinedExactly(a, reserves);
    FeeDefinedExactly(b, reserves);
    UtilizationGrowsWithAmount(a, b, reserves);
    UtilizationRange(b, reserves);
    FeeBpsGrows(Utilization(a, reserves), Utilization(b, reserves));
    AmountFeeGrows(a, b, FeeBps(Utilization(a, reserves)), FeeBps(Utilization(b, reserves)));
  }

  /** Deeper reserves never make the same loan dearer. */
  lemma FeeFallsWithReserves(amount: int, r: int, s: int)
    requires r <= s && Priceable(amount, r) && Priceable(amount, s)
    ensures CalculateFee(amount, r).Ok? && CalculateFee(amount, s).Ok?
    ensures CalculateFee(amount, s).value <= CalculateFee(amount, r).value
  {
    FeeDefinedExactly(amount, r);
    FeeDefinedExactly(amount, s);
    UtilizationFallsWithReserves(amount, r, s);
    UtilizationRange(amount, r);
    FeeBpsGrows(Utilization(amount, s), Utilization(amount, r));
    AmountFeeGrows(amount, amount, FeeBps(Utilization(amount, s)), FeeBps(Utilization(amount, r)));
  }

  // ---------- what the fee is, apart from how it is computed ----------

  /** `q` is the least number with `q * d` at least `n`. */
  ghost predicate IsLeastCover(q: int, n: int, d: int) {
    n <= q * d && forall r: int :: n <= r * d ==> q <= r
  }

  /** Five basis points and a share of five more up to a utilization of 80%, then ten and a
      share of forty more for the rest, each share rounded up. */
  ghost predicate IsFeeRate(bps: int, utilization: int) {
    if utilization <= 8_000 then IsLeastCover(bps - 5, 5 * utilization, 8_000)
    else IsLeastCover(bps - 10, 40 * (utilization - 8_000), 2_000)
  }

  lemma CoverNotNegative(q: int, n: nat, d: nat)
    requires d > 0 && n <= q * d
    ensures q >= 0
  {
  }

  lemma LeastCover(n: nat, d: nat, q: int)
    requires d > 0 && IsLeastCover(q, n, d)
    ensures CeilDiv(n, d) == q
  {
    var c := CeilDiv(n, d);
    CeilDivIsLeast(n, d, c);
    assert q <= c;
    CoverNotNegative(q, n, d);
    CeilDivIsLeast(n, d, q);
  }

  lemma FeeRateIs(utilization: nat, bps: int)
    requires utilization <= 10_000 && IsFeeRate(bps, utilization)
    ensures FeeBps(utilization) == bps
  {
    if utilization <= 8_000 {
      LeastCover(5 * utilization, 8_000, bps - 5);
    } else {
      LeastCover(40 * (utilization - 8_000), 2_000, bps - 10);
    }
  }

  /** A loan costs the share of it, rounded up, that the rate for its share of the reserves,
      rounded up, stands for. */
  lemma FeeIs(amount: int, reserves: int, utilization: int, bps: int, fee: int)
    requires Priceable(amount, reserves)
    requires IsLeastCover(utilization, 10_000 * amount, reserves) && IsFeeRate(bps, utilization)
    requires IsLeastCover(fee, amount * bps, 10_000)
    ensures CalculateFee(amount, reserves) == Ok(fee)
  {
    FeeDefinedExactly(amount, reserves);
    LeastCover(10_000 * amount, reserves, utilization);
    UtilizationRange(amount, reserves);
    FeeRateIs(utilization, bps);
    FeeBpsRange(utilization);
    assert amount * bps >= 0;
    LeastCover(amount * bps, 10_000, fee);
  }

  /** The fee that older clients quote is five basis points, rounded up. */
  lemma FlashFeeIs(amount: int, fee: int)
    requires 0 < amount && 5 * amount + 9_999 <= I128_MAX && IsLeastCover(fee, 5 * amount, 10_000)
    ensures FlashFee(amount) == Ok(fee)
  {
    LeastCover(5 * amount, 10_000, fee);
  }

  /** Such numbers exist for every loan that is priced. */
  lemma CoverExists(n: nat, d: nat) returns (q: nat)
    requires d > 0
    ensures IsLeastCover(q, n, d)
  {
    q := CeilDiv(n, d);
    CeilDivIsLeast(n, d, q);
    forall r: int | n <= r * d ensures q <= r {
      CoverNotNegative(r, n, d);
      CeilDivIsLeast(n, d, r);
    }
  }

  // ---------- loans ----------

  /** What can happen on the ledger: other contracts rearrange balances, or somebody asks for
      a loan, whose borrower then performs a callback of such actions before returning. A
      refused loan either is tolerated by whoever asked for it or makes the caller trap. */
  datatype Action =
    | World(after: Balances)
    | Loan(signed: bool, borrower: Address, token: Token, amount: int, callback: seq<Action>, tolerated: bool)

  datatype State = State(balances: Balances, locked: bool)

  function Reserves(s: State, provider: Address, token: Token): int {
    Balance(s.balances, token, provider)
  }

  function Lend(s: State, provider: Address, a: Action): Result<(State, int), Error>
    requires a.Loan?
    decreases a
  {
    if s.locked then Err(ReentrancyGuard)
    else if !a.signed then Err(NotAuthorized)
    else
      var before := Reserves(s, provider, a.token);
      if before < a.amount then Err(InsufficientLiquidity)
      else
        var fee := CalculateFee(a.amount, before);
        if fee.Err? then Err(fee.error)
        else if before + fee.value > I128_MAX then Err(ArithmeticOverflow)
        else
          var lent := State(Move(s.balances, a.token, provider, a.borrower, a.amount), true);
          match Perform(lent, provider, a.callback)
          case None => Err(Trapped)
          case Some(t) =>
            if Reserves(t, provider, a.token) < before + fee.value then Err(RepaymentTooLow)
            else Ok((t.(locked := false), fee.value))
  }

  /** Performs the actions in order; `None` when one of them traps. */
  function Perform(s: State, provider: Address, actions: seq<Action>): Option<State>
    decreases actions
  {
    if actions == [] then Some(s)
    else
      match actions[0]
      case World(after) =>
        if Unauthorized(provider, s.balances, after)
        then Perform(s.(balances := after), provider, actions[1..])
        else None
      case Loan(_, _, _, _, _, tolerated) =>
        match Lend(s, provider, actions[0])
        case Ok((t, _)) => Perform(t, provider, actions[1..])
        case Err(_) => if tolerated then Perform(s, provider, actions[1..]) else None
  }

  ghost predicate ReservesKept(s: State, t: State, provider: Address) {
    forall token :: Reserves(t, provider, token) >= Reserves(s, provider, token)
  }

  /** While the lock is set, no callback whatever gets a loan or lowers the reserves, and the
      lock stays set. */
  lemma {:induction false} LockedCallback(s: State, provider: Address, actions: seq<Action>)
    requires s.locked && Perform(s, provider, actions).Some?
    ensures Perform(s, provider, actions).value.locked
    ensures ReservesKept(s, Perform(s, provider, actions).value, provider)
    decreases |actions|
  {
    if actions != [] {
      if actions[0].World? {
        var t := s.(balances := actions[0].after);
        forall token ensures Reserves(t, provider, token) >= Reserves(s, provider, token) {
          UnauthorizedKeepsBalance(provider, s.balances, t.balances, token);
        }
        LockedCallback(t, provider, actions[1..]);
      } else {
        LockedCallback(s, provider, actions[1..]);
      }
    }
  }

  /** Handing out the loan moves nothing but the lent amount. */
  lemma LendingKeepsOthers(b: Balances, provider: Address, a: Action, token: Token)
    requires a.Loan? && a.amount > 0
    ensures Balance(Move(b, a.token, provider, a.borrower, a.amount), token, provider) >=
            Balance(b, token, provider) - if token == a.token then a.amount else 0
  {
    MoveBalance(b, a.token, provider, a.borrower, a.amount, token, provider);
  }

  /** A completed loan releases the lock, has earned at least its fee in the lent token, and
      has not cost the provider anything in any token. */
  lemma CompletedLoan(s: State, provider: Address, a: Action)
    requires a.Loan? && Lend(s, provider, a).Ok?
    ensures var (t, fee) := Lend(s, provider, a).value;
            && !s.locked && !t.locked && fee > 0
            && Ok(fee) == CalculateFee(a.amount, Reserves(s, provider, a.token))
            && Reserves(t, provider, a.token) >= Reserves(s, provider, a.token) + fee
            && ReservesKept(s, t, provider)
  {
    FeeDefinedExactly(a.amount, Reserves(s, provider, a.token));
    FeeBounds(a.amount, Reserves(s, provider, a.token));
    var lent := State(Move(s.balances, a.token, provider, a.borrower, a.amount), true);
    LockedCallback(lent, provider, a.callback);
    var u := Perform(lent, provider, a.callback).value;
    var t := Lend(s, provider, a).value.0;
    assert t.balances == u.balances;
    forall token ensures Reserves(t, provider, token) >= Reserves(s, provider, token) {
      LendingKeepsOthers(s.balances, provider, a, token);
      assert Reserves(u, provider, token) >= Reserves(lent, provider, token);
    }
  }

  /** What the callback of a loan starts from: the borrower has the amount, and the lock is
      set. */
  function Lent(s: State, provider: Address, a: Action): State
    requires a.Loan?
  {
    State(Move(s.balances, a.token, provider, a.borrower, a.amount), true)
  }

  lemma BorrowerGetsAmount(s: State, provider: Address, a: Action)
    requires a.Loan? && provider != a.borrower
    ensures Balance(Lent(s, provider, a).balances, a.token, a.borrower) ==
            Balance(s.balances, a.token, a.borrower) + a.amount
    ensures Reserves(Lent(s, provider, a), provider, a.token) == Reserves(s, provider, a.token) - a.amount
  {
    MoveBalance(s.balances, a.token, provider, a.borrower, a.amount, a.token, a.borrower);
    MoveBalance(s.balances, a.token, provider, a.borrower, a.amount, a.token, provider);
  }

  /** A loan is made exactly if the lock is free, the initiator has signed, the loan is priced,
      and its callback does not trap and leaves the reserves with the fee on top; then the
      ledgers are those that the callback left. */
  lemma LentExactly(s: State, provider: Address, a: Action)
    requires a.Loan?
    ensures var reserves := Reserves(s, provider, a.token);
            var fee := CalculateFee(a.amount, reserves);
            var done := Perform(Lent(s, provider, a), provider, a.callback);
            && (Lend(s, provider, a).Ok? <==>
                  && !s.locked && a.signed && fee.Ok? && reserves + fee.value <= I128_MAX
                  && done.Some? && Reserves(done.value, provider, a.token) >= reserves + fee.value)
            && (Lend(s, provider, a).Ok? ==> done.Some? && Lend(s, provider, a).value.0.balances == done.value.balances)
  {
    FeeDefinedExactly(a.amount, Reserves(s, provider, a.token));
    hide Move, Perform;
  }

  /** Every error of a loan tells the truth. */
  lemma ErrorsAreTrue(s: State, provider: Address, a: Action)
    requires a.Loan? && Lend(s, provider, a).Err?
    ensures var reserves := Reserves(s, provider, a.token);
            var done := Perform(Lent(s, provider, a), provider, a.callback);
            match Lend(s, provider, a).error
            case ReentrancyGuard => s.locked
            case NotAuthorized => !a.signed
            case InvalidAmount => a.amount <= 0
            case InsufficientLiquidity => a.amount > reserves || reserves <= 0
            case ArithmeticOverflow => 10_000 * a.amount + reserves > I128_MAX || reserves + a.amount > I128_MAX
            case Trapped => done == None
            case RepaymentTooLow =>
              && done.Some? && CalculateFee(a.amount, reserves).Ok?
              && Reserves(done.value, provider, a.token) < reserves + CalculateFee(a.amount, reserves).value
  {
    var reserves := Reserves(s, provider, a.token);
    FeeDefinedExactly(a.amount, reserves);
    if Priceable(a.amount, reserves) {
      FeeBounds(a.amount, reserves);
      CeilDivIsLeast(50 * a.amount, BPS_DIVISOR, a.amount);
    }
    hide Move, Perform;
  }

  /** One top-level transaction: it either goes through or leaves no trace. */
  function Transact(s: State, provider: Address, a: Action): State {
    match Perform(s, provider, [a]) case Some(t) => t case None => s
  }

  function Run(s: State, provider: Address, actions: seq<Action>): State
    decreases |actions|
  {
    if actions == [] then s else Run(Transact(s, provider, actions[0]), provider, actions[1..])
  }

  /** The fees of the loans in `token` that a run completes. */
  function FeesEarned(s: State, provider: Address, actions: seq<Action>, token: Token): int
    decreases |actions|
  {
    if actions == [] then 0
    else
      (if actions[0].Loan? && actions[0].token == token && Lend(s, provider, actions[0]).Ok?
       then Lend(s, provider, actions[0]).value.1 else 0)
      + FeesEarned(Transact(s, provider, actions[0]), provider, actions[1..], token)
  }

  lemma TransactUnfolds(s: State, provider: Address, a: Action)
    ensures Transact(s, provider, a) ==
            match a {
              case World(after) => if Unauthorized(provider, s.balances, after) then s.(balances := after) else s
              case Loan(_, _, _, _, _, _) =>
                if Lend(s, provider, a).Ok? then Lend(s, provider, a).value.0 else s
            }
  {
    var actions := [a];
    assert actions[0] == a && actions[1..] == [];
    if a.World? && Unauthorized(provider, s.balances, a.after) {
      var t := s.(balances := a.after);
      assert Perform(t, provider, actions[1..]) == Some(t);
      assert Perform(s, provider, actions) == Perform(t, provider, actions[1..]);
    } else if a.Loan? {
      var t := if Lend(s, provider, a).Ok? then Lend(s, provider, a).value.0 else s;
      assert Perform(t, provider, actions[1..]) == Some(t);
      assert Lend(s, provider, a).Ok? || a.tolerated ==>
          Perform(s, provider, actions) == Perform(t, provider, actions[1..]);
    }
  }

  lemma TransactKeepsReserves(s: State, provider: Address, a: Action)
    requires !s.locked
    ensures !Transact(s, provider, a).locked && ReservesKept(s, Transact(s, provider, a), provider)
  {
    TransactUnfolds(s, provider, a);
    if a.Loan? {
      if Lend(s, provider, a).Ok? {
        CompletedLoan(s, provider, a);
      }
    } else if Unauthorized(provider, s.balances, a.after) {
      forall token ensures Balance(a.after, token, provider) >= Balance(s.balances, token, provider) {
        UnauthorizedKeepsBalance(provider, s.balances, a.after, token);
      }
    }
  }

  /** Over every run the provider ends up with at least its initial reserves plus all fees of
      the completed loans, in every token, whatever the callbacks tried. */
  lemma {:induction false} RunEarnsFees(s: State, provider: Address, actions: seq<Action>, token: Token)
    requires !s.locked
    ensures !Run(s, provider, actions).locked
    ensures FeesEarned(s, provider, actions, token) >= 0
    ensures Reserves(Run(s, provider, actions), provider, token) >=
            Reserves(s, provider, token) + FeesEarned(s, provider, actions, token)
    decreases |actions|
  {
    if actions != [] {
      TransactUnfolds(s, provider, actions[0]);
      TransactKeepsReserves(s, provider, actions[0]);
      if actions[0].Loan? && Lend(s, provider, actions[0]).Ok? {
        CompletedLoan(s, provider, actions[0]);
      }
      RunEarnsFees(Transact(s, provider, actions[0]), provider, actions[1..], token);
    }
  }

  // ---------- the contract on stored fields ----------

  class Provider {
    const address: Address
    var balances: Balances
    var locked: bool

    ghost function Now(): State
      reads this
    {
      State(balances, locked)
    }

    constructor (address: Address, balances: Balances)
      ensures this.address == address && Now() == State(balances, false)
    {
      this.address, this.balances, locked := address, balances, false;
    }

    /** Takes the lock, lends, lets the borrower act, and insists on repayment. */
    method FlashLoan(a: Action) returns (r: Result<int, Error>)
      requires a.Loan?
      modifies this
      ensures match Lend(old(Now()), address, a)
              case Ok((t, fee)) => r == Ok(fee) && Now() == t
              case Err(e) => r == Err(e) && Now() == old(Now())
      decreases a
    {
      if locked {
        return Err(ReentrancyGuard);
      }
      if !a.signed {
        return Err(NotAuthorized);
      }
      var savedBalances := balances;  // the host restores this if the call fails
      locked := true;
      var balanceBefore := Balance(balances, a.token, address);
      if balanceBefore < a.amount {
        locked := false;
        return Err(InsufficientLiquidity);
      }
      var fee := CalculateFee(a.amount, balanceBefore);
      if fee.Err? {
        locked := false;
        return Err(fee.error);
      }
      var requiredBalance := balanceBefore + fee.value;
      if requiredBalance > I128_MAX {
        locked := false;
        return Err(ArithmeticOverflow);
      }
      balances := Move(balances, a.token, address, a.borrower, a.amount);
      var finished := OnFlashLoan(a.callback);
      if !finished {
        balances, locked := savedBalances, false;
        return Err(Trapped);
      }
      if Balance(balances, a.token, address) < requiredBalance {
        balances, locked := savedBalances, false;
        return Err(RepaymentTooLow);
      }
      locked := false;
      return Ok(fee.value);
    }

    /** The borrower's code: an arbitrary script of ledger actions. */
    method OnFlashLoan(actions: seq<Action>) returns (finished: bool)
      modifies this
      ensures finished == Perform(old(Now()), address, actions).Some?
      ensures finished ==> Now() == Perform(old(Now()), address, actions).value
      decreases actions
    {
      if actions == [] {
        return true;
      }
      if actions[0].World? {
        if !Unauthorized(address, balances, actions[0].after) {
          return false;
        }
        balances := actions[0].after;
      } else {
        var r := FlashLoan(actions[0]);
        if r.Err? && !actions[0].tolerated {
          return false;
        }
      }
      finished := OnFlashLoan(actions[1..]);
    }
  }
}
