/** Dividing the input of a split swap among its routes by weight. */
module Split {
  import opened ByteOrder
  import opened Wrappers

  const TOTAL_WEIGHT_BPS := 10_000
  const U32_MAX := 0xFFFF_FFFF

  type Weight = x: int | 0 <= x <= U32_MAX

  datatype SplitRoute = SplitRoute(dex: Address, weightBps: Weight, minAmountOut: int)

  datatype Error = InvalidSwapParams | DexNotRegistered

  /** The total weight of the routes from the `i`-th on, with `total` before them. */
  function AddWeights(splits: seq<SplitRoute>, dexes: set<Address>, i: nat, total: Weight): Result<Weight, Error>
    decreases |splits| - i
  {
    if i >= |splits| then Ok(total)
    else if splits[i].weightBps == 0 || splits[i].minAmountOut <= 0 then Err(InvalidSwapParams)
    else if splits[i].dex !in dexes then Err(DexNotRegistered)
    else if total + splits[i].weightBps > U32_MAX then Err(InvalidSwapParams)
    else AddWeights(splits, dexes, i + 1, total + splits[i].weightBps)
  }

  function CheckSplits(splits: seq<SplitRoute>, dexes: set<Address>): Option<Error> {
    if splits == [] then Some(InvalidSwapParams)
    else
      match AddWeights(splits, dexes, 0, 0)
      case Err(e) => Some(e)
      case Ok(total) => if total == TOTAL_WEIGHT_BPS then None else Some(InvalidSwapParams)
  }

  function TotalWeight(splits: seq<SplitRoute>): nat {
    if splits == [] then 0 else splits[0].weightBps + TotalWeight(splits[1..])
  }

  function Total(shares: seq<int>): int {
    if shares == [] then 0 else shares[0] + Total(shares[1..])
  }

  function FloorShare(amount: nat, split: SplitRoute): nat {
    amount * split.weightBps / TOTAL_WEIGHT_BPS
  }

  /** The shares of the routes when `given` has been given out before them. */
  function SharesFrom(amount: nat, splits: seq<SplitRoute>, given: int): (shares: seq<int>)
    ensures |shares| == |splits|
  {
    if splits == [] then []
    else if |splits| == 1 then [amount - given]
    else
      var share := FloorShare(amount, splits[0]);
      [share] + SharesFrom(amount, splits[1..], given + share)
  }

  function Shares(amount: nat, splits: seq<SplitRoute>): (shares: seq<int>)
    ensures |shares| == |splits|
  {
    SharesFrom(amount, splits, 0)
  }

  // ---------- the weights are checked ----------

  predicate Routable(split: SplitRoute, dexes: set<Address>) {
    split.weightBps > 0 && split.minAmountOut > 0 && split.dex in dexes
  }

  lemma {:induction false} AddWeightsSums(splits: seq<SplitRoute>, dexes: set<Address>, i: nat, total: Weight)
    requires i <= |splits|
    ensures AddWeights(splits, dexes, i, total).Ok? <==>
            && (forall k :: i <= k < |splits| ==> Routable(splits[k], dexes))
            && total + TotalWeight(splits[i..]) <= U32_MAX
    ensures AddWeights(splits, dexes, i, total).Ok? ==>
            AddWeights(splits, dexes, i, total).value == total + TotalWeight(splits[i..])
    decreases |splits| - i
  {
    if i < |splits| {
      assert splits[i..][0] == splits[i] && splits[i..][1..] == splits[i + 1..];
      if Routable(splits[i], dexes) && total + splits[i].weightBps <= U32_MAX {
        AddWeightsSums(splits, dexes, i + 1, total + splits[i].weightBps);
      }
    }
  }

  /** A split passes exactly if it has routes, all usable, whose weights add up to 100%. */
  lemma SplitAcceptedExactly(splits: seq<SplitRoute>, dexes: set<Address>)
    ensures CheckSplits(splits, dexes) == None <==>
            splits != [] && (forall k :: 0 <= k < |splits| ==> Routable(splits[k], dexes))
            && TotalWeight(splits) == TOTAL_WEIGHT_BPS
  {
    AddWeightsSums(splits, dexes, 0, 0);
    assert splits[0..] == splits;
  }

  /** The weights of an accepted split are ten-thousandths that make up the whole. */
  lemma WeightsMakeWhole(splits: seq<SplitRoute>, dexes: set<Address>, i: nat)
    requires CheckSplits(splits, dexes) == None && i < |splits|
    ensures TotalWeight(splits) == 10_000 && 1 <= splits[i].weightBps && splits[i].minAmountOut >= 1
    ensures splits[i].dex in dexes
  {
    SplitAcceptedExactly(splits, dexes);
    assert Routable(splits[i], dexes);
  }

  // ---------- the shares are exact and fair ----------

  /** What a share exceeds its exact proportion by, in ten-thousandths. */
  function Excess(amount: nat, split: SplitRoute, share: int): int {
    share * TOTAL_WEIGHT_BPS - amount * split.weightBps
  }

  lemma FloorExcess(amount: nat, split: SplitRoute)
    ensures -TOTAL_WEIGHT_BPS < Excess(amount, split, FloorShare(amount, split)) <= 0
  {
  }

  /** What rounding takes from all routes but the last, in ten-thousandths. */
  function Lost(amount: nat, splits: seq<SplitRoute>): int {
    if |splits| <= 1 then 0
    else Lost(amount, splits[1..]) - Excess(amount, splits[0], FloorShare(amount, splits[0]))
  }

  lemma {:induction false} LostBounds(amount: nat, splits: seq<SplitRoute>)
    requires splits != []
    ensures 0 <= Lost(amount, splits) <= (|splits| - 1) * (TOTAL_WEIGHT_BPS - 1)
  {
    if |splits| > 1 {
      LostBounds(amount, splits[1..]);
      FloorExcess(amount, splits[0]);
    }
  }

  /** The shares add up, and all but the last are rounded down. */
  lemma {:induction false} SharesAddUp(amount: nat, splits: seq<SplitRoute>, given: int)
    requires splits != []
    ensures given + Total(SharesFrom(amount, splits, given)) == amount
    ensures forall k :: 0 <= k < |splits| - 1 ==> SharesFrom(amount, splits, given)[k] == FloorShare(amount, splits[k])
  {
    var shares := SharesFrom(amount, splits, given);
    if |splits| == 1 {
      assert shares[1..] == [];
    } else {
      var share := FloorShare(amount, splits[0]);
      SharesAddUp(amount, splits[1..], given + share);
      assert shares[1..] == SharesFrom(amount, splits[1..], given + share);
      forall k | 0 <= k < |splits| - 1 ensures shares[k] == FloorShare(amount, splits[k]) {
        if k > 0 {
          assert shares[k] == shares[1..][k - 1] && splits[k] == splits[1..][k - 1];
        }
      }
    }
  }

  lemma AddedWeight(amount: nat, a: nat, b: nat)
    ensures amount * (a + b) == amount * a + amount * b
  {
  }

  /** The last share absorbs what the others lost. */
  lemma {:induction false} LastShareExcess(amount: nat, splits: seq<SplitRoute>, given: int)
    requires splits != []
    ensures var last := |splits| - 1;
            Excess(amount, splits[last], SharesFrom(amount, splits, given)[last]) ==
            Lost(amount, splits) + (amount - given) * TOTAL_WEIGHT_BPS - amount * TotalWeight(splits)
  {
    if |splits| == 1 {
      assert TotalWeight(splits) == splits[0].weightBps + TotalWeight(splits[1..]);
    } else {
      LastShareExcess(amount, splits[1..], given + FloorShare(amount, splits[0]));
      AddedWeight(amount, splits[0].weightBps, TotalWeight(splits[1..]));
    }
  }

  /** With weights that add up to 100%, everything is handed out; each share but the last is
      the floor of its exact proportion; the last of n shares is at least its exact
      proportion and, for n > 1, exceeds it by less than n - 1 units. */
  lemma SharesAreExactAndFair(amount: nat, splits: seq<SplitRoute>)
    requires splits != [] && TotalWeight(splits) == TOTAL_WEIGHT_BPS
    ensures var shares := Shares(amount, splits);
            var last := |splits| - 1;
            && Total(shares) == amount
            && (forall k :: 0 <= k < last ==> -TOTAL_WEIGHT_BPS < Excess(amount, splits[k], shares[k]) <= 0)
            && 0 <= Excess(amount, splits[last], shares[last])
            && (last == 0 ==> Excess(amount, splits[last], shares[last]) == 0)
            && (last > 0 ==> Excess(amount, splits[last], shares[last]) < last * TOTAL_WEIGHT_BPS)
  {
    SharesAddUp(amount, splits, 0);
    LastShareExcess(amount, splits, 0);
    LostBounds(amount, splits);
    forall k | 0 <= k < |splits| - 1
      ensures -TOTAL_WEIGHT_BPS < Excess(amount, splits[k], Shares(amount, splits)[k]) <= 0
    {
      FloorExcess(amount, splits[k]);
    }
  }

  /** No share is zero exactly if the amount is positive and large enough for each route but
      the last to get a unit. */
  lemma SharesArePositive(amount: nat, splits: seq<SplitRoute>)
    requires splits != [] && TotalWeight(splits) == TOTAL_WEIGHT_BPS
    requires forall k :: 0 <= k < |splits| ==> splits[k].weightBps > 0
    ensures (forall k :: 0 <= k < |splits| ==> Shares(amount, splits)[k] > 0) <==>
            amount > 0 && forall k :: 0 <= k < |splits| - 1 ==> amount * splits[k].weightBps >= TOTAL_WEIGHT_BPS
  {
    var shares := Shares(amount, splits);
    var last := |splits| - 1;
    SharesAddUp(amount, splits, 0);
    SharesAreExactAndFair(amount, splits);
    LastSharePositive(amount, splits[last], shares[last]);
    forall k | 0 <= k < last ensures shares[k] > 0 <==> amount * splits[k].weightBps >= TOTAL_WEIGHT_BPS {
    }
  }

  lemma LastSharePositive(amount: nat, split: SplitRoute, share: int)
    requires split.weightBps > 0 && Excess(amount, split, share) >= 0
    ensures amount > 0 ==> share > 0
    ensures amount == 0 && Excess(amount, split, share) == 0 ==> share == 0
  {
    if amount > 0 {
      assert amount * split.weightBps > 0;
    }
  }
}
