/** What a fraud score is, apart from how it is computed: the median by rank, the shares of
    amount and burst, and when a payment is flagged. */
module FraudScores {
  import opened FraudScorer
  import opened Wrappers

  // ---------- the median by rank ----------

  function CountBelow(s: seq<real>, x: real): nat {
    if s == [] then 0 else (if s[0] < x then 1 else 0) + CountBelow(s[1..], x)
  }

  function CountAbove(s: seq<real>, x: real): nat {
    if s == [] then 0 else (if s[0] > x then 1 else 0) + CountAbove(s[1..], x)
  }

  /** At most half of the values are below `m` and at most half above; of the two middle
      values of an even number the upper one. */
  predicate IsMedian(m: real, s: seq<real>) {
    m in s && CountBelow(s, m) <= |s| / 2 && CountAbove(s, m) <= (|s| - 1) / 2
  }

  ghost predicate Ascending(s: seq<real>) {
    forall i, j :: 0 <= i < j < |s| ==> s[i] <= s[j]
  }

  lemma {:induction false} CountsAppend(s: seq<real>, last: real, x: real)
    ensures CountBelow(s + [last], x) == CountBelow(s, x) + if last < x then 1 else 0
    ensures CountAbove(s + [last], x) == CountAbove(s, x) + if last > x then 1 else 0
  {
    if s != [] {
      assert (s + [last])[1..] == s[1..] + [last];
      CountsAppend(s[1..], last, x);
    } else {
      assert (s + [last])[1..] == [];
    }
  }

  lemma {:induction false} InsertFacts(s: seq<real>, y: real, x: real)
    requires Ascending(s)
    ensures var t := InsertReal(s, y);
            && Ascending(t) && |t| == |s| + 1
            && (x in t <==> x in s || x == y)
            && CountBelow(t, x) == CountBelow(s, x) + (if y < x then 1 else 0)
            && CountAbove(t, x) == CountAbove(s, x) + (if y > x then 1 else 0)
  {
    if s == [] || y < s[0] {
      assert InsertReal(s, y)[1..] == s;
    } else {
      var rest := InsertReal(s[1..], y);
      InsertFacts(s[1..], y, x);
      assert InsertReal(s, y)[1..] == rest;
      forall i, j | 0 <= i < j < |s| + 1 ensures InsertReal(s, y)[i] <= InsertReal(s, y)[j] {
        if i == 0 {
          InsertFacts(s[1..], y, rest[j - 1]);
        }
      }
    }
  }

  lemma {:induction false} SortFacts(s: seq<real>, x: real)
    ensures var t := SortReals(s);
            && Ascending(t) && |t| == |s| && (x in t <==> x in s)
            && CountBelow(t, x) == CountBelow(s, x) && CountAbove(t, x) == CountAbove(s, x)
  {
    if s != [] {
      var n := |s| - 1;
      assert s == s[..n] + [s[n]];
      SortFacts(s[..n], x);
      InsertFacts(SortReals(s[..n]), s[n], x);
      CountsAppend(s[..n], s[n], x);
    }
  }

  /** In ascending order, what is before position `k` bounds the values below it, and what is
      after it the values above. */
  lemma {:induction false} RankBounds(s: seq<real>, x: real, k: nat)
    requires k <= |s|
    ensures (forall i :: k <= i < |s| ==> s[i] >= x) ==> CountBelow(s, x) <= k
    ensures (forall i :: 0 <= i < k ==> s[i] <= x) ==> CountAbove(s, x) <= |s| - k
  {
    if s != [] {
      assert forall i :: 0 <= i < |s[1..]| ==> s[1..][i] == s[i + 1];
      RankBounds(s[1..], x, if k == 0 then 0 else k - 1);
    }
  }

  /** The value in the middle of the sorted window is the median. */
  lemma MiddleIsMedian(s: seq<real>)
    requires s != []
    ensures |SortReals(s)| == |s| && IsMedian(SortReals(s)[|s| / 2], s)
  {
    hide SortReals, CountBelow, CountAbove;
    SortFacts(s, 0.0);
    var t := SortReals(s);
    var m := t[|s| / 2];
    SortFacts(s, m);
    MiddleRanks(t, |s| / 2);
  }

  lemma MiddleRanks(t: seq<real>, k: nat)
    requires Ascending(t) && k < |t|
    ensures CountBelow(t, t[k]) <= k && CountAbove(t, t[k]) <= |t| - k - 1
  {
    hide CountBelow, CountAbove;
    RankBounds(t, t[k], k);
    RankBounds(t, t[k], k + 1);
  }

  /** Values up to `m` are below a larger `n`. */
  lemma {:induction false} Crowded(s: seq<real>, m: real, n: real)
    requires m < n
    ensures CountBelow(s, n) + CountAbove(s, m) >= |s|
  {
    if s != [] {
      Crowded(s[1..], m, n);
    }
  }

  lemma MedianIsUnique(s: seq<real>, m: real, n: real)
    requires IsMedian(m, s) && IsMedian(n, s)
    ensures m == n
  {
    if m < n {
      Crowded(s, m, n);
    } else if n < m {
      Crowded(s, n, m);
    }
  }

  // ---------- the score ----------

  /** What an amount is measured against: ten times the median of the window, at least 1. A
      median of zero gives way to the amount, and that to 1. */
  ghost predicate IsScale(scale: real, window: seq<real>, amount: real) {
    exists m :: IsTypical(m, window, amount) && scale == if 10.0 * m >= 1.0 then 10.0 * m else 1.0
  }

  predicate IsTypical(m: real, window: seq<real>, amount: real) {
    if window == [] || IsMedian(0.0, window) then m == if amount != 0.0 then amount else 1.0
    else IsMedian(m, window)
  }

  lemma MedianIsTypical(window: seq<real>, amount: real)
    ensures IsTypical(Median(window, amount), window, amount)
    ensures forall m :: IsTypical(m, window, amount) ==> m == Median(window, amount)
  {
    if window != [] {
      MiddleIsMedian(window);
      hide SortReals;
      var middle := SortReals(window)[|window| / 2];
      if IsMedian(0.0, window) {
        MedianIsUnique(window, 0.0, middle);
      }
      forall m | IsTypical(m, window, amount) ensures m == Median(window, amount) {
        if !IsMedian(0.0, window) {
          MedianIsUnique(window, m, middle);
        }
      }
    } else {
      assert SortReals(window) == [];
    }
  }

  /** How many payments of a burst weigh on the score: from the fourth to the tenth. */
  function Excess(burst: nat): nat {
    if burst <= 3 then 0 else if burst <= 10 then burst - 3 else 7
  }

  lemma Quotient(a: real, d: real)
    requires a >= 0.0 && d > 0.0
    ensures (a / d) * d == a && a / d >= 0.0
    ensures a / d <= 1.0 <==> a <= d
    ensures a / d >= 1.0 <==> a >= d
  {
    var q := a / d;
    assert q * d == a;
    Ordered(q, 1.0, d);
    Ordered(1.0, q, d);
  }

  lemma Ordered(x: real, y: real, d: real)
    requires d > 0.0
    ensures x <= y <==> x * d <= y * d
  {
  }

  lemma BurstShare(burst: nat)
    ensures MinReal(1.0, (if burst > 3 then burst - 3 else 0) as real / 7.0) * 0.35 == 0.05 * Excess(burst) as real
  {
  }

  /** The score: 0.65 for the amount, in proportion up to the scale, and 0.05 for each payment
      of the burst from the fourth to the tenth. */
  lemma ScoreIs(window: seq<real>, amount: real, burst: nat, scale: real)
    requires amount >= 0.0 && IsScale(scale, window, amount)
    ensures amount >= scale ==> Score(window, amount, burst) == 0.65 + 0.05 * Excess(burst) as real
    ensures amount <= scale ==>
              scale * Score(window, amount, burst) == 0.65 * amount + scale * (0.05 * Excess(burst) as real)
  {
    MedianIsTypical(window, amount);
    Quotient(amount, scale);
    BurstShare(burst);
    hide Median, Excess, IsTypical;
    var m :| IsTypical(m, window, amount) && scale == if 10.0 * m >= 1.0 then 10.0 * m else 1.0;
    assert scale == MaxReal(Median(window, amount) * 10.0, 1.0);
    var q := amount / scale;
    var e := 0.05 * Excess(burst) as real;
    ExcessRange(burst);
    if amount <= scale {
      assert Score(window, amount, burst) == q * 0.65 + e;
      Distribute(scale, q, e);
    }
  }

  lemma ExcessRange(burst: nat)
    ensures Excess(burst) >= 3 <==> burst >= 6
    ensures Excess(burst) <= 7 && 0.0 <= 0.05 * Excess(burst) as real <= 0.35
  {
  }

  lemma Distribute(d: real, q: real, e: real)
    ensures d * (q * 0.65 + e) == 0.65 * (q * d) + d * e
  {
  }

  /** The corners: a large amount alone, a long burst alone, and one more payment of it. */
  lemma ScoreAtCorners(window: seq<real>, amount: real, burst: nat, scale: real)
    requires amount >= 0.0 && IsScale(scale, window, amount)
    ensures amount >= scale && burst <= 3 ==> Score(window, amount, burst) == 0.65
    ensures amount == 0.0 && burst >= 10 ==> Score(window, amount, burst) == 0.35
    ensures Score(window, amount, burst + 1) ==
            Score(window, amount, burst) + if 3 <= burst < 10 then 0.05 else 0.0
  {
    hide Score, IsScale, Excess;
    ScoreIs(window, amount, burst, scale);
    ScoreIs(window, amount, burst + 1, scale);
    ScaleIsPositive(window, amount, scale);
    ExcessSteps(burst);
    var e, f := 0.05 * Excess(burst) as real, 0.05 * Excess(burst + 1) as real;
    if amount <= scale {
      Scaled(scale, Score(window, amount, burst), amount, e);
      Scaled(scale, Score(window, amount, burst + 1), amount, f);
    }
  }

  lemma ExcessSteps(burst: nat)
    ensures 0.05 * Excess(burst + 1) as real == 0.05 * Excess(burst) as real + if 3 <= burst < 10 then 0.05 else 0.0
    ensures burst <= 3 ==> Excess(burst) == 0
    ensures burst >= 10 ==> Excess(burst) == 7
  {
  }

  lemma ScaleIsPositive(window: seq<real>, amount: real, scale: real)
    requires IsScale(scale, window, amount)
    ensures scale >= 1.0
  {
  }

  lemma Scaled(d: real, score: real, amount: real, e: real)
    requires d >= 1.0 && amount >= 0.0 && d * score == 0.65 * amount + d * e
    ensures score == 0.65 * (amount / d) + e
    ensures amount == 0.0 ==> score == e
  {
    Quotient(amount, d);
    Distribute(d, amount / d, e);
    Cancel(d, score, (amount / d) * 0.65 + e);
    if amount == 0.0 {
      Cancel(d, score, e);
    }
  }

  lemma Cancel(d: real, x: real, y: real)
    requires d > 0.0 && d * x == d * y
    ensures x == y
  {
  }

  /** A payment is flagged, at the threshold of 0.8 and after rounding, exactly if its amount
      and its burst together reach it: never below the sixth payment of a burst, and from
      there on for amounts close to the scale, the closer the shorter the burst. */
  lemma FlaggedExactly(window: seq<real>, amount: real, burst: nat, scale: real)
    requires amount >= 0.0 && IsScale(scale, window, amount)
    ensures Rounded(Score(window, amount, burst)) >= 0.8 <==>
              burst >= 6 && 13_000.0 * amount >= (15_999 - 1_000 * Excess(burst)) as real * scale
  {
    hide Score, IsScale, Rounded, Excess;
    ExcessRange(burst);
    ScoreIs(window, amount, burst, scale);
    ScaleIsPositive(window, amount, scale);
    RoundedReaches(Score(window, amount, burst));
    ReachesExactly(amount, scale, Score(window, amount, burst), Excess(burst));
  }

  lemma ReachesExactly(amount: real, scale: real, score: real, excess: nat)
    requires amount >= 0.0 && scale >= 1.0 && excess <= 7
    requires amount >= scale ==> score == 0.65 + 0.05 * excess as real
    requires amount <= scale ==> scale * score == 0.65 * amount + scale * (0.05 * excess as real)
    ensures score >= 0.79995 <==>
              excess >= 3 && 13_000.0 * amount >= (15_999 - 1_000 * excess) as real * scale
  {
    var k := excess as real;
    Ordered(0.79995, score, scale);
    Ordered(k, 2.0, scale);
    Ordered(3.0, k, scale);
    assert scale * (0.05 * k) == 0.05 * (k * scale);
    assert (15_999 - 1_000 * excess) as real * scale == 15_999.0 * scale - 1_000.0 * (k * scale);
    if amount < scale {
      assert 20_000.0 * (score * scale) == 13_000.0 * amount + 1_000.0 * (k * scale);
    }
  }

  lemma RoundedReaches(x: real)
    ensures Rounded(x) >= 0.8 <==> x >= 0.79995
  {
    var f := (x * 10000.0 + 0.5).Floor;
    assert f >= 8000 <==> x * 10000.0 + 0.5 >= 8000.0;
  }

  // ---------- over a history ----------

  /** The payments of a sender less than a minute before `now`. */
  function Burst(history: seq<Payment>, sender: Sender, now: int): nat {
    if history == [] then 0
    else
      var last := history[|history| - 1];
      Burst(history[..|history| - 1], sender, now)
      + if SenderOf(last) == sender && now - last.now < 60_000 then 1 else 0
  }

  lemma {:induction false} RecentIsBurst(history: seq<Payment>, sender: Sender, now: int)
    ensures |Recent(FullTimes(history, sender), now)| == Burst(history, sender, now)
  {
    if history != [] {
      var n := |history| - 1;
      RecentIsBurst(history[..n], sender, now);
      RecentAppend(FullTimes(history[..n], sender), history[n].now, now);
    }
  }

  /** The burst of a payment counts the sender's payments of the last minute, itself included. */
  lemma FullBurstIsBurst(history: seq<Payment>)
    requires history != []
    ensures var p := history[|history| - 1]; FullBurst(history) == Burst(history, SenderOf(p), p.now)
  {
    var p := history[|history| - 1];
    RecentIsBurst(history, SenderOf(p), p.now);
  }

  /** The score that the bounded scorer gives the last payment of a history. */
  function LastScore(history: seq<Payment>, windowSize: nat, maxTracked: nat): real
    requires history != []
  {
    var p := history[|history| - 1];
    Rounded(Score(Run(history, windowSize, maxTracked).amounts, AmountOf(p),
                  CountedBurst(history, windowSize, maxTracked)))
  }

  /** Under a clock that does not go back and within capacity, the last payment of a history
      is flagged exactly if the burst of its sender's whole history and its amount, on the
      scale of the last amounts, reach the threshold together. */
  lemma HistoryFlagsExactly(history: seq<Payment>, windowSize: nat, maxTracked: nat, scale: real)
    requires history != [] && ClockMonotone(history) && WithinCapacity(history, maxTracked)
    requires IsScale(scale, LastOf(AllAmounts(history), windowSize), AmountOf(history[|history| - 1]))
    ensures var amount, burst := AmountOf(history[|history| - 1]), FullBurst(history);
            LastScore(history, windowSize, maxTracked) >= 0.8 <==>
              burst >= 6 && 13_000.0 * amount >= (15_999 - 1_000 * Excess(burst)) as real * scale
  {
    hide Run, Score, Rounded, IsScale, Excess, LastOf, AllAmounts, CountedBurst, FullBurst, AmountOf;
    WindowIsLastAmounts(history, windowSize, maxTracked);
    BoundedBurstIsExact(history, windowSize, maxTracked);
    FlaggedExactly(LastOf(AllAmounts(history), windowSize), AmountOf(history[|history| - 1]), FullBurst(history),
        scale);
  }

  // ---------- what is read, and what is forgotten ----------

  /** A missing or negative amount counts as 0, a missing or empty sender as "unknown". */
  lemma Reads(p: Payment)
    ensures AmountOf(p) == if p.amount.Some? && p.amount.value >= 0.0 then p.amount.value else 0.0
    ensures SenderOf(p) == if p.from.Some? && |p.from.value| > 0 then p.from.value else "unknown"
  {
  }

  /** Entries stand in the order in which their senders were last seen. */
  ghost predicate InOrder(tracked: seq<Entry>) {
    forall i, j :: 0 <= i < j < |tracked| ==> LastSeen(tracked[i]) <= LastSeen(tracked[j])
  }

  lemma {:induction false} WithoutInOrder(tracked: seq<Entry>, sender: Sender)
    requires InOrder(tracked)
    ensures InOrder(Without(tracked, sender))
    ensures forall e :: e in Without(tracked, sender) ==> e in tracked
  {
    if tracked != [] {
      assert forall i :: 0 <= i < |tracked[1..]| ==> tracked[1..][i] == tracked[i + 1];
      if tracked[0].sender != sender {
        WithoutInOrder(tracked[1..], sender);
        PrependInOrder(tracked, Without(tracked[1..], sender));
      }
    }
  }

  lemma PrependInOrder(tracked: seq<Entry>, rest: seq<Entry>)
    requires tracked != [] && InOrder(tracked) && InOrder(rest)
    requires forall e :: e in rest ==> e in tracked[1..]
    ensures InOrder([tracked[0]] + rest)
  {
    forall j | 0 <= j < |rest| ensures LastSeen(tracked[0]) <= LastSeen(rest[j]) {
      assert rest[j] in tracked[1..];
      var k :| 0 <= k < |tracked[1..]| && tracked[1..][k] == rest[j];
      assert tracked[k + 1] == rest[j];
    }
  }

  lemma {:induction false} DropExpiredInOrder(tracked: seq<Entry>, now: int)
    requires InOrder(tracked)
    ensures InOrder(DropExpired(tracked, now))
    ensures forall e :: e in DropExpired(tracked, now) <==> e in tracked && now - LastSeen(e) < 60_000
  {
    if tracked != [] {
      assert tracked == [tracked[0]] + tracked[1..];
      DropExpiredInOrder(tracked[1..], now);
      if now - LastSeen(tracked[0]) < 60_000 {
        PrependInOrder(tracked, DropExpired(tracked[1..], now));
      }
    }
  }

  /** Of the entries offered, some are kept: all of them within the bound; otherwise those
      last seen earliest are forgotten, and live ones only down to the bound. */
  ghost predicate ForgetsOnlyColdest(offered: seq<Entry>, kept: seq<Entry>, now: int, maxTracked: nat) {
    && (forall e :: e in kept ==> e in offered)
    && (|offered| <= maxTracked ==> kept == offered)
    && (forall e, k :: e in offered && e !in kept && k in kept ==> LastSeen(e) <= LastSeen(k))
    && ((exists e :: e in offered && e !in kept && now - LastSeen(e) < 60_000) ==> |kept| == maxTracked)
  }

  lemma SuffixIsWarmest(live: seq<Entry>, cut: nat)
    requires InOrder(live) && cut <= |live|
    ensures InOrder(live[cut..]) && forall e :: e in live[cut..] ==> e in live
    ensures forall e, k :: e in live && e !in live[cut..] && k in live[cut..] ==> LastSeen(e) <= LastSeen(k)
  {
    var kept := live[cut..];
    forall m | cut <= m < |live| ensures live[m] in kept {
      assert kept[m - cut] == live[m];
    }
    forall e, k | e in live && e !in kept && k in kept ensures LastSeen(e) <= LastSeen(k) {
      var i :| 0 <= i < |live| && live[i] == e;
      var j :| 0 <= j < |kept| && kept[j] == k;
      assert live[cut + j] == k;
    }
  }

  lemma BoundForgetsColdest(tracked: seq<Entry>, now: int, maxTracked: nat)
    requires InOrder(tracked)
    ensures var kept := Bound(tracked, now, maxTracked);
            InOrder(kept) && ForgetsOnlyColdest(tracked, kept, now, maxTracked)
  {
    if |tracked| > maxTracked {
      var live := DropExpired(tracked, now);
      DropExpiredInOrder(tracked, now);
      hide DropExpired, InOrder, LastSeen;
      var kept := Bound(tracked, now, maxTracked);
      var cut := |live| - |kept|;
      assert kept == live[cut..];
      SuffixIsWarmest(live, cut);
    }
  }

  lemma BoundKeepsLast(tracked: seq<Entry>, now: int, maxTracked: nat)
    requires tracked != [] && maxTracked > 0 && LastSeen(tracked[|tracked| - 1]) == now
    ensures tracked[|tracked| - 1] in Bound(tracked, now, maxTracked)
  {
    LastStays(tracked, now);
    var live, kept := DropExpired(tracked, now), Bound(tracked, now, maxTracked);
    if |tracked| > maxTracked {
      assert kept == live[|live| - |kept|..];
      assert kept[|kept| - 1] == live[|live| - 1];
    }
  }

  lemma {:induction false} LastStays(tracked: seq<Entry>, now: int)
    requires tracked != [] && now - LastSeen(tracked[|tracked| - 1]) < 60_000
    ensures var live := DropExpired(tracked, now); live != [] && live[|live| - 1] == tracked[|tracked| - 1]
  {
    if |tracked| > 1 {
      LastStays(tracked[1..], now);
    } else {
      assert DropExpired(tracked[1..], now) == [];
    }
  }

  /** What the map would hold after a payment without a bound: the sender's entry last. */
  function Offered(s: State, p: Payment): seq<Entry> {
    Touched(s.tracked, SenderOf(p), BurstTimes(s, p))
  }

  lemma OfferedInOrder(s: State, p: Payment)
    requires InOrder(s.tracked) && forall e :: e in s.tracked ==> LastSeen(e) <= p.now
    ensures InOrder(Offered(s, p)) && LastSeen(Offered(s, p)[|Offered(s, p)| - 1]) == p.now
    ensures forall e :: e in Offered(s, p) ==> LastSeen(e) <= p.now
  {
    WithoutInOrder(s.tracked, SenderOf(p));
    var rest := Without(s.tracked, SenderOf(p));
    assert forall i :: 0 <= i < |rest| ==> rest[i] in s.tracked;
  }

  lemma {:induction false} RunInOrder(history: seq<Payment>, windowSize: nat, maxTracked: nat)
    requires ClockMonotone(history)
    ensures var tracked := Run(history, windowSize, maxTracked).tracked;
            InOrder(tracked) &&
            forall e :: e in tracked ==> history != [] && LastSeen(e) <= history[|history| - 1].now
  {
    if history != [] {
      var before, p := history[..|history| - 1], history[|history| - 1];
      RunInOrder(before, windowSize, maxTracked);
      OfferedInOrder(Run(before, windowSize, maxTracked), p);
      BoundForgetsColdest(Offered(Run(before, windowSize, maxTracked), p), p.now, maxTracked);
    }
  }

  /** Under a clock that does not go back the scorer forgets nobody within its bound, and
      beyond it always those seen longest ago, never the sender at hand. */
  lemma ForgetsColdest(history: seq<Payment>, windowSize: nat, maxTracked: nat)
    requires history != [] && ClockMonotone(history)
    ensures var p := history[|history| - 1];
            var offered := Offered(Run(history[..|history| - 1], windowSize, maxTracked), p);
            var kept := Run(history, windowSize, maxTracked).tracked;
            && ForgetsOnlyColdest(offered, kept, p.now, maxTracked)
            && (maxTracked > 0 ==> offered[|offered| - 1] in kept)
  {
    var before, p := history[..|history| - 1], history[|history| - 1];
    RunInOrder(before, windowSize, maxTracked);
    OfferedInOrder(Run(before, windowSize, maxTracked), p);
    BoundForgetsColdest(Offered(Run(before, windowSize, maxTracked), p), p.now, maxTracked);
    if maxTracked > 0 {
      BoundKeepsLast(Offered(Run(before, windowSize, maxTracked), p), p.now, maxTracked);
    }
  }
}
