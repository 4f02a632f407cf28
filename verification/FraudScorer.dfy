/** The bounded anomaly scorer for payment streams: a rolling window of amounts and, per
    sender, the payment times of the last minute, kept for a limited number of senders. */
module FraudScorer {
  import opened Wrappers

  const BURST_WINDOW_MS := 60_000

  type Sender = string

  /** One entry of the insertion-ordered sender map. */
  datatype Entry = Entry(sender: Sender, times: seq<int>)

  /** A payment as it arrives; the amount is missing when it is not a number. */
  datatype Payment = Payment(from: Option<Sender>, amount: Option<real>, now: int)

  datatype State = State(amounts: seq<real>, tracked: seq<Entry>)

  const EMPTY := State([], [])

  function SenderOf(p: Payment): Sender {
    if p.from == None || p.from.value == "" then "unknown" else p.from.value
  }

  function AmountOf(p: Payment): (a: real)
    ensures a >= 0.0
  {
    if p.amount == None || p.amount.value < 0.0 then 0.0 else p.amount.value
  }

  // ---------- the sender map ----------

  function Recent(times: seq<int>, now: int): seq<int> {
    if times == [] then []
    else
      var rest := Recent(times[..|times| - 1], now);
      var last := times[|times| - 1];
      if now - last < BURST_WINDOW_MS then rest + [last] else rest
  }

  function TimesOf(tracked: seq<Entry>, sender: Sender): seq<int> {
    if tracked == [] then []
    else if tracked[0].sender == sender then tracked[0].times
    else TimesOf(tracked[1..], sender)
  }

  function Without(tracked: seq<Entry>, sender: Sender): seq<Entry> {
    if tracked == [] then []
    else if tracked[0].sender == sender then tracked[1..]
    else [tracked[0]] + Without(tracked[1..], sender)
  }

  function LastSeen(e: Entry): int {
    if e.times == [] then 0 else e.times[|e.times| - 1]
  }

  function DropExpired(tracked: seq<Entry>, now: int): (kept: seq<Entry>)
    ensures |kept| <= |tracked|
  {
    if tracked == [] then []
    else if now - LastSeen(tracked[0]) >= BURST_WINDOW_MS then DropExpired(tracked[1..], now)
    else [tracked[0]] + DropExpired(tracked[1..], now)
  }

  /** Expired senders go first; then, if need be, the ones at the front of the map. */
  function Bound(tracked: seq<Entry>, now: int, maxTracked: nat): (kept: seq<Entry>)
    ensures |kept| <= maxTracked
  {
    if |tracked| <= maxTracked then tracked
    else
      var live := DropExpired(tracked, now);
      if |live| <= maxTracked then live else live[|live| - maxTracked..]
  }

  /** The times counted for this payment: the sender's recent ones and this one. */
  function BurstTimes(s: State, p: Payment): seq<int> {
    Recent(TimesOf(s.tracked, SenderOf(p)), p.now) + [p.now]
  }

  function NextTracked(s: State, p: Payment, maxTracked: nat): seq<Entry> {
    Bound(Without(s.tracked, SenderOf(p)) + [Entry(SenderOf(p), BurstTimes(s, p))], p.now, maxTracked)
  }

  function NextAmounts(amounts: seq<real>, amount: real, windowSize: nat): seq<real> {
    var longer := amounts + [amount];
    if |longer| > windowSize then longer[1..] else longer
  }

  function Next(s: State, p: Payment, windowSize: nat, maxTracked: nat): State {
    State(NextAmounts(s.amounts, AmountOf(p), windowSize), NextTracked(s, p, maxTracked))
  }

  // ---------- the score ----------

  function InsertReal(s: seq<real>, x: real): seq<real> {
    if s == [] || x < s[0] then [x] + s else [s[0]] + InsertReal(s[1..], x)
  }

  function SortReals(s: seq<real>): seq<real> {
    if s == [] then [] else InsertReal(SortReals(s[..|s| - 1]), s[|s| - 1])
  }

  function MinReal(a: real, b: real): real {
    if a <= b then a else b
  }

  function MaxReal(a: real, b: real): real {
    if a >= b then a else b
  }

  /** The middle of the sorted window; zero and missing values fall back to the amount, or 1. */
  function Median(amounts: seq<real>, amount: real): real {
    var sorted := SortReals(amounts);
    var middle := if |sorted| / 2 < |sorted| then sorted[|sorted| / 2] else 0.0;
    if middle != 0.0 then middle else if amount != 0.0 then amount else 1.0
  }

  function Score(amounts: seq<real>, amount: real, burst: nat): real {
    var amountSignal := MinReal(1.0, amount / MaxReal(Median(amounts, amount) * 10.0, 1.0));
    var velocitySignal := MinReal(1.0, (if burst > 3 then burst - 3 else 0) as real / 7.0);
    MinReal(1.0, amountSignal * 0.65 + velocitySignal * 0.35)
  }

  /** Four decimals; a tie goes up. */
  function Rounded(score: real): real {
    (score * 10000.0 + 0.5).Floor as real / 10000.0
  }

  lemma FloorGrows(x: real, y: real)
    requires x <= y
    ensures x.Floor <= y.Floor
  {
  }

  /** Rounding moves a score by at most half a unit of the fourth decimal, keeps it between 0
      and 1, and keeps the order of scores. */
  lemma RoundingIsHarmless(score: real, larger: real)
    requires 0.0 <= score <= larger <= 1.0
    ensures score - 0.00005 <= Rounded(score) <= score + 0.00005
    ensures 0.0 <= Rounded(score) <= Rounded(larger) <= 1.0
  {
    FloorGrows(0.5, score * 10000.0 + 0.5);
    FloorGrows(score * 10000.0 + 0.5, larger * 10000.0 + 0.5);
    FloorGrows(larger * 10000.0 + 0.5, 10000.5);
  }

  lemma ScoreInUnitInterval(amounts: seq<real>, amount: real, burst: nat)
    requires amount >= 0.0
    ensures 0.0 <= Score(amounts, amount, burst) <= 1.0
  {
    var d := MaxReal(Median(amounts, amount) * 10.0, 1.0);
    assert amount / d >= 0.0;
  }

  /** A longer burst never lowers the score. */
  lemma ScoreGrowsWithBurst(amounts: seq<real>, amount: real, burst: nat, longer: nat)
    requires burst <= longer
    ensures Score(amounts, amount, burst) <= Score(amounts, amount, longer)
  {
  }

  // ---------- runs against the full history ----------

  /** All payment times of a sender, oldest first. */
  function FullTimes(history: seq<Payment>, sender: Sender): seq<int> {
    if history == [] then []
    else
      var last := history[|history| - 1];
      var before := FullTimes(history[..|history| - 1], sender);
      if SenderOf(last) == sender then before + [last.now] else before
  }

  function Run(history: seq<Payment>, windowSize: nat, maxTracked: nat): State {
    if history == [] then EMPTY
    else Next(Run(history[..|history| - 1], windowSize, maxTracked), history[|history| - 1], windowSize, maxTracked)
  }

  /** The burst that an unbounded scorer would count for the last payment of a history. */
  function FullBurst(history: seq<Payment>): nat
    requires history != []
  {
    var last := history[|history| - 1];
    |Recent(FullTimes(history, SenderOf(last)), last.now)|
  }

  /** The burst that the bounded scorer counts for it. */
  function CountedBurst(history: seq<Payment>, windowSize: nat, maxTracked: nat): nat
    requires history != []
  {
    |BurstTimes(Run(history[..|history| - 1], windowSize, maxTracked), history[|history| - 1])|
  }

  predicate ClockMonotone(history: seq<Payment>) {
    forall i, j :: 0 <= i <= j < |history| ==> history[i].now <= history[j].now
  }

  /** The senders with a payment less than a minute before `now`. */
  function LiveSenders(history: seq<Payment>, now: int): set<Sender> {
    set i | 0 <= i < |history| && now - history[i].now < BURST_WINDOW_MS :: SenderOf(history[i])
  }

  /** At no payment of the history were more than `maxTracked` senders live. */
  ghost predicate WithinCapacity(history: seq<Payment>, maxTracked: nat) {
    forall i :: 0 <= i < |history| ==> |LiveSenders(history[..i + 1], history[i].now)| <= maxTracked
  }

  lemma {:induction false} RecentOfRecent(times: seq<int>, now: int, later: int)
    requires now <= later
    ensures Recent(Recent(times, now), later) == Recent(times, later)
  {
    if times != [] {
      var n := |times| - 1;
      RecentOfRecent(times[..n], now, later);
      if now - times[n] < BURST_WINDOW_MS {
        RecentAppend(Recent(times[..n], now), times[n], later);
      }
    }
  }

  lemma RecentAppend(times: seq<int>, t: int, now: int)
    ensures Recent(times + [t], now) ==
            if now - t < BURST_WINDOW_MS then Recent(times, now) + [t] else Recent(times, now)
  {
    assert (times + [t])[..|times|] == times;
  }

  lemma {:induction false} RecentMembers(times: seq<int>, now: int, t: int)
    ensures t in Recent(times, now) <==> t in times && now - t < BURST_WINDOW_MS
  {
    if times != [] {
      var n := |times| - 1;
      RecentMembers(times[..n], now, t);
      assert times == times[..n] + [times[n]];
    }
  }

  lemma {:induction false} AllExpired(times: seq<int>, now: int)
    requires forall t :: t in times ==> now - t >= BURST_WINDOW_MS
    ensures Recent(times, now) == []
  {
    if times != [] {
      var n := |times| - 1;
      assert times[n] in times && forall t :: t in times[..n] ==> t in times;
      AllExpired(times[..n], now);
    }
  }

  // ---------- what the map knows ----------

  predicate DistinctSenders(tracked: seq<Entry>) {
    forall i, j :: 0 <= i < j < |tracked| ==> tracked[i].sender != tracked[j].sender
  }

  /** Every entry holds times, none later than its last one. */
  ghost predicate WellTimed(tracked: seq<Entry>) {
    forall i :: 0 <= i < |tracked| ==>
      tracked[i].times != [] && forall t :: t in tracked[i].times ==> t <= LastSeen(tracked[i])
  }

  lemma {:induction false} TimesOfEntry(tracked: seq<Entry>, i: nat)
    requires DistinctSenders(tracked) && i < |tracked|
    ensures TimesOf(tracked, tracked[i].sender) == tracked[i].times
  {
    if i > 0 {
      assert tracked[0].sender != tracked[i].sender;
      TimesOfEntry(tracked[1..], i - 1);
    }
  }

  lemma {:induction false} TimesOfUntracked(tracked: seq<Entry>, sender: Sender)
    requires forall i :: 0 <= i < |tracked| ==> tracked[i].sender != sender
    ensures TimesOf(tracked, sender) == []
  {
    if tracked != [] {
      TimesOfUntracked(tracked[1..], sender);
    }
  }

  lemma DistinctWithHead(head: Entry, rest: seq<Entry>)
    requires DistinctSenders(rest) && forall e :: e in rest ==> e.sender != head.sender
    ensures DistinctSenders([head] + rest)
  {
    assert forall k :: 0 <= k < |rest| ==> rest[k] in rest;
  }

  lemma {:induction false} WithoutFacts(tracked: seq<Entry>, sender: Sender)
    requires DistinctSenders(tracked)
    ensures forall e :: e in Without(tracked, sender) <==> e in tracked && e.sender != sender
    ensures DistinctSenders(Without(tracked, sender))
  {
    if tracked != [] {
      assert tracked == [tracked[0]] + tracked[1..];
      if tracked[0].sender != sender {
        WithoutFacts(tracked[1..], sender);
        var rest := Without(tracked[1..], sender);
        DistinctWithHead(tracked[0], rest);
      }
    }
  }

  lemma {:induction false} DropExpiredFacts(tracked: seq<Entry>, now: int)
    requires DistinctSenders(tracked)
    ensures forall e :: e in DropExpired(tracked, now) <==> e in tracked && now - LastSeen(e) < BURST_WINDOW_MS
    ensures DistinctSenders(DropExpired(tracked, now))
  {
    if tracked != [] {
      assert tracked == [tracked[0]] + tracked[1..];
      DropExpiredFacts(tracked[1..], now);
      var rest := DropExpired(tracked[1..], now);
      if now - LastSeen(tracked[0]) < BURST_WINDOW_MS {
        DistinctWithHead(tracked[0], rest);
      }
    }
  }

  /** In a list with distinct senders, an entry that is present gives its sender's times. */
  lemma TimesOfMember(tracked: seq<Entry>, e: Entry)
    requires DistinctSenders(tracked) && e in tracked
    ensures TimesOf(tracked, e.sender) == e.times
  {
    var i :| 0 <= i < |tracked| && tracked[i] == e;
    TimesOfEntry(tracked, i);
  }

  /** Either the sender has an entry or it has no times. */
  lemma TrackedOrNot(tracked: seq<Entry>, sender: Sender)
    requires DistinctSenders(tracked)
    ensures TimesOf(tracked, sender) == [] || Entry(sender, TimesOf(tracked, sender)) in tracked
  {
    if i :| 0 <= i < |tracked| && tracked[i].sender == sender {
      TimesOfEntry(tracked, i);
    } else {
      TimesOfUntracked(tracked, sender);
    }
  }

  /** A proper map none of whose entries is later than `clock`. */
  ghost predicate Shaped(tracked: seq<Entry>, clock: int) {
    && DistinctSenders(tracked) && WellTimed(tracked)
    && forall e :: e in tracked ==> LastSeen(e) <= clock
  }

  /** From `clock` on, the map shows of every sender exactly what its full history shows. */
  ghost predicate Faithful(tracked: seq<Entry>, history: seq<Payment>, clock: int) {
    && Shaped(tracked, clock)
    && forall sender, now :: now >= clock ==>
         Recent(TimesOf(tracked, sender), now) == Recent(FullTimes(history, sender), now)
  }

  function Touched(tracked: seq<Entry>, sender: Sender, times: seq<int>): seq<Entry> {
    Without(tracked, sender) + [Entry(sender, times)]
  }

  lemma TouchedFacts(tracked: seq<Entry>, sender: Sender, times: seq<int>, other: Sender)
    requires DistinctSenders(tracked)
    ensures DistinctSenders(Touched(tracked, sender, times))
    ensures TimesOf(Touched(tracked, sender, times), other) ==
            if other == sender then times else TimesOf(tracked, other)
  {
    var touched := Touched(tracked, sender, times);
    WithoutFacts(tracked, sender);
    assert forall k :: 0 <= k < |Without(tracked, sender)| ==> Without(tracked, sender)[k] in Without(tracked, sender);
    assert touched[|touched| - 1] == Entry(sender, times);
    if other == sender {
      TimesOfMember(touched, Entry(sender, times));
    } else {
      TrackedOrNot(tracked, other);
      TrackedOrNot(touched, other);
      if TimesOf(tracked, other) != [] {
        assert Entry(other, TimesOf(tracked, other)) in Without(tracked, sender);
        TimesOfMember(touched, Entry(other, TimesOf(tracked, other)));
      } else if TimesOf(touched, other) != [] {
        assert Entry(other, TimesOf(touched, other)) in Without(tracked, sender);
        TimesOfMember(tracked, Entry(other, TimesOf(touched, other)));
      }
    }
  }

  lemma FullTimesStep(history: seq<Payment>, p: Payment, sender: Sender)
    ensures FullTimes(history + [p], sender) ==
              if SenderOf(p) == sender then FullTimes(history, sender) + [p.now] else FullTimes(history, sender)
  {
    assert (history + [p])[..|history|] == history;
  }

  lemma TouchIsShaped(tracked: seq<Entry>, clock: int, x: Sender, now: int)
    requires Shaped(tracked, clock) && clock <= now
    ensures Shaped(Touched(tracked, x, Recent(TimesOf(tracked, x), now) + [now]), now)
  {
    var known := TimesOf(tracked, x);
    var times := Recent(known, now) + [now];
    var touched := Touched(tracked, x, times);
    TouchedFacts(tracked, x, times, x);
    WithoutFacts(tracked, x);
    forall e | e in touched
      ensures LastSeen(e) <= now && e.times != [] && forall t :: t in e.times ==> t <= LastSeen(e)
    {
      if e.sender == x {
        assert e == Entry(x, times);
        TrackedOrNot(tracked, x);
        forall t | t in times ensures t <= now {
          RecentMembers(known, now, t);
          if t != now {
            assert Entry(x, known) in tracked;
          }
        }
      } else {
        assert e in tracked;
        var i :| 0 <= i < |tracked| && tracked[i] == e;
      }
    }
    assert forall i :: 0 <= i < |touched| ==> touched[i] in touched;
  }

  /** Recording the payment itself keeps the map faithful and counts the full burst. */
  lemma TouchIsFaithful(tracked: seq<Entry>, history: seq<Payment>, clock: int, p: Payment)
    requires Faithful(tracked, history, clock) && clock <= p.now
    ensures var times := Recent(TimesOf(tracked, SenderOf(p)), p.now) + [p.now];
            && times == Recent(FullTimes(history + [p], SenderOf(p)), p.now)
            && Faithful(Touched(tracked, SenderOf(p), times), history + [p], p.now)
  {
    var x := SenderOf(p);
    var known := TimesOf(tracked, x);
    var times := Recent(known, p.now) + [p.now];
    TouchIsShaped(tracked, clock, x, p.now);
    FullTimesStep(history, p, x);
    RecentAppend(FullTimes(history, x), p.now, p.now);
    forall sender, now | now >= p.now
      ensures Recent(TimesOf(Touched(tracked, x, times), sender), now) == Recent(FullTimes(history + [p], sender), now)
    {
      TouchedFacts(tracked, x, times, sender);
      FullTimesStep(history, p, sender);
      if sender == x {
        RecentAppend(Recent(known, p.now), p.now, now);
        RecentOfRecent(known, p.now, now);
        RecentAppend(FullTimes(history, x), p.now, now);
      }
    }
  }

  lemma DropExpiredTimes(tracked: seq<Entry>, now: int, later: int, sender: Sender)
    requires DistinctSenders(tracked) && WellTimed(tracked) && now <= later
    ensures Recent(TimesOf(DropExpired(tracked, now), sender), later) == Recent(TimesOf(tracked, sender), later)
  {
    var kept := DropExpired(tracked, now);
    DropExpiredFacts(tracked, now);
    TrackedOrNot(tracked, sender);
    TrackedOrNot(kept, sender);
    var e := Entry(sender, TimesOf(tracked, sender));
    if e in tracked && now - LastSeen(e) < BURST_WINDOW_MS {
      TimesOfMember(kept, e);
    } else if TimesOf(kept, sender) != [] {
      TimesOfMember(tracked, Entry(sender, TimesOf(kept, sender)));
    } else if e in tracked {
      var i :| 0 <= i < |tracked| && tracked[i] == e;
      AllExpired(e.times, later);
    }
  }

  lemma DropExpiredIsShaped(tracked: seq<Entry>, now: int)
    requires Shaped(tracked, now)
    ensures Shaped(DropExpired(tracked, now), now)
  {
    var kept := DropExpired(tracked, now);
    DropExpiredFacts(tracked, now);
    forall i | 0 <= i < |kept|
      ensures kept[i].times != [] && forall t :: t in kept[i].times ==> t <= LastSeen(kept[i])
    {
      assert kept[i] in kept;
      var j :| 0 <= j < |tracked| && tracked[j] == kept[i];
    }
  }

  lemma DropExpiredIsFaithful(tracked: seq<Entry>, history: seq<Payment>, now: int)
    requires Faithful(tracked, history, now)
    ensures Faithful(DropExpired(tracked, now), history, now)
  {
    DropExpiredIsShaped(tracked, now);
    forall sender, later | later >= now
      ensures Recent(TimesOf(DropExpired(tracked, now), sender), later) == Recent(FullTimes(history, sender), later)
    {
      DropExpiredTimes(tracked, now, later, sender);
    }
  }

  lemma {:induction false} InFullTimes(history: seq<Payment>, sender: Sender, t: int)
    requires t in FullTimes(history, sender)
    ensures exists i :: 0 <= i < |history| && SenderOf(history[i]) == sender && history[i].now == t
  {
    var n := |history| - 1;
    if !(SenderOf(history[n]) == sender && history[n].now == t) {
      assert t in FullTimes(history[..n], sender);
      InFullTimes(history[..n], sender, t);
      var i :| 0 <= i < n && SenderOf(history[..n][i]) == sender && history[..n][i].now == t;
      assert history[i] == history[..n][i];
    }
  }

  /** A sender that survives the expiry pass is live. */
  lemma KeptIsLive(tracked: seq<Entry>, history: seq<Payment>, now: int, e: Entry)
    requires Faithful(tracked, history, now) && e in DropExpired(tracked, now)
    ensures e.sender in LiveSenders(history, now)
  {
    DropExpiredFacts(tracked, now);
    var i :| 0 <= i < |tracked| && tracked[i] == e;
    TimesOfEntry(tracked, i);
    assert LastSeen(e) in e.times;
    RecentMembers(e.times, now, LastSeen(e));
    RecentMembers(FullTimes(history, e.sender), now, LastSeen(e));
    InFullTimes(history, e.sender, LastSeen(e));
  }

  lemma {:induction false} DistinctSendersCount(tracked: seq<Entry>, senders: set<Sender>)
    requires DistinctSenders(tracked)
    requires forall i :: 0 <= i < |tracked| ==> tracked[i].sender in senders
    ensures |tracked| <= |senders|
  {
    if tracked != [] {
      var n := |tracked| - 1;
      var rest := senders - {tracked[n].sender};
      forall i | 0 <= i < n ensures tracked[..n][i].sender in rest {
        assert tracked[i].sender != tracked[n].sender;
      }
      DistinctSendersCount(tracked[..n], rest);
    }
  }

  /** Within capacity the hard eviction never strikes, so bounding the map forgets nothing. */
  lemma BoundIsFaithful(tracked: seq<Entry>, history: seq<Payment>, now: int, maxTracked: nat)
    requires Faithful(tracked, history, now)
    requires |LiveSenders(history, now)| <= maxTracked
    ensures Faithful(Bound(tracked, now, maxTracked), history, now)
  {
    if |tracked| > maxTracked {
      var kept := DropExpired(tracked, now);
      DropExpiredIsFaithful(tracked, history, now);
      forall i | 0 <= i < |kept| ensures kept[i].sender in LiveSenders(history, now) {
        KeptIsLive(tracked, history, now, kept[i]);
      }
      DistinctSendersCount(kept, LiveSenders(history, now));
    }
  }

  lemma StepIsFaithful(s: State, before: seq<Payment>, clock: int, p: Payment, windowSize: nat, maxTracked: nat)
    requires Faithful(s.tracked, before, clock) && clock <= p.now
    requires |LiveSenders(before + [p], p.now)| <= maxTracked
    ensures BurstTimes(s, p) == Recent(FullTimes(before + [p], SenderOf(p)), p.now)
    ensures Faithful(Next(s, p, windowSize, maxTracked).tracked, before + [p], p.now)
  {
    TouchIsFaithful(s.tracked, before, clock, p);
    BoundIsFaithful(Touched(s.tracked, SenderOf(p), BurstTimes(s, p)), before + [p], p.now, maxTracked);
  }

  /** The clock before the last payment, which for a first payment is its own. */
  function ClockBefore(history: seq<Payment>): int
    requires history != []
  {
    if |history| == 1 then history[0].now else history[|history| - 2].now
  }

  lemma CapacityOfPrefix(history: seq<Payment>, maxTracked: nat)
    requires history != [] && WithinCapacity(history, maxTracked)
    ensures WithinCapacity(history[..|history| - 1], maxTracked)
    ensures |LiveSenders(history, history[|history| - 1].now)| <= maxTracked
  {
    var n := |history| - 1;
    var before := history[..n];
    assert history[..n + 1] == history;
    forall i | 0 <= i < |before| ensures |LiveSenders(before[..i + 1], before[i].now)| <= maxTracked {
      assert before[..i + 1] == history[..i + 1] && before[i] == history[i];
    }
  }

  lemma {:induction false} RunIsFaithful(history: seq<Payment>, windowSize: nat, maxTracked: nat, clock: int)
    requires ClockMonotone(history) && WithinCapacity(history, maxTracked)
    requires history != [] ==> clock == history[|history| - 1].now
    ensures Faithful(Run(history, windowSize, maxTracked).tracked, history, clock)
  {
    if history != [] {
      var before, p := history[..|history| - 1], history[|history| - 1];
      assert before + [p] == history;
      CapacityOfPrefix(history, maxTracked);
      RunIsFaithful(before, windowSize, maxTracked, ClockBefore(history));
      StepIsFaithful(Run(before, windowSize, maxTracked), before, ClockBefore(history), p, windowSize, maxTracked);
    }
  }

  /** With a clock that never goes back, and as long as no minute sees more live senders than
      the map may hold, the bounded scorer counts for every payment exactly the burst that the
      sender's whole history gives. */
  lemma BoundedBurstIsExact(history: seq<Payment>, windowSize: nat, maxTracked: nat)
    requires history != [] && ClockMonotone(history) && WithinCapacity(history, maxTracked)
    ensures CountedBurst(history, windowSize, maxTracked) == FullBurst(history)
  {
    var before, p := history[..|history| - 1], history[|history| - 1];
    assert before + [p] == history;
    CapacityOfPrefix(history, maxTracked);
    RunIsFaithful(before, windowSize, maxTracked, ClockBefore(history));
    StepIsFaithful(Run(before, windowSize, maxTracked), before, ClockBefore(history), p, windowSize, maxTracked);
  }

  // ---------- bounds that hold whatever arrives ----------

  /** The map never outgrows its bound. */
  lemma MapIsBounded(history: seq<Payment>, windowSize: nat, maxTracked: nat)
    ensures |Run(history, windowSize, maxTracked).tracked| <= maxTracked
  {
  }

  function AllAmounts(history: seq<Payment>): seq<real> {
    seq(|history|, i requires 0 <= i < |history| => AmountOf(history[i]))
  }

  function LastOf<T>(s: seq<T>, n: nat): seq<T> {
    if |s| > n then s[|s| - n..] else s
  }

  /** The amount window always holds the last `windowSize` amounts. */
  lemma {:induction false} WindowIsLastAmounts(history: seq<Payment>, windowSize: nat, maxTracked: nat)
    ensures Run(history, windowSize, maxTracked).amounts == LastOf(AllAmounts(history), windowSize)
  {
    if history != [] {
      var n := |history| - 1;
      WindowIsLastAmounts(history[..n], windowSize, maxTracked);
      assert AllAmounts(history) == AllAmounts(history[..n]) + [AmountOf(history[n])];
    }
  }

  /** What is left of a sender after hard eviction: all of its entry or nothing. */
  lemma SuffixTimes(tracked: seq<Entry>, k: nat, sender: Sender)
    requires DistinctSenders(tracked) && k <= |tracked|
    ensures DistinctSenders(tracked[k..])
    ensures TimesOf(tracked[k..], sender) == [] || TimesOf(tracked[k..], sender) == TimesOf(tracked, sender)
  {
    TrackedOrNot(tracked[k..], sender);
    var e := Entry(sender, TimesOf(tracked[k..], sender));
    if e in tracked[k..] {
      TimesOfMember(tracked, e);
    }
  }

  /** The map shows at most what the full history shows. */
  ghost predicate Undercounts(tracked: seq<Entry>, history: seq<Payment>, clock: int) {
    && Shaped(tracked, clock)
    && forall sender, now :: now >= clock ==>
         |Recent(TimesOf(tracked, sender), now)| <= |Recent(FullTimes(history, sender), now)|
  }

  lemma TouchUndercounts(tracked: seq<Entry>, history: seq<Payment>, clock: int, p: Payment)
    requires Undercounts(tracked, history, clock) && clock <= p.now
    ensures var times := Recent(TimesOf(tracked, SenderOf(p)), p.now) + [p.now];
            && |times| <= |Recent(FullTimes(history + [p], SenderOf(p)), p.now)|
            && Undercounts(Touched(tracked, SenderOf(p), times), history + [p], p.now)
  {
    var x := SenderOf(p);
    var known := TimesOf(tracked, x);
    var times := Recent(known, p.now) + [p.now];
    TouchIsShaped(tracked, clock, x, p.now);
    FullTimesStep(history, p, x);
    RecentAppend(FullTimes(history, x), p.now, p.now);
    forall sender, now | now >= p.now
      ensures |Recent(TimesOf(Touched(tracked, x, times), sender), now)| <=
          |Recent(FullTimes(history + [p], sender), now)|
    {
      TouchedFacts(tracked, x, times, sender);
      FullTimesStep(history, p, sender);
      if sender == x {
        RecentAppend(Recent(known, p.now), p.now, now);
        RecentOfRecent(known, p.now, now);
        RecentAppend(FullTimes(history, x), p.now, now);
      }
    }
  }

  lemma BoundUndercounts(tracked: seq<Entry>, history: seq<Payment>, now: int, maxTracked: nat)
    requires Undercounts(tracked, history, now)
    ensures Undercounts(Bound(tracked, now, maxTracked), history, now)
  {
    if |tracked| > maxTracked {
      var live := DropExpired(tracked, now);
      DropExpiredIsShaped(tracked, now);
      var k := if |live| <= maxTracked then 0 else |live| - maxTracked;
      assert live[k..] == Bound(tracked, now, maxTracked);
      SuffixTimes(live, k, "");
      forall sender, later | later >= now
        ensures |Recent(TimesOf(live[k..], sender), later)| <= |Recent(FullTimes(history, sender), later)|
      {
        DropExpiredTimes(tracked, now, later, sender);
        SuffixTimes(live, k, sender);
      }
    }
  }

  lemma StepUndercounts(s: State, before: seq<Payment>, clock: int, p: Payment, windowSize: nat, maxTracked: nat)
    requires Undercounts(s.tracked, before, clock) && clock <= p.now
    ensures |BurstTimes(s, p)| <= |Recent(FullTimes(before + [p], SenderOf(p)), p.now)|
    ensures Undercounts(Next(s, p, windowSize, maxTracked).tracked, before + [p], p.now)
  {
    TouchUndercounts(s.tracked, before, clock, p);
    BoundUndercounts(Touched(s.tracked, SenderOf(p), BurstTimes(s, p)), before + [p], p.now, maxTracked);
  }

  lemma {:induction false} RunUndercounts(history: seq<Payment>, windowSize: nat, maxTracked: nat, clock: int)
    requires ClockMonotone(history)
    requires history != [] ==> clock == history[|history| - 1].now
    ensures Undercounts(Run(history, windowSize, maxTracked).tracked, history, clock)
  {
    if history != [] {
      var before, p := history[..|history| - 1], history[|history| - 1];
      assert before + [p] == history;
      RunUndercounts(before, windowSize, maxTracked, ClockBefore(history));
      StepUndercounts(Run(before, windowSize, maxTracked), before, ClockBefore(history), p, windowSize, maxTracked);
    }
  }

  /** Even beyond capacity the scorer never counts a payment that is not in the sender's last
      minute: bounding the map can hide a burst but not invent one. */
  lemma BoundedBurstNeverTooHigh(history: seq<Payment>, windowSize: nat, maxTracked: nat)
    requires history != [] && ClockMonotone(history)
    ensures CountedBurst(history, windowSize, maxTracked) <= FullBurst(history)
  {
    var before, p := history[..|history| - 1], history[|history| - 1];
    assert before + [p] == history;
    RunUndercounts(before, windowSize, maxTracked, ClockBefore(history));
    StepUndercounts(Run(before, windowSize, maxTracked), before, ClockBefore(history), p, windowSize, maxTracked);
  }

  // ---------- the scorer on stored fields ----------

  class Scorer {
    const windowSize: nat
    const maxTrackedSenders: nat
    var amounts: seq<real>
    var recentSenders: seq<Entry>

    ghost function Now(): State
      reads this
    {
      State(amounts, recentSenders)
    }

    constructor (windowSize: nat, maxTrackedSenders: nat)
      ensures this.windowSize == windowSize && this.maxTrackedSenders == maxTrackedSenders && Now() == EMPTY
    {
      this.windowSize, this.maxTrackedSenders := windowSize, maxTrackedSenders;
      amounts, recentSenders := [], [];
    }

    method FilterRecent(times: seq<int>, now: int) returns (recent: seq<int>)
      ensures recent == Recent(times, now)
    {
      recent := [];
      for i := 0 to |times|
        invariant recent == Recent(times[..i], now)
      {
        assert times[..i + 1][..i] == times[..i];
        if now - times[i] < BURST_WINDOW_MS {
          recent := recent + [times[i]];
        }
      }
      assert times[..|times|] == times;
    }

    /** Walks the map in its order and deletes expired senders on the way. */
    method DeleteExpired(now: int)
      modifies this`recentSenders
      ensures recentSenders == DropExpired(old(recentSenders), now)
    {
      ghost var kept: seq<Entry>, rest := [], recentSenders;
      var i := 0;
      while i < |recentSenders|
        invariant i == |kept| && recentSenders == kept + rest
        invariant kept + DropExpired(rest, now) == DropExpired(old(recentSenders), now)
        decreases |rest|
      {
        var entry := recentSenders[i];
        assert entry == rest[0];
        if now - LastSeen(entry) >= BURST_WINDOW_MS {
          recentSenders := recentSenders[..i] + recentSenders[i + 1..];
          rest := rest[1..];
        } else {
          assert kept + ([entry] + DropExpired(rest[1..], now)) == (kept + [entry]) + DropExpired(rest[1..], now);
          kept, rest := kept + [entry], rest[1..];
          i := i + 1;
        }
      }
      assert rest == [];
    }

    /** Deletes expired senders, then the oldest entries while there are too many. */
    method EvictSenders(now: int)
      modifies this`recentSenders
      ensures recentSenders == Bound(old(recentSenders), now, maxTrackedSenders)
    {
      if |recentSenders| > maxTrackedSenders {
        DeleteExpired(now);
        ghost var live := recentSenders;
        while |recentSenders| > maxTrackedSenders
          invariant |recentSenders| <= |live| && recentSenders == live[|live| - |recentSenders|..]
          invariant |recentSenders| == |live| || |recentSenders| >= maxTrackedSenders
        {
          recentSenders := recentSenders[1..];
        }
      }
    }

    /** Scores one payment: the score lies between 0 and 1 and is the one that the rolling
        amounts and the counted burst give, to four decimals. */
    method ScorePayment(p: Payment) returns (score: real)
      modifies this
      ensures Now() == Next(old(Now()), p, windowSize, maxTrackedSenders)
      ensures score == Rounded(Score(amounts, AmountOf(p), |BurstTimes(old(Now()), p)|))
      ensures 0.0 <= score <= 1.0
    {
      var amount := AmountOf(p);
      var sender := SenderOf(p);
      var recent := FilterRecent(TimesOf(recentSenders, sender), p.now);
      recent := recent + [p.now];
      recentSenders := Without(recentSenders, sender) + [Entry(sender, recent)];
      EvictSenders(p.now);
      amounts := amounts + [amount];
      if |amounts| > windowSize {
        amounts := amounts[1..];
      }
      var median := Median(amounts, amount);
      var amountSignal := MinReal(1.0, amount / MaxReal(median * 10.0, 1.0));
      var velocitySignal := MinReal(1.0, (if |recent| > 3 then |recent| - 3 else 0) as real / 7.0);
      var exact := MinReal(1.0, amountSignal * 0.65 + velocitySignal * 0.35);
      score := Rounded(exact);
      ScoreInUnitInterval(amounts, amount, |recent|);
      RoundingIsHarmless(exact, exact);
    }
  }
}
