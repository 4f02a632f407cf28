/** The per-sender record of the payment router: the 24-hour spending window, the lifetime
    volume and the flag bitmap, packed into 72 bytes, with the older split entries that a
    sender may still have. */
module UserRecord {
  import opened OctetValues
  import opened Wrappers

  const U64_LIMIT: int := 0x1_0000_0000_0000_0000
  const I128_HALF: int := 0x8000_0000_0000_0000_0000_0000_0000_0000
  const DAILY_MAX_LIMIT: int := 10_000_000_000_000
  const VOLUME_THRESHOLD: int := 100_000_000_000
  const SECONDS_IN_24H: int := 86_400

  type Octets = seq<Octet>
  type Flags = s: Octets | |s| == 32 witness seq(32, _ => 0)
  type Packed = s: Octets | |s| == 72 witness seq(72, _ => 0)
  type PackedSpending = s: Octets | |s| == 24 witness seq(24, _ => 0)
  type U64 = x: int | 0 <= x < U64_LIMIT
  type I128 = x: int | -I128_HALF <= x < I128_HALF

  function NoFlags(): Flags {
    seq(32, _ => 0)
  }

  datatype View = View(lastResetTime: U64, accumulated: I128, volume: I128, flags: Flags)

  // ---------- big-endian integers ----------

  function Pow256(n: nat): (p: nat)
    ensures p > 0
  {
    if n == 0 then 1 else 256 * Pow256(n - 1)
  }

  function ToBytes(x: nat, n: nat): (s: Octets)
    ensures |s| == n
  {
    if n == 0 then [] else ToBytes(x / 256, n - 1) + [LowByte(x)]
  }

  function FromBytes(s: Octets): nat {
    if s == [] then 0 else FromBytes(s[..|s| - 1]) * 256 + s[|s| - 1] as int
  }

  lemma {:induction false} FromToBytes(x: nat, n: nat)
    requires x < Pow256(n)
    ensures FromBytes(ToBytes(x, n)) == x
  {
    if n > 0 {
      var high, low := x / 256, LowByte(x);
      FromToBytes(high, n - 1);
      OctetValue(x % 256);
      FromBytesSnoc(ToBytes(high, n - 1), low);
      assert ToBytes(x, n) == ToBytes(high, n - 1) + [low];
    }
  }

  function LowByte(x: nat): Octet {
    (x % 256) as bv8
  }

  lemma FromBytesSnoc(s: Octets, b: Octet)
    ensures FromBytes(s + [b]) == FromBytes(s) * 256 + b as int
  {
    assert (s + [b])[..|s|] == s;
  }

  lemma {:induction false} ToFromBytes(s: Octets)
    ensures FromBytes(s) < Pow256(|s|)
    ensures ToBytes(FromBytes(s), |s|) == s
  {
    if s != [] {
      var n := |s| - 1;
      ToFromBytes(s[..n]);
      assert s == s[..n] + [s[n]];
      assert FromBytes(s) / 256 == FromBytes(s[..n]);
    }
  }

  lemma Widths()
    ensures Pow256(8) == U64_LIMIT && Pow256(16) == 2 * I128_HALF
  {
    assert Pow256(4) == 0x1_0000_0000;
    assert Pow256(8) == 0x1_0000_0000_0000_0000;
    assert Pow256(12) == 0x1_0000_0000_0000_0000_0000_0000;
    assert Pow256(16) == 0x1_0000_0000_0000_0000_0000_0000_0000_0000;
  }

  /** Two's complement in 16 bytes. */
  function SignedToBytes(x: I128): (s: Octets)
    ensures |s| == 16
  {
    ToBytes(if x < 0 then x + 2 * I128_HALF else x, 16)
  }

  function SignedFromBytes(s: Octets): (x: I128)
    requires |s| == 16
  {
    ToFromBytes(s);
    Widths();
    var v := FromBytes(s);
    if v >= I128_HALF then v - 2 * I128_HALF else v
  }

  function TimeFromBytes(s: Octets): (x: U64)
    requires |s| == 8
  {
    ToFromBytes(s);
    Widths();
    FromBytes(s)
  }

  lemma SignedRoundTrip(x: I128)
    ensures SignedFromBytes(SignedToBytes(x)) == x
  {
    Widths();
    FromToBytes(if x < 0 then x + 2 * I128_HALF else x, 16);
  }

  lemma SignedBytesRoundTrip(s: Octets)
    requires |s| == 16
    ensures SignedToBytes(SignedFromBytes(s)) == s
  {
    Widths();
    ToFromBytes(s);
  }

  // ---------- packing ----------

  function Pack(v: View): Packed {
    ToBytes(v.lastResetTime, 8) + SignedToBytes(v.accumulated) + SignedToBytes(v.volume) + v.flags
  }

  function Unpack(p: Packed): View {
    View(TimeFromBytes(p[..8]), SignedFromBytes(p[8..24]), SignedFromBytes(p[24..40]), p[40..72])
  }

  function UnpackLegacySpending(p: PackedSpending): (U64, I128) {
    (TimeFromBytes(p[..8]), SignedFromBytes(p[8..24]))
  }

  /** Packing loses nothing, negative amounts included. */
  lemma UnpackPack(v: View)
    ensures Unpack(Pack(v)) == v
  {
    var p := Pack(v);
    assert p[..8] == ToBytes(v.lastResetTime, 8);
    assert p[8..24] == SignedToBytes(v.accumulated);
    assert p[24..40] == SignedToBytes(v.volume);
    assert p[40..72] == v.flags;
    Widths();
    FromToBytes(v.lastResetTime, 8);
    SignedRoundTrip(v.accumulated);
    SignedRoundTrip(v.volume);
  }

  /** Every 72-byte value is the packing of exactly one record. */
  lemma PackUnpack(p: Packed)
    ensures Pack(Unpack(p)) == p
  {
    ToFromBytes(p[..8]);
    SignedBytesRoundTrip(p[8..24]);
    SignedBytesRoundTrip(p[24..40]);
    assert p == p[..8] + p[8..24] + p[24..40] + p[40..72];
  }

  /** The byte at `i` of a big-endian number. */
  lemma {:induction false} ByteAt(x: nat, n: nat, i: nat)
    requires i < n
    ensures ToBytes(x, n)[i] as int == x / Pow256(n - 1 - i) % 256
  {
    OctetValue(x % 256);
    if i < n - 1 {
      ByteAt(x / 256, n - 1, i);
      DivideTwice(x, Pow256(n - 2 - i));
    } else {
      assert x / Pow256(0) == x;
    }
  }

  lemma DivideTwice(x: nat, d: nat)
    requires d > 0
    ensures x / 256 / d == x / (256 * d)
  {
    var high, low := x / 256, x % 256;
    var k, r := high / d, high % d;
    assert high == d * k + r;
    Regroup(d, k);
    assert x == (256 * d) * k + (256 * r + low);
    QuotientIs(256 * d, k, 256 * r + low);
  }

  lemma Regroup(d: nat, k: nat)
    ensures (256 * d) * k == 256 * (d * k)
  {
  }

  lemma QuotientIs(d: nat, q: nat, r: nat)
    requires r < d
    ensures (d * q + r) / d == q
  {
    var n := d * q + r;
    var k := n / d;
    assert n == d * k + n % d;
    if k < q {
      Multiples(d, k, q);
    } else if k > q {
      Multiples(d, q, k);
    }
  }

  lemma Multiples(d: nat, low: int, high: int)
    requires low < high
    ensures d * low + d <= d * high
  {
    assert d * (high - low - 1) >= 0;
    assert d * high == d * low + d + d * (high - low - 1);
  }

  /** Where the fields stand in a packed record: 8 bytes of time, 16 each of window total and
      lifetime volume in two's complement, most significant byte first, and 32 of flags. */
  lemma PackLayout(v: View, i: nat)
    ensures i < 8 ==> Pack(v)[i] as int == v.lastResetTime / Pow256(7 - i) % 256
    ensures i < 16 ==> Pack(v)[8 + i] as int == Unsigned(v.accumulated) / Pow256(15 - i) % 256
    ensures i < 16 ==> Pack(v)[24 + i] as int == Unsigned(v.volume) / Pow256(15 - i) % 256
    ensures i < 32 ==> Pack(v)[40 + i] == v.flags[i]
  {
    if i < 8 {
      ByteAt(v.lastResetTime, 8, i);
    }
    if i < 16 {
      ByteAt(Unsigned(v.accumulated), 16, i);
      ByteAt(Unsigned(v.volume), 16, i);
    }
  }

  function Unsigned(x: I128): nat {
    if x >= 0 then x else x + 0x1_0000_0000_0000_0000_0000_0000_0000_0000
  }

  // ---------- flags ----------

  function FlagGet(flags: Flags, bit: Octet): bool {
    (flags[(bit / 8) as int] >> (bit % 8)) & 1 == 1
  }

  function SetInByte(b: Octet, offset: Octet, val: bool): Octet
    requires offset < 8
  {
    if val then b | (1 << offset) else b & !(1 << offset)
  }

  function FlagSet(flags: Flags, bit: Octet, val: bool): Flags {
    flags[(bit / 8) as int := SetInByte(flags[(bit / 8) as int], bit % 8, val)]
  }

  lemma BitInByte(b: Octet, o: Octet, p: Octet)
    requires o < 8 && p < 8
    ensures (SetInByte(b, o, true) >> p) & 1 == 1 <==> o == p || (b >> p) & 1 == 1
    ensures (SetInByte(b, o, false) >> p) & 1 == 1 <==> o != p && (b >> p) & 1 == 1
  {
  }

  lemma BitAddress(bit: Octet, other: Octet)
    ensures bit / 8 == other / 8 && bit % 8 == other % 8 <==> bit == other
    ensures bit % 8 < 8
  {
  }

  lemma SameByte(bit: Octet, other: Octet)
    ensures (bit / 8) as int == (other / 8) as int <==> bit / 8 == other / 8
  {
  }

  /** Setting a flag sets that flag and changes no other. */
  lemma FlagSetExact(flags: Flags, bit: Octet, val: bool, other: Octet)
    ensures FlagGet(FlagSet(flags, bit, val), other) == if other == bit then val else FlagGet(flags, other)
  {
    BitAddress(bit, other);
    BitAddress(other, bit);
    SameByte(bit, other);
    BitInByte(flags[(bit / 8) as int], bit % 8, other % 8);
  }

  /** Flag `bit` is the one that the mask for bit `bit % 8` selects in byte `bit / 8`. */
  lemma FlagIsMasked(flags: Flags, bit: Octet)
    ensures FlagGet(flags, bit) <==> flags[bit as int / 8] & (1 << (bit % 8)) != 0
  {
    assert bit % 8 < 8;
    ByteIndex(bit);
    ShiftIsMask(flags[(bit / 8) as int], bit % 8);
  }

  lemma ByteIndex(bit: Octet)
    ensures (bit / 8) as int == bit as int / 8
  {
  }

  lemma ShiftIsMask(b: Octet, o: Octet)
    requires o < 8
    ensures (b >> o) & 1 == 1 <==> b & (1 << o) != 0
  {
  }

  // ---------- the ledger entries of one sender ----------

  datatype Error = LimitExceeded | ClockTrap

  /** The packed record and the two older entries, each present or not. */
  datatype Entries = Entries(
    record: Option<Packed>, legacySpending: Option<PackedSpending>, legacyVolume: Option<I128>)

  function LegacyVolume(e: Entries): I128 {
    if e.legacyVolume.Some? then e.legacyVolume.value else 0
  }

  function LegacyFound(e: Entries): bool {
    e.legacySpending.Some? || LegacyVolume(e) != 0
  }

  /** The record that the older entries amount to at a given time. */
  function LegacyView(e: Entries, now: U64): View {
    if e.legacySpending.Some? then
      var spending := UnpackLegacySpending(e.legacySpending.value);
      View(spending.0, spending.1, LegacyVolume(e), NoFlags())
    else View(now, 0, LegacyVolume(e), NoFlags())
  }

  /** What a reader sees; it prefers the packed record. */
  function Load(e: Entries, now: U64): View {
    if e.record.Some? then Unpack(e.record.value) else LegacyView(e, now)
  }

  function SetFlag(e: Entries, now: U64, bit: Octet, val: bool): Entries {
    var v := Load(e, now);
    e.(record := Some(Pack(v.(flags := FlagSet(v.flags, bit, val)))))
  }

  function SaturatingAdd(a: I128, b: I128): I128 {
    if a + b >= I128_HALF then I128_HALF - 1
    else if a + b < -I128_HALF then -I128_HALF
    else a + b
  }

  /** The window a payment at `now` falls into: the stored one, or a new one after a day. */
  function CurrentWindow(v: View, now: U64): View {
    if now - v.lastResetTime >= SECONDS_IN_24H then v.(lastResetTime := now, accumulated := 0) else v
  }

  /** Books a payment in a record. A clock that stands before the window start makes the
      subtraction trap. */
  function Book(v: View, now: U64, amount: I128): Result<View, Error> {
    if now < v.lastResetTime then Err(ClockTrap)
    else
      var w := CurrentWindow(v, now);
      if w.accumulated + amount >= I128_HALF || w.accumulated + amount < -I128_HALF then Err(LimitExceeded)
      else if w.accumulated + amount > DAILY_MAX_LIMIT then Err(LimitExceeded)
      else Ok(w.(accumulated := w.accumulated + amount, volume := SaturatingAdd(v.volume, amount)))
  }

  /** Books a payment and returns the volume before it. */
  function Accrue(e: Entries, now: U64, amount: I128): Result<(Entries, I128), Error> {
    var v := Load(e, now);
    match Book(v, now, amount)
    case Err(error) => Err(error)
    case Ok(booked) =>
      var cleaned := if e.record == None && LegacyFound(e)
                     then e.(legacySpending := None, legacyVolume := None) else e;
      Ok((cleaned.(record := Some(Pack(booked))), v.volume))
  }

  /** Recombines the older entries into a packed record unless there already is one. */
  function Migrate(e: Entries, now: U64): (Entries, bool) {
    if !LegacyFound(e) then (e, false)
    else
      var record := if e.record.Some? then e.record else Some(Pack(LegacyView(e, now)));
      (Entries(record, None, None), true)
  }

  /** What a reader sees of a sender: the packed record; without one, a window from the older
      spending entry, 8 bytes of time and 16 of amount as in a packed record, with the older
      volume; and without that entry, a window that begins now. */
  lemma ReaderSees(e: Entries, now: U64, v: View)
    ensures e.record == Some(Pack(v)) ==> Load(e, now) == v
    ensures e.record == None && e.legacySpending.Some? && e.legacySpending.value == Pack(v)[..24] ==>
              && Load(e, now).lastResetTime == v.lastResetTime && Load(e, now).accumulated == v.accumulated
              && Load(e, now).volume == LegacyVolume(e) && Load(e, now).flags == seq(32, _ => 0)
    ensures e.record == None && e.legacySpending == None ==>
              Load(e, now) == View(now, 0, LegacyVolume(e), seq(32, _ => 0))
    ensures LegacyVolume(e) == match e.legacyVolume { case Some(volume) => volume case None => 0 }
  {
    UnpackPack(v);
    assert Pack(v)[..24][..8] == Pack(v)[..8] && Pack(v)[..24][8..24] == Pack(v)[8..24];
  }

  // ---------- flags and migration seen through the record ----------

  /** An accepted payment is seen, at any time, as it was booked. */
  lemma BookedIsSeen(e: Entries, now: U64, amount: I128, later: U64)
    requires Accrue(e, now, amount).Ok?
    ensures Load(Accrue(e, now, amount).value.0, later) == Book(Load(e, now), now, amount).value
  {
    UnpackPack(Book(Load(e, now), now, amount).value);
  }

  /** Setting a flag leaves the counters of the view alone. */
  lemma SetFlagKeepsCounters(e: Entries, now: U64, later: U64, bit: Octet, val: bool)
    ensures Load(SetFlag(e, now, bit, val), later) ==
              Load(e, now).(flags := FlagSet(Load(e, now).flags, bit, val))
  {
    var v := Load(e, now);
    UnpackPack(v.(flags := FlagSet(v.flags, bit, val)));
  }

  /** Migration changes nothing that a reader sees at that time, and migrating again, at any
      time, does nothing. */
  lemma MigrationIsInvisible(e: Entries, now: U64, later: U64)
    ensures Load(Migrate(e, now).0, now) == Load(e, now)
    ensures Migrate(Migrate(e, now).0, later) == (Migrate(e, now).0, false)
  {
    UnpackPack(LegacyView(e, now));
  }

  /** A sender whose only older entry is a non-zero volume has no window yet. */
  predicate WindowUnstarted(e: Entries) {
    e.record == None && e.legacySpending == None && LegacyVolume(e) != 0
  }

  /** Migrating at `t` and paying at `now` accepts the same payment with the same discount
      volume as paying directly. Both leave the same view except when the migration started,
      less than a day before, a window that there had not been. */
  lemma MigrateThenAccrue(e: Entries, t: U64, now: U64, amount: I128)
    requires t <= now
    ensures var direct := Accrue(e, now, amount);
            var migrated := Accrue(Migrate(e, t).0, now, amount);
            && (direct.Ok? <==> migrated.Ok?)
            && (direct.Err? ==> direct == migrated)
            && (direct.Ok? ==>
                  && direct.value.1 == migrated.value.1
                  && (Load(direct.value.0, now) == Load(migrated.value.0, now) <==>
                        !(WindowUnstarted(e) && t < now < t + SECONDS_IN_24H)))
  {
    UnpackPack(LegacyView(e, t));
    var v, m := Load(e, now), Load(Migrate(e, t).0, now);
    assert m == if WindowUnstarted(e) then v.(lastResetTime := t) else v;
    if Book(v, now, amount).Ok? {
      UnpackPack(Book(v, now, amount).value);
      UnpackPack(Book(m, now, amount).value);
    }
  }

  // ---------- the daily limit over any 24 hours ----------

  datatype Op = OpAccrue(amount: I128) | OpSetFlag(bit: Octet, val: bool) | OpMigrate

  /** A payment that was accepted. */
  datatype Payment = Payment(at: int, amount: int)

  function Step(e: Entries, now: U64, op: Op): Entries {
    match op
    case OpAccrue(amount) => (match Accrue(e, now, amount) case Ok((t, _)) => t case Err(_) => e)
    case OpSetFlag(bit, val) => SetFlag(e, now, bit, val)
    case OpMigrate => Migrate(e, now).0
  }

  function Accepted(e: Entries, now: U64, op: Op): seq<Payment> {
    if op.OpAccrue? && Accrue(e, now, op.amount).Ok? then [Payment(now, op.amount)] else []
  }

  /** The entries after a run, and the payments it accepted, oldest first. */
  function Run(start: Entries, calls: seq<(U64, Op)>): (Entries, seq<Payment>) {
    if calls == [] then (start, [])
    else
      var (e, paid) := Run(start, calls[..|calls| - 1]);
      var (now, op) := calls[|calls| - 1];
      (Step(e, now, op), paid + Accepted(e, now, op))
  }

  /** What was paid from `low` on and before `high`. */
  function PaidBetween(paid: seq<Payment>, low: int, high: int): int {
    if paid == [] then 0
    else
      var last := paid[|paid| - 1];
      PaidBetween(paid[..|paid| - 1], low, high) + if low <= last.at < high then last.amount else 0
  }

  /** What was paid in the 24 hours from `x` on. */
  function PaidInDay(paid: seq<Payment>, x: int): int {
    PaidBetween(paid, x, x + SECONDS_IN_24H)
  }

  ghost predicate Positive(paid: seq<Payment>) {
    forall i :: 0 <= i < |paid| ==> paid[i].amount > 0
  }

  lemma {:induction false} PaidSplits(paid: seq<Payment>, low: int, mid: int, high: int)
    requires low <= mid <= high
    ensures PaidBetween(paid, low, high) == PaidBetween(paid, low, mid) + PaidBetween(paid, mid, high)
  {
    if paid != [] {
      PaidSplits(paid[..|paid| - 1], low, mid, high);
    }
  }

  lemma {:induction false} PaidInside(paid: seq<Payment>, low: int, high: int, outerLow: int, outerHigh: int)
    requires outerLow <= low && high <= outerHigh && Positive(paid)
    ensures 0 <= PaidBetween(paid, low, high) <= PaidBetween(paid, outerLow, outerHigh)
  {
    if paid != [] {
      PaidInside(paid[..|paid| - 1], low, high, outerLow, outerHigh);
    }
  }

  lemma {:induction false} PaidBefore(paid: seq<Payment>, low: int, high: int)
    requires forall i :: 0 <= i < |paid| ==> paid[i].at < low
    ensures PaidBetween(paid, low, high) == 0
  {
    if paid != [] {
      PaidBefore(paid[..|paid| - 1], low, high);
    }
  }

  predicate HasWindow(e: Entries) {
    e.record.Some? || e.legacySpending.Some?
  }

  /** The accepted payments seen from a window start: all lie before its end, those inside it
      are covered by the stored total, and so is the day before. */
  ghost predicate WindowCovers(v: View, paid: seq<Payment>) {
    var start := v.lastResetTime;
    && v.accumulated >= 0
    && (forall i :: 0 <= i < |paid| ==> paid[i].at < start + SECONDS_IN_24H)
    && PaidBetween(paid, start, start + SECONDS_IN_24H) <= v.accumulated
    && PaidBetween(paid, start, start + SECONDS_IN_24H) <= DAILY_MAX_LIMIT
    && PaidBetween(paid, start - SECONDS_IN_24H, start) <= DAILY_MAX_LIMIT
  }

  /** No 24 hours, wherever they start, saw more than twice the limit. */
  ghost predicate TwiceTheLimit(paid: seq<Payment>) {
    forall x :: PaidInDay(paid, x) <= 2 * DAILY_MAX_LIMIT
  }

  ghost predicate Covered(e: Entries, paid: seq<Payment>) {
    && Positive(paid) && TwiceTheLimit(paid)
    && (if HasWindow(e) then WindowCovers(Load(e, 0), paid) else paid == [])
  }

  lemma LoadIgnoresClock(e: Entries, now: U64, later: U64)
    requires HasWindow(e)
    ensures Load(e, now) == Load(e, later)
  {
  }

  /** Opening a new window a day or more after the old one began. */
  lemma CoverAfterReset(v: View, paid: seq<Payment>, now: U64)
    requires WindowCovers(v, paid) && Positive(paid) && now >= v.lastResetTime
    ensures WindowCovers(CurrentWindow(v, now), paid)
    ensures CurrentWindow(v, now).lastResetTime <= now < CurrentWindow(v, now).lastResetTime + SECONDS_IN_24H
  {
    if now - v.lastResetTime >= SECONDS_IN_24H {
      PaidBefore(paid, now, now + SECONDS_IN_24H);
      PaidBefore(paid, v.lastResetTime + SECONDS_IN_24H, now);
      PaidSplits(paid, v.lastResetTime, v.lastResetTime + SECONDS_IN_24H, now);
      PaidInside(paid, now - SECONDS_IN_24H, now, v.lastResetTime, now);
    }
  }

  lemma PaidAppend(paid: seq<Payment>, p: Payment, low: int, high: int)
    ensures PaidBetween(paid + [p], low, high) ==
              PaidBetween(paid, low, high) + if low <= p.at < high then p.amount else 0
  {
    assert (paid + [p])[..|paid|] == paid;
  }

  /** Any 24 hours around a moment of the window consist of a part of the window and a part of
      the day before it, or of a part of the window and nothing. */
  lemma DayAroundWindow(paid: seq<Payment>, start: int, now: int, x: int)
    requires Positive(paid)
    requires start <= now < start + SECONDS_IN_24H && x <= now < x + SECONDS_IN_24H
    requires forall i :: 0 <= i < |paid| ==> paid[i].at < start + SECONDS_IN_24H
    ensures PaidInDay(paid, x) <= PaidInDay(paid, start - SECONDS_IN_24H) + PaidInDay(paid, start)
  {
    PaidInside(paid, start, start, start - SECONDS_IN_24H, start);
    if x <= start {
      PaidSplits(paid, x, start, x + SECONDS_IN_24H);
      PaidInside(paid, start, x + SECONDS_IN_24H, start, start + SECONDS_IN_24H);
      PaidInside(paid, x, start, start - SECONDS_IN_24H, start);
    } else {
      PaidSplits(paid, x, start + SECONDS_IN_24H, x + SECONDS_IN_24H);
      PaidInside(paid, x, start + SECONDS_IN_24H, start, start + SECONDS_IN_24H);
      PaidBefore(paid, start + SECONDS_IN_24H, x + SECONDS_IN_24H);
    }
  }

  lemma PayKeepsWindow(w: View, paid: seq<Payment>, now: U64, amount: I128)
    requires WindowCovers(w, paid)
    requires w.lastResetTime <= now < w.lastResetTime + SECONDS_IN_24H
    requires 0 < amount && w.accumulated + amount <= DAILY_MAX_LIMIT
    ensures WindowCovers(w.(accumulated := w.accumulated + amount), paid + [Payment(now, amount)])
  {
    var start, p := w.lastResetTime, Payment(now, amount);
    PaidAppend(paid, p, start, start + SECONDS_IN_24H);
    PaidAppend(paid, p, start - SECONDS_IN_24H, start);
  }

  /** A payment inside the current window keeps any 24 hours within twice the limit. */
  lemma PayInWindow(w: View, paid: seq<Payment>, now: U64, amount: I128)
    requires WindowCovers(w, paid) && Positive(paid) && TwiceTheLimit(paid)
    requires w.lastResetTime <= now < w.lastResetTime + SECONDS_IN_24H
    requires 0 < amount && w.accumulated + amount <= DAILY_MAX_LIMIT
    ensures TwiceTheLimit(paid + [Payment(now, amount)])
    ensures WindowCovers(w.(accumulated := w.accumulated + amount), paid + [Payment(now, amount)])
  {
    var longer := paid + [Payment(now, amount)];
    PayKeepsWindow(w, paid, now, amount);
    forall x ensures PaidInDay(longer, x) <= 2 * DAILY_MAX_LIMIT {
      if x <= now < x + SECONDS_IN_24H {
        DayAroundWindow(longer, w.lastResetTime, now, x);
      } else {
        assert PaidInDay(paid, x) <= 2 * DAILY_MAX_LIMIT;
        PaidAppend(paid, Payment(now, amount), x, x + SECONDS_IN_24H);
      }
    }
  }

  lemma AccrueKeepsCover(e: Entries, now: U64, amount: I128, paid: seq<Payment>)
    requires Covered(e, paid) && amount > 0 && Accrue(e, now, amount).Ok?
    ensures Covered(Accrue(e, now, amount).value.0, paid + [Payment(now, amount)])
  {
    var v := Load(e, now);
    if HasWindow(e) {
      LoadIgnoresClock(e, now, 0);
    }
    assert WindowCovers(v, paid);
    CoverAfterReset(v, paid, now);
    PayInWindow(CurrentWindow(v, now), paid, now, amount);
    BookedIsSeen(e, now, amount, 0);
    assert Accrue(e, now, amount).value.0.record.Some?;
  }

  lemma SetFlagKeepsCover(e: Entries, now: U64, bit: Octet, val: bool, paid: seq<Payment>)
    requires Covered(e, paid)
    ensures Covered(SetFlag(e, now, bit, val), paid)
  {
    var f := SetFlag(e, now, bit, val);
    SetFlagKeepsCounters(e, now, 0, bit, val);
    if HasWindow(e) {
      LoadIgnoresClock(e, now, 0);
      CoverIgnoresFlags(Load(e, 0), Load(f, 0), paid);
    } else {
      assert WindowCovers(Load(f, 0), []);
    }
  }

  lemma CoverIgnoresFlags(v: View, w: View, paid: seq<Payment>)
    requires WindowCovers(v, paid) && w.lastResetTime == v.lastResetTime && w.accumulated == v.accumulated
    ensures WindowCovers(w, paid)
  {
  }

  lemma MigrateKeepsCover(e: Entries, now: U64, paid: seq<Payment>)
    requires Covered(e, paid)
    ensures Covered(Migrate(e, now).0, paid)
  {
    var m := Migrate(e, now).0;
    UnpackPack(LegacyView(e, now));
    if HasWindow(e) {
      LoadIgnoresClock(e, now, 0);
      assert Load(m, 0) == Load(e, 0);
    }
  }

  lemma StepKeepsCover(e: Entries, now: U64, op: Op, paid: seq<Payment>)
    requires Covered(e, paid) && (op.OpAccrue? ==> op.amount > 0)
    ensures Covered(Step(e, now, op), paid + Accepted(e, now, op))
  {
    assert paid + [] == paid;
    match op {
      case OpAccrue(amount) =>
        if Accrue(e, now, amount).Ok? {
          AccrueKeepsCover(e, now, amount, paid);
        }
      case OpSetFlag(bit, val) => SetFlagKeepsCover(e, now, bit, val, paid);
      case OpMigrate => MigrateKeepsCover(e, now, paid);
    }
  }

  /** Across every run of payments, flag updates and migrations, however the clock moves,
      what one sender gets accepted in any 24 hours, aligned with the window or not, is at
      most twice the daily limit. */
  lemma {:induction false} AnyDayWithinTwiceTheLimit(start: Entries, calls: seq<(U64, Op)>)
    requires Load(start, 0).accumulated >= 0
    requires forall i :: 0 <= i < |calls| && calls[i].1.OpAccrue? ==> calls[i].1.amount > 0
    ensures Covered(Run(start, calls).0, Run(start, calls).1)
    ensures TwiceTheLimit(Run(start, calls).1)
  {
    if calls != [] {
      var n := |calls| - 1;
      AnyDayWithinTwiceTheLimit(start, calls[..n]);
      StepKeepsCover(Run(start, calls[..n]).0, calls[n].0, calls[n].1, Run(start, calls[..n]).1);
    }
  }

  /** After an accepted payment the stored window total is within the limit. */
  lemma StoredTotalWithinLimit(e: Entries, now: U64, amount: I128)
    requires Accrue(e, now, amount).Ok?
    ensures Load(Accrue(e, now, amount).value.0, now).accumulated <= DAILY_MAX_LIMIT
  {
    BookedIsSeen(e, now, amount, now);
  }

  /** An empty window takes the full limit at its very end and, a second later, as a new
      window, the full limit again. */
  lemma FullLimitTwice(e: Entries, late: U64)
    requires late + 1 < U64_LIMIT
    requires forall now :: Load(e, now).lastResetTime == late + 1 - SECONDS_IN_24H && Load(e, now).accumulated == 0
    ensures Accrue(e, late, DAILY_MAX_LIMIT).Ok?
    ensures Accrue(Accrue(e, late, DAILY_MAX_LIMIT).value.0, late + 1, DAILY_MAX_LIMIT).Ok?
  {
    BookedIsSeen(e, late, DAILY_MAX_LIMIT, late + 1);
    var booked := Book(Load(e, late), late, DAILY_MAX_LIMIT).value;
    assert booked.lastResetTime == late + 1 - SECONDS_IN_24H;
    assert Book(booked, late + 1, DAILY_MAX_LIMIT).Ok?;
  }

  /** A run of three calls, call by call. */
  lemma RunOfThree(start: Entries, calls: seq<(U64, Op)>)
    requires |calls| == 3
    ensures var e := Step(start, calls[0].0, calls[0].1);
            var f := Step(e, calls[1].0, calls[1].1);
            Run(start, calls).1 == Accepted(start, calls[0].0, calls[0].1) + Accepted(e, calls[1].0, calls[1].1)
                                   + Accepted(f, calls[2].0, calls[2].1)
  {
    hide Step, Accepted;
    var none: seq<(U64, Op)> := [];
    RunStep(start, none, calls[0]);
    RunStep(start, calls[..1], calls[1]);
    RunStep(start, calls[..2], calls[2]);
    assert Run(start, none) == (start, []);
    assert calls[..1] == none + [calls[0]] && calls[..2] == calls[..1] + [calls[1]] && calls == calls[..2] + [calls[2]];
    var first := Accepted(start, calls[0].0, calls[0].1);
    assert [] + first == first;
  }

  lemma TwoPayments(start: Entries, calls: seq<(U64, Op)>, e: Entries, first: U64, second: U64, amount: I128)
    requires |calls| == 3 && calls[0].1.OpSetFlag? && Step(start, calls[0].0, calls[0].1) == e
    requires calls[1] == (first, OpAccrue(amount)) && calls[2] == (second, OpAccrue(amount))
    requires Accrue(e, first, amount).Ok? && Accrue(Accrue(e, first, amount).value.0, second, amount).Ok?
    ensures Run(start, calls).1 == [Payment(first, amount), Payment(second, amount)]
  {
    RunOfThree(start, calls);
    assert [] + [Payment(first, amount)] + [Payment(second, amount)] ==
        [Payment(first, amount), Payment(second, amount)];
  }

  lemma TwoInOneDay(first: int, second: int, amount: int, x: int)
    requires x <= first <= second < x + SECONDS_IN_24H
    ensures PaidInDay([Payment(first, amount), Payment(second, amount)], x) == 2 * amount
  {
    PaidAppend([], Payment(first, amount), x, x + SECONDS_IN_24H);
    PaidAppend([] + [Payment(first, amount)], Payment(second, amount), x, x + SECONDS_IN_24H);
    assert [] + [Payment(first, amount)] + [Payment(second, amount)] ==
             [Payment(first, amount), Payment(second, amount)];
  }

  /** The bound is reached, so the limit does not hold over sliding days: a sender whose window
      began at `now` gets twice the limit accepted within one second. */
  lemma TwiceTheLimitIsReached(now: U64, calls: seq<(U64, Op)>)
    requires now + SECONDS_IN_24H < U64_LIMIT
    requires |calls| == 3 && calls[0] == (now, OpSetFlag(0, true))
    requires calls[1] == (now + SECONDS_IN_24H - 1, OpAccrue(DAILY_MAX_LIMIT))
    requires calls[2] == (now + SECONDS_IN_24H, OpAccrue(DAILY_MAX_LIMIT))
    ensures PaidInDay(Run(Entries(None, None, None), calls).1, now + 1) == 2 * DAILY_MAX_LIMIT
  {
    var start := Entries(None, None, None);
    var late: U64, next: U64 := now + SECONDS_IN_24H - 1, now + SECONDS_IN_24H;
    var paid := [Payment(late, DAILY_MAX_LIMIT), Payment(next, DAILY_MAX_LIMIT)];
    var e := Step(start, now, calls[0].1);
    FlagOpensWindow(now);
    FullLimitTwice(e, late);
    TwoPayments(start, calls, e, late, next, DAILY_MAX_LIMIT);
    TwoInOneDay(late, next, DAILY_MAX_LIMIT, now + 1);
  }

  /** Setting a flag of a new sender starts its window. */
  lemma FlagOpensWindow(now: U64)
    ensures var e := SetFlag(Entries(None, None, None), now, 0, true);
            forall t :: Load(e, t).lastResetTime == now && Load(e, t).accumulated == 0
  {
    forall t ensures Load(SetFlag(Entries(None, None, None), now, 0, true), t).lastResetTime == now
                     && Load(SetFlag(Entries(None, None, None), now, 0, true), t).accumulated == 0 {
      SetFlagKeepsCounters(Entries(None, None, None), now, t, 0, true);
    }
  }

  lemma RunStep(start: Entries, calls: seq<(U64, Op)>, call: (U64, Op))
    ensures Run(start, calls + [call]) ==
              (Step(Run(start, calls).0, call.0, call.1),
               Run(start, calls).1 + Accepted(Run(start, calls).0, call.0, call.1))
  {
    assert (calls + [call])[..|calls|] == calls;
  }

  // ---------- when sliding days keep the limit ----------

  ghost predicate EveryDayWithinLimit(paid: seq<Payment>) {
    forall x :: PaidInDay(paid, x) <= DAILY_MAX_LIMIT
  }

  /** What was accepted less than a day before `now` in windows before the current one. */
  function CarriedOver(e: Entries, now: U64, paid: seq<Payment>): int {
    PaidBetween(paid, now + 1 - SECONDS_IN_24H, CurrentWindow(Load(e, now), now).lastResetTime)
  }

  /** The payment, if accepted, fits into what the current window and the days that it shares
      with earlier windows leave of the limit. */
  predicate HasRoom(e: Entries, paid: seq<Payment>, now: U64, op: Op) {
    Accepted(e, now, op) != [] ==>
      CarriedOver(e, now, paid) + CurrentWindow(Load(e, now), now).accumulated + op.amount <= DAILY_MAX_LIMIT
  }

  /** Whether call `n` of a run has room. */
  predicate HasRoomAt(start: Entries, calls: seq<(U64, Op)>, n: nat)
    requires n < |calls|
  {
    HasRoom(Run(start, calls[..n]).0, Run(start, calls[..n]).1, calls[n].0, calls[n].1)
  }

  ghost predicate AlwaysHasRoom(start: Entries, calls: seq<(U64, Op)>) {
    forall n :: 0 <= n < |calls| ==> HasRoomAt(start, calls, n)
  }

  ghost predicate ClockAdvances(calls: seq<(U64, Op)>) {
    forall i, j :: 0 <= i < j < |calls| ==> calls[i].0 <= calls[j].0
  }

  /** The stored total is exactly what the current window accepted, and nothing is later than
      `last`. */
  ghost predicate Exact(e: Entries, paid: seq<Payment>, last: int) {
    && Positive(paid)
    && (forall i :: 0 <= i < |paid| ==> paid[i].at <= last)
    && (if HasWindow(e) then
          && (forall i :: 0 <= i < |paid| ==> paid[i].at < Load(e, 0).lastResetTime + SECONDS_IN_24H)
          && PaidBetween(paid, Load(e, 0).lastResetTime, last + 1) == Load(e, 0).accumulated
        else paid == [])
  }

  lemma {:induction false} NothingLater(paid: seq<Payment>, low: int, high: int, higher: int)
    requires high <= higher && forall i :: 0 <= i < |paid| ==> paid[i].at < high
    ensures PaidBetween(paid, low, higher) == PaidBetween(paid, low, high)
    decreases |paid|
  {
    if paid != [] {
      NothingLater(paid[..|paid| - 1], low, high, higher);
    }
  }

  /** At the time of a payment, the current window holds exactly what was accepted in it. */
  lemma CurrentWindowIsExact(e: Entries, paid: seq<Payment>, last: int, now: U64)
    requires Exact(e, paid, last) && last <= now && Load(e, now).lastResetTime <= now
    ensures var w := CurrentWindow(Load(e, now), now);
            && w.lastResetTime <= now < w.lastResetTime + SECONDS_IN_24H
            && PaidBetween(paid, w.lastResetTime, now + 1) == w.accumulated
            && forall i :: 0 <= i < |paid| ==> paid[i].at < w.lastResetTime + SECONDS_IN_24H
  {
    var v, w := Load(e, now), CurrentWindow(Load(e, now), now);
    if HasWindow(e) {
      LoadIgnoresClock(e, now, 0);
      NothingLater(paid, v.lastResetTime, last + 1, now + 1);
      if w != v {
        PaidBefore(paid, now, now + 1);
      }
    }
  }

  /** So the day that ends with a payment stays within the limit exactly if there is room. */
  lemma RoomIsDayEndingHere(e: Entries, paid: seq<Payment>, last: int, now: U64, amount: I128)
    requires Exact(e, paid, last) && last <= now && amount > 0 && Accrue(e, now, amount).Ok?
    ensures HasRoom(e, paid, now, OpAccrue(amount)) <==>
              PaidInDay(paid + [Payment(now, amount)], now + 1 - SECONDS_IN_24H) <= DAILY_MAX_LIMIT
  {
    CurrentWindowIsExact(e, paid, last, now);
    var w := CurrentWindow(Load(e, now), now);
    PaidSplits(paid, now + 1 - SECONDS_IN_24H, w.lastResetTime, now + 1);
    PaidAppend(paid, Payment(now, amount), now + 1 - SECONDS_IN_24H, now + 1);
  }

  lemma ExactAfterPayment(e: Entries, paid: seq<Payment>, last: int, now: U64, amount: I128)
    requires Exact(e, paid, last) && last <= now && amount > 0 && Accrue(e, now, amount).Ok?
    ensures Exact(Accrue(e, now, amount).value.0, paid + [Payment(now, amount)], now)
  {
    CurrentWindowIsExact(e, paid, last, now);
    BookedIsSeen(e, now, amount, 0);
    var w := CurrentWindow(Load(e, now), now);
    PaidAppend(paid, Payment(now, amount), w.lastResetTime, now + 1);
    assert Accrue(e, now, amount).value.0.record.Some?;
  }

  /** The window of `f` is that of `e`, or a new and empty one. */
  ghost predicate SameWindow(e: Entries, f: Entries) {
    if HasWindow(e) then
      && HasWindow(f) && Load(f, 0).lastResetTime == Load(e, 0).lastResetTime
      && Load(f, 0).accumulated == Load(e, 0).accumulated
    else HasWindow(f) ==> Load(f, 0).accumulated == 0
  }

  lemma ExactCarries(e: Entries, f: Entries, paid: seq<Payment>, last: int, now: int)
    requires Exact(e, paid, last) && last <= now && SameWindow(e, f)
    ensures Exact(f, paid, now)
  {
    if HasWindow(e) {
      NothingLater(paid, Load(e, 0).lastResetTime, last + 1, now + 1);
    }
  }

  lemma SetFlagKeepsWindow(e: Entries, now: U64, bit: Octet, val: bool)
    ensures SameWindow(e, SetFlag(e, now, bit, val))
  {
    SetFlagKeepsCounters(e, now, 0, bit, val);
    if HasWindow(e) {
      LoadIgnoresClock(e, now, 0);
    }
  }

  lemma MigrateKeepsWindow(e: Entries, now: U64)
    ensures SameWindow(e, Migrate(e, now).0)
  {
    UnpackPack(LegacyView(e, now));
  }

  lemma ExactAfterStep(e: Entries, paid: seq<Payment>, last: int, now: U64, op: Op)
    requires Exact(e, paid, last) && last <= now && (op.OpAccrue? ==> op.amount > 0)
    ensures Exact(Step(e, now, op), paid + Accepted(e, now, op), now)
  {
    hide Exact, Load, Accrue;
    assert paid + [] == paid;
    if op.OpAccrue? && Accrue(e, now, op.amount).Ok? {
      ExactAfterPayment(e, paid, last, now, op.amount);
    } else {
      match op {
        case OpAccrue(_) => ExactCarries(e, e, paid, last, now);
        case OpSetFlag(bit, val) =>
          SetFlagKeepsWindow(e, now, bit, val);
          ExactCarries(e, SetFlag(e, now, bit, val), paid, last, now);
        case OpMigrate =>
          MigrateKeepsWindow(e, now);
          ExactCarries(e, Migrate(e, now).0, paid, last, now);
      }
    }
  }

  /** One more payment keeps all days within the limit exactly if they were and the day that
      ends with it is. */
  lemma DaysAfterPayment(paid: seq<Payment>, now: int, amount: int)
    requires Positive(paid) && amount > 0 && forall i :: 0 <= i < |paid| ==> paid[i].at <= now
    ensures var longer := paid + [Payment(now, amount)];
            EveryDayWithinLimit(longer) <==>
            EveryDayWithinLimit(paid) && PaidInDay(longer, now + 1 - SECONDS_IN_24H) <= DAILY_MAX_LIMIT
  {
    var p := Payment(now, amount);
    var longer, day := paid + [p], now + 1 - SECONDS_IN_24H;
    forall x ensures PaidInDay(paid, x) <= PaidInDay(longer, x) {
      PaidAppend(paid, p, x, x + SECONDS_IN_24H);
    }
    if EveryDayWithinLimit(longer) {
      forall x ensures PaidInDay(paid, x) <= DAILY_MAX_LIMIT {
        assert PaidInDay(longer, x) <= DAILY_MAX_LIMIT;
      }
    }
    if EveryDayWithinLimit(paid) && PaidInDay(longer, day) <= DAILY_MAX_LIMIT {
      forall x ensures PaidInDay(longer, x) <= DAILY_MAX_LIMIT {
        if x <= now < x + SECONDS_IN_24H {
          NothingLater(longer, x, now + 1, x + SECONDS_IN_24H);
          PaidInside(longer, x, now + 1, day, now + 1);
        } else {
          PaidAppend(paid, p, x, x + SECONDS_IN_24H);
          assert PaidInDay(paid, x) <= DAILY_MAX_LIMIT;
        }
      }
    }
  }

  lemma NoPayments(start: Entries)
    ensures EveryDayWithinLimit([]) && AlwaysHasRoom(start, [])
  {
  }

  lemma DaysAfterStep(e: Entries, paid: seq<Payment>, last: int, now: U64, op: Op)
    requires Exact(e, paid, last) && last <= now && (op.OpAccrue? ==> op.amount > 0)
    ensures EveryDayWithinLimit(paid + Accepted(e, now, op)) <==>
              EveryDayWithinLimit(paid) && HasRoom(e, paid, now, op)
  {
    hide Accrue, EveryDayWithinLimit;
    if op.OpAccrue? && Accrue(e, now, op.amount).Ok? {
      RoomIsDayEndingHere(e, paid, last, now, op.amount);
      DaysAfterPayment(paid, now, op.amount);
    } else {
      assert paid + [] == paid;
    }
  }

  /** For a sender whose window, if it has one, is still empty: over every run under a clock
      that does not go back, the limit holds in every 24 hours exactly if each accepted payment
      fits, together with what the last day carried over from earlier windows. */
  lemma {:induction false} SlidingDaysExactly(start: Entries, calls: seq<(U64, Op)>)
    requires HasWindow(start) ==> Load(start, 0).accumulated == 0
    requires ClockAdvances(calls)
    requires forall i :: 0 <= i < |calls| && calls[i].1.OpAccrue? ==> calls[i].1.amount > 0
    ensures Exact(Run(start, calls).0, Run(start, calls).1, if calls == [] then 0 else calls[|calls| - 1].0)
    ensures EveryDayWithinLimit(Run(start, calls).1) <==> AlwaysHasRoom(start, calls)
  {
    hide Step, Accepted, HasRoom, EveryDayWithinLimit, AlwaysHasRoom;
    if calls == [] {
      NoPayments(start);
    }
    if calls != [] {
      var n := |calls| - 1;
      var (now, op) := calls[n];
      var (e, paid) := Run(start, calls[..n]);
      SlidingDaysExactly(start, calls[..n]);
      var last := if n == 0 then 0 else calls[n - 1].0;
      ExactAfterStep(e, paid, last, now, op);
      RoomUnfolds(start, calls);
      DaysAfterStep(e, paid, last, now, op);
    }
  }

  lemma RoomUnfolds(start: Entries, calls: seq<(U64, Op)>)
    requires calls != []
    ensures AlwaysHasRoom(start, calls) <==>
              AlwaysHasRoom(start, calls[..|calls| - 1]) && HasRoomAt(start, calls, |calls| - 1)
  {
    hide HasRoom, Run;
    var shorter := calls[..|calls| - 1];
    forall k: nat | k < |shorter| ensures HasRoomAt(start, shorter, k) <==> HasRoomAt(start, calls, k) {
      assert shorter[..k] == calls[..k];
    }
  }

  /** Nothing was accepted in the day before the window opened that a payment now falls into. */
  predicate QuietBefore(e: Entries, paid: seq<Payment>, now: U64) {
    var began := CurrentWindow(Load(e, now), now).lastResetTime;
    PaidBetween(paid, began - SECONDS_IN_24H, began) == 0
  }

  /** In particular it holds if nothing was accepted in the day before any window opened. */
  lemma QuietDaysKeepTheLimit(start: Entries, calls: seq<(U64, Op)>)
    requires HasWindow(start) ==> Load(start, 0).accumulated == 0
    requires ClockAdvances(calls)
    requires forall i :: 0 <= i < |calls| && calls[i].1.OpAccrue? ==> calls[i].1.amount > 0
    requires forall n :: 0 <= n < |calls| ==>
               QuietBefore(Run(start, calls[..n]).0, Run(start, calls[..n]).1, calls[n].0)
    ensures EveryDayWithinLimit(Run(start, calls).1)
  {
    hide HasRoom, QuietBefore, CurrentWindow, Run, Step, Load, EveryDayWithinLimit;
    forall n: nat | n < |calls| ensures HasRoomAt(start, calls, n) {
      RunIsPositive(start, calls[..n]);
      QuietHasRoom(Run(start, calls[..n]).0, Run(start, calls[..n]).1, calls[n].0, calls[n].1);
    }
    SlidingDaysExactly(start, calls);
  }

  lemma QuietHasRoom(e: Entries, paid: seq<Payment>, now: U64, op: Op)
    requires Positive(paid) && QuietBefore(e, paid, now)
    ensures HasRoom(e, paid, now, op)
  {
    if Accepted(e, now, op) != [] {
      AcceptedInWindow(e, now, op);
      hide Accepted, Load;
      var began := CurrentWindow(Load(e, now), now).lastResetTime;
      PaidInside(paid, now + 1 - SECONDS_IN_24H, began, began - SECONDS_IN_24H, began);
    }
  }

  lemma {:induction false} RunIsPositive(start: Entries, calls: seq<(U64, Op)>)
    requires forall i :: 0 <= i < |calls| && calls[i].1.OpAccrue? ==> calls[i].1.amount > 0
    ensures Positive(Run(start, calls).1)
  {
    hide Step;
    if calls != [] {
      RunIsPositive(start, calls[..|calls| - 1]);
    }
  }

  /** An accepted payment lies in the current window and keeps its total within the limit. */
  lemma AcceptedInWindow(e: Entries, now: U64, op: Op)
    requires Accepted(e, now, op) != []
    ensures var w := CurrentWindow(Load(e, now), now);
            w.lastResetTime <= now && w.accumulated + op.amount <= DAILY_MAX_LIMIT
  {
  }

  // ---------- what an accepted payment leaves behind ----------

  /** A payment is accepted exactly if the clock is not behind the window and the day's total
      allows it: the stored one within a day of the window start, none after. */
  lemma AcceptedExactlyWithinDay(e: Entries, now: U64, amount: I128)
    requires amount > 0 && Load(e, now).accumulated >= 0
    ensures var v := Load(e, now);
            Accrue(e, now, amount).Ok? <==>
              && v.lastResetTime <= now
              && (if now < v.lastResetTime + 86_400 then v.accumulated else 0) + amount <= 10_000_000_000_000
  {
    hide Load;
  }

  /** The volume before an accepted payment sets its rate; the payment adds to volume and
      window and leaves the flags alone. */
  lemma AcceptedIsBooked(e: Entries, now: U64, amount: I128, later: U64)
    requires amount > 0 && Accrue(e, now, amount).Ok?
    ensures var v, w := Load(e, now), Load(Accrue(e, now, amount).value.0, later);
            && Accrue(e, now, amount).value.1 == v.volume
            && w.volume == (if v.volume + amount < I128_HALF then v.volume + amount else I128_HALF - 1)
            && w.flags == v.flags
            && (now < v.lastResetTime + 86_400 ==>
                  w.lastResetTime == v.lastResetTime && w.accumulated == v.accumulated + amount)
            && (now >= v.lastResetTime + 86_400 ==> w.lastResetTime == now && w.accumulated == amount)
  {
    BookedIsSeen(e, now, amount, later);
  }

  /** What each operation does to the older entries: a payment without a packed record takes
      them over, migration always does, and setting a flag leaves them. */
  lemma OlderEntriesAfter(e: Entries, now: U64, amount: I128, bit: Octet, val: bool)
    ensures Accrue(e, now, amount).Ok? ==>
              var t := Accrue(e, now, amount).value.0;
              && t.record.Some?
              && (e.record.Some? ==> t.legacySpending == e.legacySpending && t.legacyVolume == e.legacyVolume)
              && (e.record == None && (e.legacySpending.Some? || LegacyVolume(e) != 0) ==>
                    t.legacySpending == None && t.legacyVolume == None)
    ensures var t := SetFlag(e, now, bit, val);
            t.record.Some? && t.legacySpending == e.legacySpending && t.legacyVolume == e.legacyVolume
    ensures var (t, migrated) := Migrate(e, now);
            && (migrated <==> e.legacySpending.Some? || LegacyVolume(e) != 0)
            && (if migrated then t.record.Some? && t.legacySpending == None && t.legacyVolume == None else t == e)
  {
  }

  function TotalPaid(paid: seq<Payment>): int {
    if paid == [] then 0 else TotalPaid(paid[..|paid| - 1]) + paid[|paid| - 1].amount
  }

  lemma VolumeIgnoresClock(e: Entries, now: U64, later: U64)
    ensures Load(e, now).volume == Load(e, later).volume
  {
  }

  lemma StepVolume(e: Entries, now: U64, op: Op, later: U64)
    requires op.OpAccrue? ==> op.amount > 0
    ensures var v := Load(e, later).volume;
            Load(Step(e, now, op), later).volume ==
              if Accepted(e, now, op) == [] then v
              else if v + op.amount < I128_HALF then v + op.amount else I128_HALF - 1
  {
    VolumeIgnoresClock(e, now, later);
    match op {
      case OpAccrue(amount) =>
        if Accrue(e, now, amount).Ok? {
          AcceptedIsBooked(e, now, amount, later);
        }
      case OpSetFlag(bit, val) => SetFlagKeepsCounters(e, now, later, bit, val);
      case OpMigrate => UnpackPack(LegacyView(e, now));
    }
  }

  /** Over every run the lifetime volume is what it was plus all that was accepted, up to the
      largest amount there is. */
  lemma {:induction false} VolumeCountsAccepted(start: Entries, calls: seq<(U64, Op)>, later: U64)
    requires Load(start, later).volume >= 0
    requires forall i :: 0 <= i < |calls| && calls[i].1.OpAccrue? ==> calls[i].1.amount > 0
    ensures var total := Load(start, later).volume + TotalPaid(Run(start, calls).1);
            && total >= 0
            && Load(Run(start, calls).0, later).volume == if total < I128_HALF then total else I128_HALF - 1
  {
    hide Load, Step, Accepted;
    if calls != [] {
      var n := |calls| - 1;
      var (e, paid) := Run(start, calls[..n]);
      VolumeCountsAccepted(start, calls[..n], later);
      StepVolume(e, calls[n].0, calls[n].1, later);
      AcceptedShape(e, calls[n].0, calls[n].1);
      var accepted := Accepted(e, calls[n].0, calls[n].1);
      if accepted == [] {
        assert paid + accepted == paid;
      } else {
        assert (paid + accepted)[..|paid|] == paid;
      }
    }
  }

  lemma AcceptedShape(e: Entries, now: U64, op: Op)
    ensures Accepted(e, now, op) == [] || (op.OpAccrue? && Accepted(e, now, op) == [Payment(now, op.amount)])
  {
  }

  // ---------- the entries of one sender as stored fields ----------

  class Sender {
    var record: Option<Packed>
    var legacySpending: Option<PackedSpending>
    var legacyVolume: Option<I128>

    ghost function Now(): Entries
      reads this
    {
      Entries(record, legacySpending, legacyVolume)
    }

    constructor (start: Entries)
      ensures Now() == start
    {
      record, legacySpending, legacyVolume := start.record, start.legacySpending, start.legacyVolume;
    }

    method LoadUserRecord(now: U64) returns (view: View, legacyFound: bool)
      ensures view == Load(Now(), now)
      ensures legacyFound <==> record == None && LegacyFound(Now())
    {
      if record.Some? {
        return Unpack(record.value), false;
      }
      var volume := if legacyVolume.Some? then legacyVolume.value else 0;
      if legacySpending.Some? {
        var spending := UnpackLegacySpending(legacySpending.value);
        return View(spending.0, spending.1, volume, NoFlags()), true;
      }
      return View(now, 0, volume, NoFlags()), volume != 0;
    }

    method UserSetFlag(now: U64, bit: Octet, val: bool)
      modifies this
      ensures Now() == SetFlag(old(Now()), now, bit, val)
    {
      var view, legacyFound := LoadUserRecord(now);
      record := Some(Pack(view.(flags := FlagSet(view.flags, bit, val))));
    }

    method AccrueUserRecord(now: U64, amount: I128) returns (r: Result<I128, Error>)
      modifies this
      ensures match Accrue(old(Now()), now, amount)
              case Ok((e, volume)) => r == Ok(volume) && Now() == e
              case Err(error) => r == Err(error) && Now() == old(Now())
    {
      var view, legacyFound := LoadUserRecord(now);
      if now < view.lastResetTime {
        return Err(ClockTrap);
      }
      var lastResetTime, accumulated := view.lastResetTime, view.accumulated;
      if now - lastResetTime >= SECONDS_IN_24H {
        lastResetTime, accumulated := now, 0;
      }
      if accumulated + amount >= I128_HALF || accumulated + amount < -I128_HALF {
        return Err(LimitExceeded);
      }
      if accumulated + amount > DAILY_MAX_LIMIT {
        return Err(LimitExceeded);
      }
      accumulated := accumulated + amount;
      record := Some(Pack(View(lastResetTime, accumulated, SaturatingAdd(view.volume, amount), view.flags)));
      if legacyFound {
        legacySpending, legacyVolume := None, None;
      }
      return Ok(view.volume);
    }

    method MigrateUserRecord(now: U64) returns (migrated: bool)
      modifies this
      ensures (Now(), migrated) == Migrate(old(Now()), now)
    {
      var volume := if legacyVolume.Some? then legacyVolume.value else 0;
      if legacySpending == None && volume == 0 {
        return false;
      }
      if record == None {
        if legacySpending.Some? {
          var spending := UnpackLegacySpending(legacySpending.value);
          record := Some(Pack(View(spending.0, spending.1, volume, NoFlags())));
        } else {
          record := Some(Pack(View(now, 0, volume, NoFlags())));
        }
      }
      legacySpending, legacyVolume := None, None;
      return true;
    }
  }
}
