/** Decoding the public key out of an account strkey: the base32 alphabet of section 6 of
    RFC 4648, read through a 32-bit accumulator. */
module Strkey {
  import opened ByteOrder
  import opened Wrappers

  const STRKEY_LENGTH := 56
  const DECODED_LENGTH := 35
  const KEY_LENGTH := 32
  const ACCOUNT_ID_VERSION: byte := 48
  const U32: nat := 0x1_0000_0000

  // ---------- numbers written in a base ----------

  predicate Digits(s: seq<nat>, base: nat) {
    forall i :: 0 <= i < |s| ==> s[i] < base
  }

  /** The number that `s` writes in `base`, most significant digit first. */
  function Value(s: seq<nat>, base: nat): nat {
    if s == [] then 0 else Value(s[..|s| - 1], base) * base + s[|s| - 1]
  }

  /** Fixed-length notations are unique. */
  lemma {:induction false} ValueInjective(a: seq<nat>, b: seq<nat>, base: nat)
    requires (base == 32 || base == 256) && |a| == |b| && Digits(a, base) && Digits(b, base)
    requires Value(a, base) == Value(b, base)
    ensures a == b
  {
    if a != [] {
      var n := |a| - 1;
      SameQuotient(Value(a[..n], base), a[n], Value(b[..n], base), b[n], base);
      ValueInjective(a[..n], b[..n], base);
      assert a == a[..n] + [a[n]] && b == b[..n] + [b[n]];
    }
  }

  lemma SameQuotient(q: nat, r: nat, p: nat, t: nat, base: nat)
    requires base == 32 || base == 256
    requires r < base && t < base && q * base + r == p * base + t
    ensures q == p && r == t
  {
    if base == 32 {
      assert q == (q * 32 + r) / 32 == p;
    } else {
      assert q == (q * 256 + r) / 256 == p;
    }
  }

  // ---------- the alphabet ----------

  /** Value of an alphabet character, given as its ASCII code. */
  function SymbolValue(c: byte): Option<nat> {
    if 'A' as int <= c as int <= 'Z' as int then Some(c as int - 'A' as int)
    else if '2' as int <= c as int <= '7' as int then Some(c as int - '2' as int + 26)
    else None
  }

  function Symbol(v: nat): byte
    requires v < 32
  {
    if v < 26 then ('A' as int + v) as byte else ('2' as int + v - 26) as byte
  }

  const ALPHABET := "ABCDEFGHIJKLMNOPQRSTUVWXYZ234567"

  /** The symbol for a value is the one at that place of the alphabet of RFC 4648. */
  lemma SymbolsAreTheAlphabet(v: nat, c: byte)
    requires v < 32
    ensures Symbol(v) as int == ALPHABET[v] as int
    ensures SymbolValue(c) == Some(v) <==> c as int == ALPHABET[v] as int
  {
  }

  predicate InAlphabet(s: Bytes) {
    forall i :: 0 <= i < |s| ==> SymbolValue(s[i]).Some?
  }

  function Symbols(s: Bytes): (v: seq<nat>)
    requires InAlphabet(s)
    ensures |v| == |s| && Digits(v, 32)
    ensures forall i :: 0 <= i < |s| ==> v[i] == SymbolValue(s[i]).value
  {
    seq(|s|, i requires 0 <= i < |s| => SymbolValue(s[i]).value)
  }

  function Octets(s: Bytes): (v: seq<nat>)
    ensures |v| == |s| && Digits(v, 256)
    ensures forall i :: 0 <= i < |s| ==> v[i] == s[i] as int
  {
    seq(|s|, i requires 0 <= i < |s| => s[i] as int)
  }

  lemma SymbolsInjective(s: Bytes, t: Bytes)
    requires InAlphabet(s) && InAlphabet(t) && Symbols(s) == Symbols(t)
    ensures s == t
  {
    forall i | 0 <= i < |s| ensures s[i] == t[i] {
      assert Symbols(s)[i] == Symbols(t)[i];
    }
  }

  // ---------- encoding, as section 6 of RFC 4648 defines it ----------

  /** Five bytes form a 40-bit group, which is read as eight 5-bit symbols. */
  function EncodeGroup(v: nat): (symbols: seq<nat>)
    requires v < 0x100_0000_0000
    ensures |symbols| == 8 && Digits(symbols, 32)
  {
    [v / 0x8_0000_0000, v / 0x4000_0000 % 32, v / 0x200_0000 % 32, v / 0x10_0000 % 32,
     v / 0x8000 % 32, v / 0x400 % 32, v / 0x20 % 32, v % 32]
  }

  /** The 5-bit values that encode `s`, group by group. */
  function EncodeValues(s: Bytes): (symbols: seq<nat>)
    requires |s| % 5 == 0
    ensures |symbols| == |s| / 5 * 8 && Digits(symbols, 32)
  {
    if s == [] then []
    else
      GroupBound(s[|s| - 5..]);
      EncodeValues(s[..|s| - 5]) + EncodeGroup(Value(Octets(s[|s| - 5..]), 256))
  }

  function Spell(values: seq<nat>): (text: Bytes)
    requires Digits(values, 32)
    ensures |text| == |values|
  {
    seq(|values|, i requires 0 <= i < |values| => Symbol(values[i]))
  }

  function Encode(s: Bytes): (text: Bytes)
    requires |s| % 5 == 0
    ensures |text| == |s| / 5 * 8
  {
    Spell(EncodeValues(s))
  }

  lemma SpellReads(values: seq<nat>)
    requires Digits(values, 32)
    ensures InAlphabet(Spell(values)) && Symbols(Spell(values)) == values
  {
    forall i | 0 <= i < |values| ensures SymbolValue(Spell(values)[i]) == Some(values[i]) {
    }
  }

  /** Reading one more digit. */
  lemma ValueStep(s: seq<nat>, d: nat, base: nat)
    ensures Value(s + [d], base) == Value(s, base) * base + d
  {
    assert (s + [d])[..|s|] == s;
  }

  /** Reading five more bytes. */
  lemma ValueOfFiveMore(s: seq<nat>, g: seq<nat>)
    requires |g| == 5
    ensures Value(s + g, 256) == Value(s, 256) * 0x100_0000_0000
              + (((g[0] * 256 + g[1]) * 256 + g[2]) * 256 + g[3]) * 256 + g[4]
  {
    ValueStep(s, g[0], 256);
    ValueStep(s + [g[0]], g[1], 256);
    ValueStep(s + [g[0]] + [g[1]], g[2], 256);
    ValueStep(s + [g[0]] + [g[1]] + [g[2]], g[3], 256);
    ValueStep(s + [g[0]] + [g[1]] + [g[2]] + [g[3]], g[4], 256);
    assert s + g == s + [g[0]] + [g[1]] + [g[2]] + [g[3]] + [g[4]];
  }

  /** Reading eight more symbols. */
  lemma ValueOfEightMore(s: seq<nat>, g: seq<nat>)
    requires |g| == 8
    ensures Value(s + g, 32) == Value(s, 32) * 0x100_0000_0000
              + ((((((g[0] * 32 + g[1]) * 32 + g[2]) * 32 + g[3]) * 32 + g[4]) * 32 + g[5]) * 32 + g[6]) * 32 + g[7]
  {
    var s4 := s + [g[0]] + [g[1]] + [g[2]] + [g[3]];
    ValueStep(s, g[0], 32);
    ValueStep(s + [g[0]], g[1], 32);
    ValueStep(s + [g[0]] + [g[1]], g[2], 32);
    ValueStep(s + [g[0]] + [g[1]] + [g[2]], g[3], 32);
    ValueStep(s4, g[4], 32);
    ValueStep(s4 + [g[4]], g[5], 32);
    ValueStep(s4 + [g[4]] + [g[5]], g[6], 32);
    ValueStep(s4 + [g[4]] + [g[5]] + [g[6]], g[7], 32);
    assert s + g == s4 + [g[4]] + [g[5]] + [g[6]] + [g[7]];
  }

  lemma GroupBound(s: Bytes)
    requires |s| == 5
    ensures Value(Octets(s), 256) < 0x100_0000_0000
  {
    ValueOfFiveMore([], Octets(s));
    assert [] + Octets(s) == Octets(s);
  }

  lemma GroupKeepsValue(v: nat)
    requires v < 0x100_0000_0000
    ensures var g := EncodeGroup(v);
            ((((((g[0] * 32 + g[1]) * 32 + g[2]) * 32 + g[3]) * 32 + g[4]) * 32 + g[5]) * 32 + g[6]) * 32 + g[7] == v
  {
    assert v / 0x20 / 32 == v / 0x400;
    assert v / 0x400 / 32 == v / 0x8000;
    assert v / 0x8000 / 32 == v / 0x10_0000;
    assert v / 0x10_0000 / 32 == v / 0x200_0000;
    assert v / 0x200_0000 / 32 == v / 0x4000_0000;
    assert v / 0x4000_0000 / 32 == v / 0x8_0000_0000;
  }

  lemma OctetsSplit(s: Bytes, n: nat)
    requires |s| == n + 5
    ensures Octets(s) == Octets(s[..n]) + Octets(s[n..])
    ensures Value(Octets(s), 256) == Value(Octets(s[..n]), 256) * 0x100_0000_0000 + Value(Octets(s[n..]), 256)
  {
    assert Octets(s) == Octets(s[..n]) + Octets(s[n..]);
    ValueOfFiveMore(Octets(s[..n]), Octets(s[n..]));
    ValueOfFiveMore([], Octets(s[n..]));
    assert [] + Octets(s[n..]) == Octets(s[n..]);
  }

  lemma GroupAppended(symbols: seq<nat>, v: nat)
    requires v < 0x100_0000_0000
    ensures Value(symbols + EncodeGroup(v), 32) == Value(symbols, 32) * 0x100_0000_0000 + v
  {
    ValueOfEightMore(symbols, EncodeGroup(v));
    GroupKeepsValue(v);
  }

  /** Encoding writes in base 32 the number that the bytes write in base 256. */
  lemma {:induction false} EncodeKeepsValue(s: Bytes)
    requires |s| % 5 == 0
    ensures Value(EncodeValues(s), 32) == Value(Octets(s), 256)
  {
    if s != [] {
      var n := |s| - 5;
      GroupBound(s[n..]);
      EncodeKeepsValue(s[..n]);
      GroupAppended(EncodeValues(s[..n]), Value(Octets(s[n..]), 256));
      OctetsSplit(s, n);
    }
  }

  lemma EncodeInAlphabet(s: Bytes)
    requires |s| % 5 == 0
    ensures InAlphabet(Encode(s)) && Symbols(Encode(s)) == EncodeValues(s)
  {
    SpellReads(EncodeValues(s));
  }

  /** Different byte strings have different encodings. */
  lemma EncodeInjective(s: Bytes, t: Bytes)
    requires |s| == |t| && |s| % 5 == 0 && Encode(s) == Encode(t)
    ensures s == t
  {
    EncodeInAlphabet(s);
    EncodeInAlphabet(t);
    SameValueSameBytes(s, t);
  }

  lemma SameValueSameBytes(s: Bytes, t: Bytes)
    requires |s| == |t| && |s| % 5 == 0 && EncodeValues(s) == EncodeValues(t)
    ensures s == t
  {
    EncodeKeepsValue(s);
    EncodeKeepsValue(t);
    ValueInjective(Octets(s), Octets(t), 256);
    forall i | 0 <= i < |s| ensures s[i] == t[i] {
      assert Octets(s)[i] == Octets(t)[i];
    }
  }

  /** A text over the alphabet that writes the same number is the encoding. */
  lemma EncodingByValue(s: Bytes, text: Bytes)
    requires |s| % 5 == 0 && |text| == |s| / 5 * 8 && InAlphabet(text)
    requires Value(Octets(s), 256) == Value(Symbols(text), 32)
    ensures Encode(s) == text
  {
    EncodeInAlphabet(s);
    EncodeKeepsValue(s);
    ValueInjective(Symbols(Encode(s)), Symbols(text), 32);
    SymbolsInjective(Encode(s), text);
  }

  // ---------- the accumulator loop ----------

  /** `x << bits` for the at most seven bits that wait in the accumulator. */
  function ShiftLeft(x: nat, bits: nat): nat
    requires bits < 8
  {
    match bits
    case 0 => x
    case 1 => x * 2
    case 2 => x * 4
    case 3 => x * 8
    case 4 => x * 16
    case 5 => x * 32
    case 6 => x * 64
    case _ => x * 128
  }

  /** `x >> bits`. */
  function ShiftRight(x: nat, bits: nat): nat
    requires bits < 8
  {
    match bits
    case 0 => x
    case 1 => x / 2
    case 2 => x / 4
    case 3 => x / 8
    case 4 => x / 16
    case 5 => x / 32
    case 6 => x / 64
    case _ => x / 128
  }

  /** `n` is `whole` followed by `bits` waiting bits. */
  ghost predicate Splits(n: nat, whole: nat, bits: nat)
    requires bits < 8
  {
    ShiftLeft(whole, bits) <= n < ShiftLeft(whole + 1, bits)
  }

  /** Too few bits for a byte: the new symbol only joins the waiting ones. */
  lemma JoinSymbol(n: nat, whole: nat, bits: nat, v: nat)
    requires bits < 3 && v < 32 && Splits(n, whole, bits)
    ensures Splits(n * 32 + v, whole, bits + 5)
  {
  }

  lemma Peel(d: nat, j: nat)
    ensures (d + 256 * j) % 256 == d % 256
  {
  }

  /** The accumulator has long dropped the high bits, but not the byte it is asked for. */
  lemma LowByte(r: nat, k: nat, bits: nat)
    requires bits < 5
    ensures ShiftRight(r + k * U32, bits) % 256 == ShiftRight(r, bits) % 256
  {
    match bits {
      case 0 =>
        Peel(r, k * 0x100_0000);
      case 1 =>
        assert (r + k * 0x1_0000_0000) / 2 == r / 2 + 256 * (k * 0x80_0000);
        Peel(r / 2, k * 0x80_0000);
      case 2 =>
        assert (r + k * 0x1_0000_0000) / 4 == r / 4 + 256 * (k * 0x40_0000);
        Peel(r / 4, k * 0x40_0000);
      case 3 =>
        assert (r + k * 0x1_0000_0000) / 8 == r / 8 + 256 * (k * 0x20_0000);
        Peel(r / 8, k * 0x20_0000);
      case _ =>
        assert (r + k * 0x1_0000_0000) / 16 == r / 16 + 256 * (k * 0x10_0000);
        Peel(r / 16, k * 0x10_0000);
    }
  }

  lemma SplitsAtShift(m: nat, bits: nat)
    requires bits < 5
    ensures Splits(m, ShiftRight(m, bits), bits)
  {
  }

  lemma ShiftBounds(m: nat, low: nat, high: nat, bits: nat)
    requires bits < 5 && ShiftLeft(low, bits) <= m < ShiftLeft(high, bits)
    ensures low <= ShiftRight(m, bits) < high
  {
  }

  /** Once there are enough bits, the next byte sits just above the ones that stay. */
  lemma NextByte(m: nat, whole: nat, bits: nat)
    requires bits < 5
    requires ShiftLeft(whole * 256, bits) <= m < ShiftLeft(whole * 256 + 256, bits)
    ensures Splits(m, whole * 256 + ShiftRight(m, bits) % 256, bits)
  {
    var shifted := ShiftRight(m, bits);
    SplitsAtShift(m, bits);
    ShiftBounds(m, whole * 256, whole * 256 + 256, bits);
    Peel(shifted - whole * 256, whole);
  }

  lemma EmitByte(n: nat, whole: nat, bits: nat, v: nat)
    requires 3 <= bits < 8 && v < 32 && Splits(n, whole, bits)
    ensures var m := n * 32 + v;
            Splits(m, whole * 256 + ShiftRight(m % U32, bits - 3) % 256, bits - 3)
  {
    var m := n * 32 + v;
    NextByte(m, whole, bits - 3);
    LowByte(m % U32, m / U32, bits - 3);
  }

  /** `(accumulator << 5) | value` in 32 bits. */
  lemma WrappingShift(n: nat, v: nat)
    requires v < 32
    ensures (n % U32 * 32) % U32 + v == (n * 32 + v) % U32
  {
  }

  // ---------- the loop ----------

  lemma AppendSymbol(s: Bytes, i: nat)
    requires i < |s| && InAlphabet(s[..i]) && SymbolValue(s[i]).Some?
    ensures InAlphabet(s[..i + 1])
    ensures Value(Symbols(s[..i + 1]), 32) == Value(Symbols(s[..i]), 32) * 32 + SymbolValue(s[i]).value
  {
    assert Symbols(s[..i + 1])[..i] == Symbols(s[..i]);
  }

  lemma AppendOctet(s: Bytes, b: byte)
    ensures Value(Octets(s + [b]), 256) == Value(Octets(s), 256) * 256 + b as int
  {
    assert Octets(s + [b])[..|s|] == Octets(s);
  }

  /** What the loop has read and written after `i` symbols. */
  ghost predicate Progress(encoded: Bytes, i: nat, output: Bytes, accumulator: nat, bits: nat)
    requires i <= |encoded|
  {
    && bits < 8 && 8 * |output| + bits == 5 * i
    && InAlphabet(encoded[..i])
    && var n := Value(Symbols(encoded[..i]), 32);
    && accumulator == n % U32
    && Splits(n, Value(Octets(output), 256), bits)
  }

  lemma ReadShort(encoded: Bytes, i: nat, output: Bytes, accumulator: nat, bits: nat, v: nat)
    requires i < |encoded| && SymbolValue(encoded[i]) == Some(v)
    requires Progress(encoded, i, output, accumulator, bits) && bits < 3
    ensures Progress(encoded, i + 1, output, (accumulator * 32) % U32 + v, bits + 5)
  {
    var n := Value(Symbols(encoded[..i]), 32);
    AppendSymbol(encoded, i);
    WrappingShift(n, v);
    JoinSymbol(n, Value(Octets(output), 256), bits, v);
  }

  lemma {:induction false} ReadFull(encoded: Bytes, i: nat, output: Bytes, accumulator: nat, bits: nat, v: nat)
    requires i < |encoded| && SymbolValue(encoded[i]) == Some(v)
    requires Progress(encoded, i, output, accumulator, bits) && bits >= 3
    ensures var shifted := (accumulator * 32) % U32 + v;
            var octet := (ShiftRight(shifted, bits - 3) % 256) as byte;
            Progress(encoded, i + 1, output + [octet], shifted, bits - 3)
  {
    var n := Value(Symbols(encoded[..i]), 32);
    var shifted := (accumulator * 32) % U32 + v;
    AppendSymbol(encoded, i);
    WrappingShift(n, v);
    EmitByte(n, Value(Octets(output), 256), bits, v);
    AppendOctet(output, (ShiftRight(shifted, bits - 3) % 256) as byte);
  }

  lemma FullyRead(encoded: Bytes, output: Bytes, accumulator: nat, bits: nat)
    requires |encoded| == STRKEY_LENGTH
    requires Progress(encoded, STRKEY_LENGTH, output, accumulator, bits)
    ensures |output| == DECODED_LENGTH && InAlphabet(encoded) && Encode(output) == encoded
  {
    assert encoded[..STRKEY_LENGTH] == encoded;
    assert bits == 0;
    EncodingByValue(output, encoded);
  }

  /** The decoding loop. It fails exactly on characters outside the alphabet, never runs out
      of room, and always yields 35 bytes whose encoding is the text it read: on its domain
      it is the inverse of base32 encoding. */
  method DecodeSymbols(encoded: Bytes) returns (decoded: Option<Bytes>)
    requires |encoded| == STRKEY_LENGTH
    ensures decoded.Some? <==> InAlphabet(encoded)
    ensures decoded.Some? ==>
              && |decoded.value| == DECODED_LENGTH
              && Encode(decoded.value) == encoded
  {
    var output: Bytes := [];
    var accumulator: nat := 0;
    var bits := 0;
    var i := 0;
    while i < STRKEY_LENGTH
      invariant 0 <= i <= STRKEY_LENGTH
      invariant Progress(encoded, i, output, accumulator, bits)
    {
      var symbol := SymbolValue(encoded[i]);
      if symbol == None {
        return None;
      }
      if bits < 3 {
        ReadShort(encoded, i, output, accumulator, bits, symbol.value);
      } else {
        ReadFull(encoded, i, output, accumulator, bits, symbol.value);
      }
      accumulator := (accumulator * 32) % U32 + symbol.value;
      bits := bits + 5;
      if bits >= 8 {
        bits := bits - 8;
        if |output| >= DECODED_LENGTH {
          assert false;
          return None;
        }
        output := output + [(ShiftRight(accumulator, bits) % 256) as byte];
      }
      i := i + 1;
    }
    assert encoded[..STRKEY_LENGTH] == encoded;
    FullyRead(encoded, output, accumulator, bits);
    return Some(output);
  }

  // ---------- account keys ----------

  function AccountPayload(key: Bytes, checksum: Bytes): (payload: Bytes)
    requires |key| == KEY_LENGTH && |checksum| == 2
    ensures |payload| == DECODED_LENGTH && payload[0] == ACCOUNT_ID_VERSION
    ensures payload[1..KEY_LENGTH + 1] == key && payload[KEY_LENGTH + 1..] == checksum
  {
    [ACCOUNT_ID_VERSION] + key + checksum
  }

  /** An account strkey encodes the version byte, the key and two checksum bytes. */
  ghost predicate IsStrkeyOf(strkey: Bytes, key: Bytes) {
    && |key| == KEY_LENGTH
    && exists checksum: Bytes :: |checksum| == 2 && strkey == Encode(AccountPayload(key, checksum))
  }

  lemma StrkeyStartsWithG(payload: Bytes)
    requires |payload| == DECODED_LENGTH && payload[0] == ACCOUNT_ID_VERSION
    ensures |Encode(payload)| == STRKEY_LENGTH && Encode(payload)[0] as int == 'G' as int
  {
    FirstSymbol(payload);
  }

  lemma {:induction false} FirstSymbol(s: Bytes)
    requires |s| % 5 == 0 && s != []
    ensures EncodeValues(s)[0] == s[0] as int / 8
  {
    if |s| == 5 {
      ValueOfFiveMore([], Octets(s));
      assert [] + Octets(s) == Octets(s) && s[0..] == s;
      GroupBound(s);
      var v := Value(Octets(s), 256);
      assert s[0] as int * 0x1_0000_0000 <= v < (s[0] as int + 1) * 0x1_0000_0000;
    } else {
      FirstSymbol(s[..|s| - 5]);
    }
  }

  /** Every strkey passes the checks of the decoder. */
  lemma StrkeyIsWellFormed(strkey: Bytes, key: Bytes)
    requires IsStrkeyOf(strkey, key)
    ensures |strkey| == STRKEY_LENGTH && strkey[0] as int == 'G' as int && InAlphabet(strkey)
  {
    var checksum: Bytes :| |checksum| == 2 && strkey == Encode(AccountPayload(key, checksum));
    StrkeyStartsWithG(AccountPayload(key, checksum));
    EncodeInAlphabet(AccountPayload(key, checksum));
  }

  /** Whatever decodes to `payload` is a strkey of bytes 1 to 32, and of nothing else. */
  lemma KeyOfPayload(strkey: Bytes, payload: Bytes, key: Bytes)
    requires |payload| == DECODED_LENGTH && Encode(payload) == strkey
    ensures IsStrkeyOf(strkey, key) <==> payload[0] == ACCOUNT_ID_VERSION && payload[1..KEY_LENGTH + 1] == key
  {
    if payload[0] == ACCOUNT_ID_VERSION && payload[1..KEY_LENGTH + 1] == key {
      var checksum := payload[KEY_LENGTH + 1..];
      assert payload == AccountPayload(key, checksum);
    }
    if IsStrkeyOf(strkey, key) {
      var checksum: Bytes :| |checksum| == 2 && strkey == Encode(AccountPayload(key, checksum));
      EncodeInjective(payload, AccountPayload(key, checksum));
    }
  }

  /** What an account strkey is: the encoding of the version byte 48, the key, and two more
      bytes. */
  lemma AccountStrkeyIs(strkey: Bytes, key: Bytes, checksum: Bytes)
    requires |key| == 32 && |checksum| == 2
    ensures strkey == Encode([48 as byte] + key + checksum) ==> IsStrkeyOf(strkey, key)
    ensures IsStrkeyOf(strkey, key) && |strkey| == 56 ==>
              exists tail: Bytes :: |tail| == 2 && strkey == Encode([48 as byte] + key + tail)
  {
    if IsStrkeyOf(strkey, key) {
      var tail: Bytes :| |tail| == 2 && strkey == Encode(AccountPayload(key, tail));
      assert AccountPayload(key, tail) == [48 as byte] + key + tail;
    }
    assert AccountPayload(key, checksum) == [48 as byte] + key + checksum;
  }

  /** The key is found exactly when the text is an account strkey, whatever its checksum, and
      it is the key that the strkey was made from. */
  method AccountPublicKey(strkey: Bytes) returns (key: Option<Bytes>)
    ensures forall k :: IsStrkeyOf(strkey, k) <==> key == Some(k)
  {
    forall k | IsStrkeyOf(strkey, k) {
      StrkeyIsWellFormed(strkey, k);
    }
    if |strkey| != STRKEY_LENGTH {
      return None;
    }
    if strkey[0] as int != 'G' as int {
      return None;
    }
    var decoded := DecodeSymbols(strkey);
    if decoded == None {
      return None;
    }
    forall k {
      KeyOfPayload(strkey, decoded.value, k);
    }
    if decoded.value[0] != ACCOUNT_ID_VERSION {
      return None;
    }
    return Some(decoded.value[1..KEY_LENGTH + 1]);
  }
}
