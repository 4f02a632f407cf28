/** Bytes as bit vectors, for records that mix numbers with bit flags. */
module OctetValues {

  type Octet = bv8

  predicate Denotes(b: Octet, r: int) {
    b as int == r
  }

  lemma NextOctet(b: Octet)
    requires b < 255
    ensures (b + 1) as int == b as int + 1
  {
  }

  lemma {:induction false} OctetExists(r: nat)
    requires r < 256
    ensures exists b: Octet :: Denotes(b, r)
  {
    if r == 0 {
      assert Denotes(0, 0);
    } else {
      OctetExists(r - 1);
      var b: Octet :| Denotes(b, r - 1);
      assert b < 255;
      NextOctet(b);
      assert Denotes(b + 1, r);
    }
  }

  lemma SameOctet(b: Octet, r: int)
    requires 0 <= r < 256 && b as int == r
    ensures r as Octet == b
  {
  }

  /** Every number below 256 survives the conversion to a byte. */
  lemma OctetValue(r: int)
    requires 0 <= r < 256
    ensures (r as Octet) as int == r
  {
    OctetExists(r);
    var b: Octet :| Denotes(b, r);
    SameOctet(b, r);
  }
}
