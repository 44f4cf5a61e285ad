/** The rights of a capability (kernel/src/cap/rights.rs).  A `CapRights` value never holds a bit
    outside `KNOWN_BITS`, so it is a set of the seven named rights; the proofs elsewhere use the set
    order.  `Encodes` relates a set to the bit field that the code stores, and the lemmas tie the bit
    expressions of the source to the set operations they stand for. */
module Rights {

  datatype Right = DUPLICATE | DERIVE | REVOKE | TRANSFER | SEND | RECV | NOTIFY

  type CapRights = set<Right>

  predicate Contains(a: CapRights, b: CapRights) {
    b <= a
  }

  function Mask(r: Right): bv32 {
    match r
    case DUPLICATE => 1
    case DERIVE => 2
    case REVOKE => 4
    case TRANSFER => 8
    case SEND => 16
    case RECV => 32
    case NOTIFY => 64
  }

  const KNOWN_BITS: bv32 := 127

  predicate Has(raw: bv32, r: Right) {
    raw & Mask(r) != 0
  }

  /** `raw` is the stored form of `s`: the flags of `s` and no reserved bit. */
  ghost predicate Encodes(raw: bv32, s: CapRights) {
    && raw & !KNOWN_BITS == 0
    && forall r :: Has(raw, r) <==> r in s
  }

  lemma MeetsThrough(x: bv32, y: bv32, mask: bv32)
    requires x & y == y && y & mask != 0
    ensures x & mask != 0
  {
  }

  lemma KnownFlagsDecide(x: bv32, y: bv32)
    requires y & !127 == 0
    requires y & 1 != 0 ==> x & 1 != 0
    requires y & 2 != 0 ==> x & 2 != 0
    requires y & 4 != 0 ==> x & 4 != 0
    requires y & 8 != 0 ==> x & 8 != 0
    requires y & 16 != 0 ==> x & 16 != 0
    requires y & 32 != 0 ==> x & 32 != 0
    requires y & 64 != 0 ==> x & 64 != 0
    ensures x & y == y
  {
  }

  lemma InclusionOnBits(x: bv32, a: CapRights, y: bv32, b: CapRights)
    requires Encodes(x, a) && Encodes(y, b) && Contains(a, b)
    ensures x & y == y
  {
    assert forall r :: Has(y, r) ==> Has(x, r);
    assert Has(y, DUPLICATE) ==> Has(x, DUPLICATE);
    assert Has(y, DERIVE) ==> Has(x, DERIVE);
    assert Has(y, REVOKE) ==> Has(x, REVOKE);
    assert Has(y, TRANSFER) ==> Has(x, TRANSFER);
    assert Has(y, SEND) ==> Has(x, SEND);
    assert Has(y, RECV) ==> Has(x, RECV);
    assert Has(y, NOTIFY) ==> Has(x, NOTIFY);
    KnownFlagsDecide(x, y);
  }

  /** The bit test `(a & b) == b` of the source is set inclusion. */
  lemma ContainsOnBits(x: bv32, a: CapRights, y: bv32, b: CapRights)
    requires Encodes(x, a) && Encodes(y, b)
    ensures x & y == y <==> Contains(a, b)
  {
    if x & y == y {
      forall r | r in b
        ensures r in a
      {
        assert Has(y, r);
        MeetsThrough(x, y, Mask(r));
        assert Has(x, r);
      }
    } else if Contains(a, b) {
      InclusionOnBits(x, a, y, b);
    }
  }

  /** The mask of `from_raw` yields the stored form of exactly the known rights among the raw bits. */
  lemma FromRawEncodes(raw: bv32, s: CapRights)
    requires forall r :: r in s <==> Has(raw, r)
    ensures Encodes(raw & KNOWN_BITS, s)
  {
  }
}
