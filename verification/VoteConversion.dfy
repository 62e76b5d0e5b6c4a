/** Balances as u64 votes and back: a division, a truncating cast and a multiplication. */
module VoteConversion {
  import opened Bytes

  /** The largest u64. */
  const MAX_64: nat := 0xFFFF_FFFF_FFFF_FFFF

  function Factor(issuance: U128): (f: U128)
    ensures f >= 1
  {
    var q := issuance / MAX_64;
    if q > 1 then q else 1
  }

  /** The cast to u64 keeps the low 64 bits. */
  function ToVote(issuance: U128, x: U128): U64 {
    x / Factor(issuance) % TWO_64
  }

  /** The u128 product wraps. */
  function FromVote(issuance: U128, v: U128): U128 {
    v * Factor(issuance) % TWO_128
  }

  lemma Divides(x: nat, f: nat)
    requires f > 0
    ensures x / f * f <= x < x / f * f + f
  {
    assert x == x / f * f + x % f;
  }

  lemma ScaledLess(a: nat, b: nat, f: nat)
    requires a <= b
    ensures a * f <= b * f
  {
  }

  /** A quotient is below a bound exactly when the dividend is below the scaled bound. */
  lemma QuotientBelow(x: nat, f: nat, bound: nat)
    requires f > 0
    ensures x / f < bound <==> x < bound * f
  {
    Divides(x, f);
    var q := x / f;
    if q < bound {
      ScaledLess(q + 1, bound, f);
      assert (q + 1) * f == q * f + f;
    } else {
      ScaledLess(bound, q, f);
    }
  }

  /** The issuance lies within one step of the factor's multiple. */
  lemma FactorBounds(issuance: U128)
    ensures issuance < MAX_64 * Factor(issuance) + MAX_64 || (issuance < TWO_64 && Factor(issuance) == 1)
    ensures issuance >= MAX_64 ==> MAX_64 * Factor(issuance) <= issuance
    ensures Factor(issuance) <= TWO_64 + 1
  {
    Divides(issuance, MAX_64);
    QuotientBelow(issuance, MAX_64, TWO_64 + 2);
  }

  /** The cast loses nothing exactly for balances below factor * 2^64. */
  lemma LosslessIff(issuance: U128, x: U128)
    ensures ToVote(issuance, x) == x / Factor(issuance) <==> x < TWO_64 * Factor(issuance)
  {
    QuotientBelow(x, Factor(issuance), TWO_64);
  }

  /** That covers every balance up to half the issuance, and all of an issuance that fits 64 bits. */
  lemma SafeBalances(issuance: U128, x: U128)
    requires x <= issuance / 2 || (issuance < TWO_64 && x <= issuance)
    ensures x < TWO_64 * Factor(issuance)
  {
    FactorBounds(issuance);
    var f := Factor(issuance);
    assert MAX_64 * f + MAX_64 <= 2 * (TWO_64 * f);
  }

  /** All balances up to the issuance convert without loss if and only if the issuance fits 64 bits or
      leaves a smaller remainder than quotient when divided by 2^64 - 1. */
  lemma WholeIssuanceIff(issuance: U128)
    ensures (forall x: U128 | x <= issuance :: ToVote(issuance, x) == x / Factor(issuance))
       <==> issuance < TWO_64 || issuance % MAX_64 < issuance / MAX_64
  {
    var f, q, r := Factor(issuance), issuance / MAX_64, issuance % MAX_64;
    assert issuance == MAX_64 * q + r;
    LosslessIff(issuance, issuance);
    if issuance >= TWO_64 {
      assert q >= 1;
      assert f == q;
      assert TWO_64 * f == MAX_64 * q + q;
    }
    if issuance < TWO_64 * f {
      forall x: U128 | x <= issuance
        ensures ToVote(issuance, x) == x / f
      {
        LosslessIff(issuance, x);
      }
    } else {
      assert ToVote(issuance, issuance) != issuance / f;
    }
    if issuance < TWO_64 {
      assert issuance < TWO_64 * f;
    }
  }

  /** A vote count never overflows on the way back. */
  lemma BackIsExact(issuance: U128, v: U64)
    ensures v * Factor(issuance) < TWO_128
    ensures FromVote(issuance, v) == v * Factor(issuance)
  {
    FactorBounds(issuance);
    ScaledLess(v, MAX_64, Factor(issuance));
    ScaledLess(Factor(issuance), TWO_64 + 1, MAX_64);
  }

  /** Converting there and back loses less than one factor, and never gains. */
  lemma RoundTrip(issuance: U128, x: U128)
    requires x < TWO_64 * Factor(issuance)
    ensures 0 <= x - FromVote(issuance, ToVote(issuance, x)) < Factor(issuance)
  {
    LosslessIff(issuance, x);
    BackIsExact(issuance, ToVote(issuance, x));
    Divides(x, Factor(issuance));
  }

  /** Converting votes to a balance and back gives the same votes. */
  lemma VotesSurvive(issuance: U128, v: U64)
    ensures ToVote(issuance, FromVote(issuance, v)) == v
  {
    var f := Factor(issuance);
    BackIsExact(issuance, v);
    QuotientBelow(v * f, f, v);
    QuotientBelow(v * f, f, v + 1);
    assert (v + 1) * f == v * f + f;
  }

  lemma MonotoneOnSafe(issuance: U128, x: U128, y: U128)
    requires x <= y < TWO_64 * Factor(issuance)
    ensures ToVote(issuance, x) <= ToVote(issuance, y)
  {
    var f := Factor(issuance);
    LosslessIff(issuance, x);
    LosslessIff(issuance, y);
    QuotientBelow(x, f, y / f + 1);
    QuotientBelow(y, f, y / f + 1);
  }

  /** 2^64 is the smallest issuance whose holder of everything loses votes to the cast; it loses them all. */
  lemma WholeIssuanceLost(issuance: U128)
    ensures Factor(TWO_64) == 1 && ToVote(TWO_64, TWO_64) == 0
    ensures issuance < TWO_64 ==> ToVote(issuance, issuance) == issuance / Factor(issuance)
  {
    if issuance < TWO_64 {
      SafeBalances(issuance, issuance);
      LosslessIff(issuance, issuance);
    }
  }

  /** The factor is 1 for an issuance below 2^64 - 1, and otherwise the number of times 2^64 - 1 fits in. */
  lemma FactorExact(issuance: U128)
    ensures issuance < MAX_64 ==> Factor(issuance) == 1
    ensures issuance >= MAX_64 ==>
              MAX_64 * Factor(issuance) <= issuance < MAX_64 * (Factor(issuance) + 1)
  {
    Divides(issuance, MAX_64);
  }

  /** For such an issuance conversion is the identity, both ways. */
  lemma SmallIssuanceIsIdentity(issuance: U128, x: U64)
    requires issuance < MAX_64
    ensures ToVote(issuance, x) == x && FromVote(issuance, x) == x
  {
    FactorExact(issuance);
    LosslessIff(issuance, x);
    BackIsExact(issuance, x);
  }

  /** Whatever the cast or the wrapping product loses is a multiple of the width. */
  lemma LossIsAMultiple(issuance: U128, x: U128)
    ensures ToVote(issuance, x) == x / Factor(issuance) - x / Factor(issuance) / TWO_64 * TWO_64
    ensures FromVote(issuance, x) == x * Factor(issuance) - x * Factor(issuance) / TWO_128 * TWO_128
  {
  }
}
