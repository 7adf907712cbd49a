/** Exclusive or of natural numbers, of bytes and of byte strings. */
module ExclusiveOr {
  import opened Bytes
  import opened Prelude

  function XorNat(a: nat, b: nat): nat
    decreases a + b
  {
    if a == 0 && b == 0 then 0 else 2 * XorNat(a / 2, b / 2) + if a % 2 == b % 2 then 0 else 1
  }

  lemma {:induction false} XorBound(a: nat, b: nat, k: nat)
    requires a < Pow2(k) && b < Pow2(k)
    ensures XorNat(a, b) < Pow2(k)
  {
    if k > 0 {
      XorBound(a / 2, b / 2, k - 1);
    }
  }

  /** Exclusive or works on the two halves of a number separately. */
  lemma XorHalves(a: nat, b: nat)
    ensures XorNat(a, b) / 2 == XorNat(a / 2, b / 2)
    ensures XorNat(a, b) % 2 == if a % 2 == b % 2 then 0 else 1
  {}

  lemma {:induction false} XorCancels(a: nat, b: nat)
    ensures XorNat(XorNat(a, b), b) == a
    decreases a + b
  {
    if a != 0 || b != 0 {
      var x := XorNat(a, b);
      XorHalves(a, b);
      XorHalves(x, b);
      XorCancels(a / 2, b / 2);
    }
  }

  /** `a` above `k` bits of `x`. */
  function Above(a: nat, x: nat, k: nat): nat {
    a * Pow2(k) + x
  }

  lemma AboveHalves(a: nat, x: nat, k: nat)
    requires k > 0
    ensures Above(a, x, k) / 2 == Above(a, x / 2, k - 1) && Above(a, x, k) % 2 == x % 2
  {}

  lemma AboveNothing(a: nat, x: nat)
    ensures Above(a, x, 0) == a + x
  {}

  /** High and low parts do not mix. */
  lemma {:induction false} XorSplits(a: nat, b: nat, x: nat, y: nat, k: nat)
    requires x < Pow2(k) && y < Pow2(k)
    ensures XorNat(Above(a, x, k), Above(b, y, k)) == Above(XorNat(a, b), XorNat(x, y), k)
  {
    hide Above, XorNat;
    if k == 0 {
      AboveNothing(a, x);
      AboveNothing(b, y);
      XorBound(x, y, 0);
      AboveNothing(XorNat(a, b), XorNat(x, y));
    } else {
      XorSplits(a, b, x / 2, y / 2, k - 1);
      AboveHalves(a, x, k);
      AboveHalves(b, y, k);
      AboveHalves(XorNat(a, b), XorNat(x, y), k);
      XorHalves(x, y);
      XorHalves(Above(a, x, k), Above(b, y, k));
    }
  }

  lemma Pow2Of8()
    ensures Pow2(8) == 256
  {}

  function Xor(a: byte, b: byte): byte {
    Pow2Of8();
    XorBound(a, b, 8);
    XorNat(a, b)
  }

  lemma XorTwice(a: byte, b: byte)
    ensures Xor(Xor(a, b), b) == a
  {
    XorCancels(a, b);
  }

  lemma {:induction false} XorCommutes(a: nat, b: nat)
    ensures XorNat(a, b) == XorNat(b, a)
    decreases a + b
  {
    if a != 0 || b != 0 {
      XorCommutes(a / 2, b / 2);
    }
  }

  function XorSeq(a: bytes, b: bytes): (r: bytes)
    requires |a| == |b|
    ensures |r| == |a| && forall i :: 0 <= i < |a| ==> r[i] == Xor(a[i], b[i])
  {
    seq(|a|, i requires 0 <= i < |a| => Xor(a[i], b[i]))
  }

  /** Exclusive or of two strings read as numbers is the string of the bytewise results. */
  lemma {:induction false} XorOfNumbers(a: bytes, b: bytes)
    requires |a| == |b|
    ensures XorNat(FromBytes(a), FromBytes(b)) == FromBytes(XorSeq(a, b))
  {
    if a != [] {
      var n := |a| - 1;
      XorOfNumbers(a[..n], b[..n]);
      Pow2Of8();
      XorSplits(FromBytes(a[..n]), FromBytes(b[..n]), a[n], b[n], 8);
      assert XorSeq(a, b)[..n] == XorSeq(a[..n], b[..n]);
    }
  }
}
