/** Powers of two, bitwise exclusive or on naturals, and aligned power-of-two runs. */
module Bits {

  function Pow2(k: nat): (p: nat)
    ensures p >= 1
  {
    if k == 0 then 1 else 2 * Pow2(k - 1)
  }

  /** Bitwise exclusive or, from the least significant bit upwards. */
  function Xor(a: nat, b: nat): nat
    decreases a + b
  {
    if a == 0 && b == 0 then 0
    else (a % 2 + b % 2) % 2 + 2 * Xor(a / 2, b / 2)
  }

  /** The k low bits of `off` are clear: it can start a run of Pow2(k) bytes. */
  predicate Aligned(off: nat, k: nat) {
    k == 0 || (off % 2 == 0 && Aligned(off / 2, k - 1))
  }

  /** `off` with bit k flipped. */
  function Sibling(off: nat, k: nat): nat {
    if k == 0 then (if off % 2 == 0 then off + 1 else off - 1)
    else 2 * Sibling(off / 2, k - 1) + off % 2
  }

  /** `off` with bit k cleared: where the run of order k + 1 holding both siblings starts. */
  function Parent(off: nat, k: nat): nat {
    if k == 0 then off - off % 2
    else 2 * Parent(off / 2, k - 1) + off % 2
  }

  lemma {:induction false} XorZero(a: nat)
    ensures Xor(a, 0) == a
  {
    if a != 0 { XorZero(a / 2); }
  }

  lemma XorStep(a: nat, b: nat)
    requires b > 0
    ensures Xor(a, b) == (a % 2 + b % 2) % 2 + 2 * Xor(a / 2, b / 2)
  {
  }

  lemma Halves(x: nat)
    ensures (2 * x) / 2 == x && (2 * x) % 2 == 0
  {
  }

  /** Exclusive or with a power of two flips exactly that bit. */
  lemma {:induction false} XorFlipsOneBit(a: nat, k: nat)
    ensures Xor(a, Pow2(k)) == Sibling(a, k)
  {
    if k == 0 {
      XorZero(a / 2);
      XorStep(a, 1);
    } else {
      hide Xor;
      XorFlipsOneBit(a / 2, k - 1);
      XorStep(a, Pow2(k));
      Halves(Pow2(k - 1));
    }
  }

  lemma TwiceProduct(q: nat, p: nat)
    ensures q * (2 * p) == 2 * (q * p)
  {
  }

  lemma {:induction false} AlignedQuotient(off: nat, k: nat) returns (q: nat)
    requires Aligned(off, k)
    ensures off == q * Pow2(k)
  {
    if k == 0 {
      q := off;
    } else {
      q := AlignedQuotient(off / 2, k - 1);
      TwiceProduct(q, Pow2(k - 1));
    }
  }

  lemma {:induction false} MultipleIsAligned(q: nat, k: nat)
    ensures Aligned(q * Pow2(k), k)
  {
    if k > 0 {
      MultipleIsAligned(q, k - 1);
      TwiceProduct(q, Pow2(k - 1));
    }
  }

  lemma AlignedBy16(off: nat, k: nat)
    requires Aligned(off, k) && k >= 4
    ensures off % 16 == 0
  {
    AlignedDown(off, k, 4);
    var q := AlignedQuotient(off, 4);
    assert Pow2(4) == 16;
  }

  lemma {:induction false} Pow2Monotone(a: nat, b: nat)
    requires a <= b
    ensures Pow2(a) <= Pow2(b)
    ensures a < b ==> 2 * Pow2(a) <= Pow2(b)
    decreases b
  {
    if a < b { Pow2Monotone(a, b - 1); }
  }

  lemma Pow2Doubles(k: nat)
    ensures Pow2(k + 1) == 2 * Pow2(k)
  {
  }

  lemma {:induction false} AlignedDown(off: nat, a: nat, b: nat)
    requires b <= a && Aligned(off, a)
    ensures Aligned(off, b)
  {
    if b > 0 { AlignedDown(off / 2, a - 1, b - 1); }
  }

  lemma {:induction false} AlignedSum(off: nat, a: nat, k: nat)
    requires k <= a && Aligned(off, k)
    ensures Aligned(off + Pow2(a), k)
  {
    if k > 0 {
      AlignedSum(off / 2, a - 1, k - 1);
      assert (off + Pow2(a)) / 2 == off / 2 + Pow2(a - 1);
    }
  }

  /** Two aligned runs that share a byte are nested. */
  lemma {:induction false} Nesting(s: nat, a: nat, t: nat, b: nat, x: nat)
    requires b <= a && Aligned(s, a) && Aligned(t, b)
    requires s <= x < s + Pow2(a)
    requires t <= x < t + Pow2(b)
    ensures s <= t && t + Pow2(b) <= s + Pow2(a)
    decreases b
  {
    if b > 0 {
      Nesting(s / 2, a - 1, t / 2, b - 1, x / 2);
    }
  }

  lemma {:induction false} SiblingTwice(x: nat, k: nat)
    ensures Sibling(Sibling(x, k), k) == x && Sibling(x, k) != x
  {
    if k > 0 {
      SiblingTwice(x / 2, k - 1);
      var s := Sibling(x / 2, k - 1);
      assert (2 * s + x % 2) / 2 == s && (2 * s + x % 2) % 2 == x % 2;
    }
  }

  /** The sibling is an adjacent aligned run; the lower of the two starts their parent. */
  lemma {:induction false} SiblingFacts(off: nat, k: nat)
    requires Aligned(off, k)
    ensures Aligned(Sibling(off, k), k) && Aligned(Parent(off, k), k + 1) && Aligned(Parent(off, k), k)
    ensures || (Parent(off, k) == off && Sibling(off, k) == off + Pow2(k))
            || (Parent(off, k) == off - Pow2(k) && Sibling(off, k) == off - Pow2(k))
  {
    if k > 0 {
      var half := off / 2;
      SiblingFacts(half, k - 1);
      assert off % 2 == 0 && off == 2 * half;
      var s, p := Sibling(half, k - 1), Parent(half, k - 1);
      assert (2 * s) / 2 == s && (2 * p) / 2 == p;
    }
  }

  /** A run of order k + 1 splits into a run of order k and its sibling. */
  lemma {:induction false} HalvesAreSiblings(off: nat, k: nat)
    requires Aligned(off, k + 1)
    ensures Sibling(off, k) == off + Pow2(k) && Parent(off, k) == off
  {
    if k > 0 {
      HalvesAreSiblings(off / 2, k - 1);
    }
  }
}
