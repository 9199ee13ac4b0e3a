/** Counting the heap byte by byte, for what the status walk reports block by block. */
module BuddyStatus {
  import opened Bits
  import opened BuddySpec
  import BuddyLaws

  datatype Use = Unused | ByUser | ByKernel

  function UseOf(b: Block): Use {
    if b.Free? then Unused else if b.kernel then ByKernel else ByUser
  }

  /** The use of the block that holds byte `x`. */
  ghost function ByteUse(total: nat, m: Blocks, x: nat): Use
    requires Tiling(total, m) && x < total
  {
    assert Covered(m, x);
    var s: nat :| InBlock(m, s, x);
    UseOf(m[s])
  }

  /** How many of the first n bytes are in use `u`. */
  ghost function Bytes(total: nat, m: Blocks, n: nat, u: Use): nat
    requires Tiling(total, m) && n <= total
  {
    if n == 0 then 0
    else Bytes(total, m, n - 1, u) + (if ByteUse(total, m, n - 1) == u then 1 else 0)
  }

  lemma NoBytes(total: nat, m: Blocks)
    requires Tiling(total, m)
    ensures forall u :: Bytes(total, m, 0, u) == 0
  {
  }

  lemma {:induction false} EveryByteCounted(total: nat, m: Blocks, n: nat)
    requires Tiling(total, m) && n <= total
    ensures Bytes(total, m, n, Unused) + Bytes(total, m, n, ByUser) + Bytes(total, m, n, ByKernel) == n
  {
    hide Tiling, ByteUse;
    if n > 0 { EveryByteCounted(total, m, n - 1); }
  }

  lemma ByteUseOfBlock(total: nat, m: Blocks, s: nat, x: nat)
    requires Tiling(total, m) && InBlock(m, s, x)
    ensures x < total && ByteUse(total, m, x) == UseOf(m[s])
  {
    assert Covered(m, x);
    var t: nat :| InBlock(m, t, x) && ByteUse(total, m, x) == UseOf(m[t]);
    SameBlock(total, m, s, t, x);
  }

  lemma {:induction false} BytesOfBlock(total: nat, m: Blocks, s: nat, n: nat, u: Use)
    requires Tiling(total, m) && s in m && n <= Pow2(m[s].order) && s + n <= total
    ensures Bytes(total, m, s + n, u) == Bytes(total, m, s, u) + (if UseOf(m[s]) == u then n else 0)
    decreases n
  {
    if n > 0 {
      ByteUseOfBlock(total, m, s, s + n - 1);
      BytesOfBlock(total, m, s, n - 1, u);
    }
  }

  /** The block after a block starts where it ends, unless the heap ends there. */
  lemma NextBlock(total: nat, m: Blocks, s: nat)
    requires Tiling(total, m) && s in m
    ensures var e := s + Pow2(m[s].order); e <= total && (e == total || e in m)
  {
    var e := s + Pow2(m[s].order);
    if e < total {
      var t := BuddyLaws.BlockOf(total, m, e);
    }
  }
}
