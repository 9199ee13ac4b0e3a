/** What the numbers of the status report mean: how an allocation or a free moves bytes from one of them to another. */
module StatusLaws {
  import opened Bits
  import opened BuddySpec
  import opened BuddyStatus
  import BuddySteps
  import BuddyLaws
  import F = FirstFitSpec
  import FL = FirstFitLaws

  // ---------------------------------------------------------------- the buddy system

  predicate Within(s: nat, k: nat, x: nat) {
    s <= x < s + Pow2(k)
  }

  /** A byte is unused exactly when no allocated block holds it; otherwise its use is that of the block that does. */
  lemma UseByLive(total: nat, m: Blocks, x: nat)
    requires Tiling(total, m) && x < total
    ensures ByteUse(total, m, x) == Unused <==> forall t: nat :: !InBlock(Live(m), t, x)
    ensures forall t: nat :: InBlock(Live(m), t, x) ==> (ByteUse(total, m, x) == if Live(m)[t].kernel then ByKernel else ByUser)
  {
    hide Pow2, Aligned;
    var s := BuddyLaws.BlockOf(total, m, x);
    ByteUseOfBlock(total, m, s, x);
    forall t: nat | InBlock(Live(m), t, x) ensures t == s { SameBlock(total, m, s, t, x); }
    assert m[s].Used? ==> InBlock(Live(m), s, x);
  }

  /** Two heaps that differ in one allocated block differ in the use of its bytes, and of no others. */
  lemma UseOfOneMore(total: nat, m: Blocks, m': Blocks, s: nat, k: nat, kernel: bool, x: nat)
    requires Tiling(total, m) && Tiling(total, m') && x < total
    requires s !in Live(m) && Live(m') == Live(m)[s := Used(k, kernel)]
    ensures ByteUse(total, m', x) == if Within(s, k, x) then (if kernel then ByKernel else ByUser) else ByteUse(total, m, x)
    ensures Within(s, k, x) ==> ByteUse(total, m, x) == Unused
  {
    hide Tiling, Pow2, ByteUse;
    UseByLive(total, m, x);
    UseByLive(total, m', x);
    assert forall t: nat :: t != s ==> (InBlock(Live(m), t, x) <==> InBlock(Live(m'), t, x));
    assert InBlock(Live(m'), s, x) <==> Within(s, k, x);
    if Within(s, k, x) {
      forall t: nat ensures !InBlock(Live(m), t, x) {
        if InBlock(Live(m), t, x) { LiveApart(total, m', s, t, x); }
      }
    } else if t: nat :| InBlock(Live(m), t, x) {
      assert InBlock(Live(m'), t, x);
    } else {
      forall t: nat ensures !InBlock(Live(m'), t, x) { assert !InBlock(Live(m), t, x); }
    }
  }

  lemma LiveApart(total: nat, m: Blocks, s: nat, t: nat, x: nat)
    requires Tiling(total, m) && InBlock(Live(m), s, x) && InBlock(Live(m), t, x)
    ensures s == t
  {
    hide Tiling;
    SameBlock(total, m, s, t, x);
  }

  function Clip(n: nat, s: nat, k: nat): nat {
    if n <= s then 0 else if n < s + Pow2(k) then n - s else Pow2(k)
  }

  lemma {:induction false} BytesOfOneMore(total: nat, m: Blocks, m': Blocks, s: nat, k: nat, kernel: bool, n: nat, u: Use)
    requires Tiling(total, m) && Tiling(total, m') && n <= total
    requires s !in Live(m) && Live(m') == Live(m)[s := Used(k, kernel)]
    ensures Bytes(total, m', n, u) == Bytes(total, m, n, u)
              + (if u == (if kernel then ByKernel else ByUser) then Clip(n, s, k) else 0) - (if u == Unused then Clip(n, s, k) else 0)
    decreases n
  {
    hide Tiling, ByteUse, Live;
    if n > 0 {
      BytesOfOneMore(total, m, m', s, k, kernel, n - 1, u);
      UseOfOneMore(total, m, m', s, k, kernel, n - 1);
    }
  }

  /** A granted request moves the bytes of its block from `free` to `used_kernel` or `used`, and leaves the third alone. */
  lemma AllocMovesBytes(total: nat, st: State, size: nat, kernel: bool)
    requires Valid(total, st) && Alloc(st, size, kernel).1.Some?
    ensures var st' := Alloc(st, size, kernel).0; var k := OrderFrom(size + HEADER, MIN_ORDER);
            && Valid(total, st') && k >= 0
            && Bytes(total, st'.blocks, total, Unused) == Bytes(total, st.blocks, total, Unused) - Pow2(k)
            && Bytes(total, st'.blocks, total, ByUser) == Bytes(total, st.blocks, total, ByUser) + (if kernel then 0 else Pow2(k))
            && Bytes(total, st'.blocks, total, ByKernel) == Bytes(total, st.blocks, total, ByKernel) + (if kernel then Pow2(k) else 0)
  {
    hide Tiling, Bytes, Live, Alloc, NoFreeSiblings, ListExact, OrderFrom;
    BuddyLaws.AllocGrants(total, st, size, kernel);
    var (st', r) := Alloc(st, size, kernel);
    var k := OrderFrom(size + HEADER, MIN_ORDER);
    forall u ensures Bytes(total, st'.blocks, total, u) == Bytes(total, st.blocks, total, u)
        + (if u == (if kernel then ByKernel else ByUser) then Pow2(k) else 0) - (if u == Unused then Pow2(k) else 0) {
      BytesOfOneMore(total, st.blocks, st'.blocks, r.value, k, kernel, total, u);
    }
  }

  /** A free moves them back. */
  lemma FreeMovesBytes(total: nat, st: State, s: nat)
    requires Valid(total, st) && s in st.blocks && st.blocks[s].Used?
    ensures var r, n, kernel := Release(st, s), Pow2(st.blocks[s].order), st.blocks[s].kernel;
            && Valid(total, r)
            && Bytes(total, r.blocks, total, Unused) == Bytes(total, st.blocks, total, Unused) + n
            && Bytes(total, r.blocks, total, ByUser) == Bytes(total, st.blocks, total, ByUser) - (if kernel then 0 else n)
            && Bytes(total, r.blocks, total, ByKernel) == Bytes(total, st.blocks, total, ByKernel) - (if kernel then n else 0)
  {
    hide Covering, Disjoint, Bytes, Release, NoFreeSiblings, ListExact;
    BuddySteps.ReleaseKeepsValid(total, st, s);
    var r, k, kernel := Release(st, s), st.blocks[s].order, st.blocks[s].kernel;
    InHeapBlock(total, st, s);
    assert Live(st.blocks) == Live(r.blocks)[s := Used(k, kernel)];
    forall u ensures Bytes(total, st.blocks, total, u) == Bytes(total, r.blocks, total, u)
        + (if u == (if kernel then ByKernel else ByUser) then Pow2(k) else 0) - (if u == Unused then Pow2(k) else 0) {
      BytesOfOneMore(total, r.blocks, st.blocks, s, k, kernel, total, u);
    }
  }

  lemma InHeapBlock(total: nat, st: State, s: nat)
    requires Valid(total, st) && s in st.blocks
    ensures s + Pow2(st.blocks[s].order) <= total
  {
  }

  // ---------------------------------------------------------------- first fit

  /** The same for first fit: the bytes of the block handed out, header included, are counted where they are used now. */
  lemma FirstFitMovesBytes(total: nat, bs: F.Blocks, size: nat, kernel: bool)
    requires F.Valid(total, bs) && F.Alloc(bs, size, kernel).1.Some?
    ensures var r := F.Alloc(bs, size, kernel).0; var i := F.FirstFit(bs, F.RoundUp(size), 0);
            var n := F.HEADER + FL.CutSize(bs[i], F.RoundUp(size));
            && FL.Bytes(r, |r|, FL.Unused) == FL.Bytes(bs, |bs|, FL.Unused) - n
            && FL.Bytes(r, |r|, FL.ByUser) == FL.Bytes(bs, |bs|, FL.ByUser) + (if kernel then 0 else n)
            && FL.Bytes(r, |r|, FL.ByKernel) == FL.Bytes(bs, |bs|, FL.ByKernel) + (if kernel then n else 0)
  {
    hide F.Valid, FL.Bytes, F.FirstFit, F.RoundUp;
    var i, need := F.FirstFit(bs, F.RoundUp(size), 0), F.RoundUp(size);
    forall u ensures FL.Bytes(F.Carve(bs, i, need, kernel), |F.Carve(bs, i, need, kernel)|, u) == FL.Bytes(bs, |bs|, u)
        + (if u == (if kernel then FL.ByKernel else FL.ByUser) then F.HEADER + FL.CutSize(bs[i], need) else 0)
        - (if u == FL.Unused then F.HEADER + FL.CutSize(bs[i], need) else 0) {
      CarveBytes(bs, i, need, kernel, u);
    }
  }

  lemma CarveBytes(bs: F.Blocks, i: nat, need: nat, kernel: bool, u: FL.Use)
    requires i < |bs| && bs[i].size >= need && bs[i].kind.Free?
    ensures var r, n := F.Carve(bs, i, need, kernel), F.HEADER + FL.CutSize(bs[i], need);
            FL.Bytes(r, |r|, u) == FL.Bytes(bs, |bs|, u)
              + (if u == (if kernel then FL.ByKernel else FL.ByUser) then n else 0) - (if u == FL.Unused then n else 0)
  {
    var b, r := bs[i], F.Carve(bs, i, need, kernel);
    assert bs == bs[..i] + [b] + bs[i + 1..];
    var mid := if b.size >= need + F.MIN_SPLIT
               then [F.Block(b.start, need, F.Used(kernel)), F.Block(b.start + F.HEADER + need, b.size - need - F.HEADER, F.Free)]
               else [b.(kind := F.Used(kernel))];
    assert r == bs[..i] + mid + bs[i + 1..];
    SumOfThree(bs[..i], [b], bs[i + 1..], u);
    SumOfThree(bs[..i], mid, bs[i + 1..], u);
    assert FL.Bytes([b], 1, u) == if FL.UseOf(b) == u then F.HEADER + b.size else 0;
    if |mid| == 2 {
      BytesSame(mid, [mid[0]], 1, u);
    }
  }

  lemma {:induction false} BytesSame(a: F.Blocks, b: F.Blocks, n: nat, u: FL.Use)
    requires n <= |a| && n <= |b| && a[..n] == b[..n]
    ensures FL.Bytes(a, n, u) == FL.Bytes(b, n, u)
  {
    if n > 0 {
      assert a[..n][..n - 1] == a[..n - 1] && b[..n][..n - 1] == b[..n - 1] && a[..n][n - 1] == b[..n][n - 1];
      BytesSame(a, b, n - 1, u);
    }
  }

  lemma {:induction false} SumOfTwo(a: F.Blocks, b: F.Blocks, n: nat, u: FL.Use)
    requires n <= |b|
    ensures FL.Bytes(a + b, |a| + n, u) == FL.Bytes(a, |a|, u) + FL.Bytes(b, n, u)
  {
    if n == 0 {
      assert (a + b)[..|a|] == a[..|a|];
      BytesSame(a + b, a, |a|, u);
    } else {
      SumOfTwo(a, b, n - 1, u);
    }
  }

  lemma SumOfThree(a: F.Blocks, b: F.Blocks, c: F.Blocks, u: FL.Use)
    ensures FL.Bytes(a + b + c, |a + b + c|, u) == FL.Bytes(a, |a|, u) + FL.Bytes(b, |b|, u) + FL.Bytes(c, |c|, u)
  {
    hide FL.Bytes;
    SumOfTwo(a, b, |b|, u);
    SumOfTwo(a + b, c, |c|, u);
  }
}
