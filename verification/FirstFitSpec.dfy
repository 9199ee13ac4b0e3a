/** The first-fit heap as a value: its blocks in address order. Offsets are bytes from the start of the heap. */
module FirstFitSpec {
  import opened Basics

  const HEADER := 24
  const ALIGN := 8
  const MIN_SPLIT := HEADER + 8

  datatype Kind = Free | Used(kernel: bool)

  datatype Block = Block(start: nat, size: nat, kind: Kind)

  type Blocks = seq<Block>

  function End(b: Block): nat {
    b.start + HEADER + b.size
  }

  /** Block i is aligned and ends where the next one starts, the last one at the end of the heap. */
  predicate Placed(total: nat, bs: Blocks, i: nat) {
    && i < |bs| && bs[i].start % ALIGN == 0 && bs[i].size > 0
    && End(bs[i]) == (if i + 1 < |bs| then bs[i + 1].start else total)
  }

  ghost predicate Tiled(total: nat, bs: Blocks) {
    && bs != [] && bs[0].start == 0
    && forall i {:trigger Placed(total, bs, i)} :: 0 <= i < |bs| ==> Placed(total, bs, i)
  }

  predicate FreeNeighbours(bs: Blocks, i: nat) {
    i + 1 < |bs| && bs[i].kind.Free? && bs[i + 1].kind.Free?
  }

  /** No two neighbours are both free, except perhaps the pairs from block `lo` up to block `hi`. */
  ghost predicate Merged(bs: Blocks, lo: int, hi: int) {
    forall i: nat {:trigger FreeNeighbours(bs, i)} :: FreeNeighbours(bs, i) ==> lo <= i < hi
  }

  ghost predicate Valid(total: nat, bs: Blocks) {
    Tiled(total, bs) && Merged(bs, 0, 0)
  }

  function Initial(total: nat): Blocks
    requires total > HEADER
  {
    [Block(0, total - HEADER, Free)]
  }

  function RoundUp(size: nat): nat {
    (size + ALIGN - 1) / ALIGN * ALIGN
  }

  /** The first free block, from `i` on, of at least `need` bytes; the length if there is none. */
  function FirstFit(bs: Blocks, need: nat, i: nat): (r: nat)
    requires i <= |bs|
    ensures i <= r <= |bs|
    ensures r < |bs| ==> bs[r].kind.Free? && bs[r].size >= need
    ensures forall k :: i <= k < r ==> !(bs[k].kind.Free? && bs[k].size >= need)
    decreases |bs| - i
  {
    if i == |bs| || (bs[i].kind.Free? && bs[i].size >= need) then i else FirstFit(bs, need, i + 1)
  }

  /** Block i becomes a used block of `need` bytes, or keeps its size if too little would be left over. */
  function Carve(bs: Blocks, i: nat, need: nat, kernel: bool): Blocks
    requires i < |bs| && bs[i].size >= need
  {
    var b := bs[i];
    if b.size >= need + MIN_SPLIT then
      bs[..i] + [Block(b.start, need, Used(kernel)), Block(b.start + HEADER + need, b.size - need - HEADER, Free)] + bs[i + 1..]
    else bs[i := b.(kind := Used(kernel))]
  }

  /** One allocation: the new blocks, and the start of the block, or None for the null pointer. */
  function Alloc(bs: Blocks, size: nat, kernel: bool): (Blocks, Option<nat>) {
    var i := FirstFit(bs, RoundUp(size), 0);
    if size == 0 || i == |bs| then (bs, None)
    else (Carve(bs, i, RoundUp(size), kernel), Some(bs[i].start))
  }

  /** Block i swallows the one after it, header and all. */
  function MergeAt(bs: Blocks, i: nat): (r: Blocks)
    requires i + 1 < |bs|
    ensures |r| == |bs| - 1 && r[i] == Block(bs[i].start, bs[i].size + HEADER + bs[i + 1].size, bs[i].kind)
    ensures forall k :: 0 <= k < |r| && k != i ==> r[k] == if k < i then bs[k] else bs[k + 1]
  {
    bs[..i] + [Block(bs[i].start, bs[i].size + HEADER + bs[i + 1].size, bs[i].kind)] + bs[i + 2..]
  }

  /** Block i swallows the free blocks that follow it. */
  function Forward(bs: Blocks, i: nat): (r: Blocks)
    requires i < |bs|
    ensures i < |r|
    decreases |bs|
  {
    if i + 1 < |bs| && bs[i + 1].kind.Free? then Forward(MergeAt(bs, i), i) else bs
  }

  /** Block i is swallowed by the one before it, if that is free. */
  function Backward(bs: Blocks, i: nat): Blocks
    requires i < |bs|
  {
    if i > 0 && bs[i - 1].kind.Free? then MergeAt(bs, i - 1) else bs
  }

  function Freed(bs: Blocks, i: nat): Blocks
    requires i < |bs|
  {
    bs[i := bs[i].(kind := Free)]
  }

  function Release(bs: Blocks, i: nat): Blocks
    requires i < |bs|
  {
    Backward(Forward(Freed(bs, i), i), i)
  }

  /** The used blocks, by start. */
  function Live(bs: Blocks): (live: map<nat, Block>)
    ensures forall s :: s in live <==> exists i :: 0 <= i < |bs| && bs[i].kind.Used? && bs[i].start == s
  {
    if bs == [] then map[]
    else
      assert bs == bs[..|bs| - 1] + [bs[|bs| - 1]];
      var rest := Live(bs[..|bs| - 1]);
      var b := bs[|bs| - 1];
      if b.kind.Used? then rest[b.start := b] else rest
  }

  // ---------------------------------------------------------------- order of addresses

  lemma {:induction false} InOrder(total: nat, bs: Blocks, i: nat, j: nat)
    requires Tiled(total, bs) && i < j < |bs|
    ensures End(bs[i]) <= bs[j].start
  {
    assert Placed(total, bs, j - 1);
    if i < j - 1 {
      InOrder(total, bs, i, j - 1);
    }
  }

  lemma {:induction false} InHeap(total: nat, bs: Blocks, i: nat)
    requires Tiled(total, bs) && i < |bs|
    ensures End(bs[i]) <= total
    decreases |bs| - i
  {
    assert Placed(total, bs, i);
    if i + 1 < |bs| { InHeap(total, bs, i + 1); }
  }

  lemma {:induction false} LiveHas(total: nat, bs: Blocks, i: nat)
    requires Tiled(total, bs) && i < |bs| && bs[i].kind.Used?
    ensures bs[i].start in Live(bs) && Live(bs)[bs[i].start] == bs[i]
  {
    LiveHasUpTo(total, bs, i, |bs|);
    assert bs[..|bs|] == bs;
  }

  lemma {:induction false} LiveHasUpTo(total: nat, bs: Blocks, i: nat, n: nat)
    requires Tiled(total, bs) && i < n <= |bs| && bs[i].kind.Used?
    ensures bs[i].start in Live(bs[..n]) && Live(bs[..n])[bs[i].start] == bs[i]
    decreases n
  {
    assert bs[..n][..n - 1] == bs[..n - 1] && bs[..n][n - 1] == bs[n - 1];
    if i < n - 1 {
      LiveHasUpTo(total, bs, i, n - 1);
      InOrder(total, bs, i, n - 1);
    }
  }

  /** A live block is one of the used blocks. */
  lemma LiveIsBlock(total: nat, bs: Blocks, s: nat) returns (i: nat)
    requires Tiled(total, bs) && s in Live(bs)
    ensures i < |bs| && bs[i].kind.Used? && bs[i].start == s && Live(bs)[s] == bs[i]
  {
    i :| 0 <= i < |bs| && bs[i].kind.Used? && bs[i].start == s;
    LiveHas(total, bs, i);
  }

  /** Two lists of blocks with the same used blocks have the same live blocks. */
  lemma SameLive(total: nat, bs: Blocks, cs: Blocks)
    requires Tiled(total, bs) && Tiled(total, cs)
    requires forall b: Block :: b.kind.Used? ==> (b in bs <==> b in cs)
    ensures Live(bs) == Live(cs)
  {
    forall s ensures s in Live(bs) <==> s in Live(cs)
             ensures s in Live(bs) && s in Live(cs) ==> Live(bs)[s] == Live(cs)[s] {
      if s in Live(bs) {
        var i := LiveIsBlock(total, bs, s);
        var j :| 0 <= j < |cs| && cs[j] == bs[i];
        LiveHas(total, cs, j);
      }
      if s in Live(cs) {
        var j := LiveIsBlock(total, cs, s);
        var i :| 0 <= i < |bs| && bs[i] == cs[j];
        LiveHas(total, bs, i);
      }
    }
  }

  // ---------------------------------------------------------------- what each step keeps

  lemma MergeKeepsTiled(total: nat, bs: Blocks, i: nat)
    requires Tiled(total, bs) && i + 1 < |bs|
    ensures Tiled(total, MergeAt(bs, i))
  {
    var r := MergeAt(bs, i);
    assert Placed(total, bs, i) && Placed(total, bs, i + 1);
    forall k | 0 <= k < |r| ensures Placed(total, r, k) {
      assert k < i ==> Placed(total, bs, k);
      assert k > i ==> Placed(total, bs, k + 1);
    }
  }

  lemma SameBlocksMerged(bs: Blocks, i: nat, b: Block)
    requires i + 1 < |bs| && bs[i].kind.Free? && bs[i + 1].kind.Free? && b.kind.Used?
    ensures b in bs <==> b in MergeAt(bs, i)
  {
    var r := MergeAt(bs, i);
    if b in bs {
      var k :| 0 <= k < |bs| && bs[k] == b;
      assert r[if k < i then k else k - 1] == b;
    }
    if b in r {
      var k :| 0 <= k < |r| && r[k] == b;
      assert bs[if k < i then k else k + 1] == b;
    }
  }

  lemma MergeKeepsLive(total: nat, bs: Blocks, i: nat)
    requires Tiled(total, bs) && i + 1 < |bs| && bs[i].kind.Free? && bs[i + 1].kind.Free?
    ensures Tiled(total, MergeAt(bs, i)) && Live(MergeAt(bs, i)) == Live(bs)
  {
    MergeKeepsTiled(total, bs, i);
    forall b: Block | b.kind.Used? ensures b in bs <==> b in MergeAt(bs, i) { SameBlocksMerged(bs, i, b); }
    SameLive(total, MergeAt(bs, i), bs);
  }

  lemma FreedKeepsTiled(total: nat, bs: Blocks, i: nat)
    requires Tiled(total, bs) && i < |bs|
    ensures Tiled(total, Freed(bs, i))
  {
    forall k | 0 <= k < |bs| ensures Placed(total, Freed(bs, i), k) {
      assert Placed(total, bs, k);
    }
  }

  lemma FreedLive(total: nat, bs: Blocks, i: nat)
    requires Tiled(total, bs) && i < |bs| && bs[i].kind.Used?
    ensures Tiled(total, Freed(bs, i)) && Live(Freed(bs, i)) == Live(bs) - {bs[i].start}
  {
    FreedKeepsTiled(total, bs, i);
    var r := Freed(bs, i);
    forall s ensures s in Live(r) <==> s in Live(bs) && s != bs[i].start
             ensures s in Live(r) && s in Live(bs) ==> Live(r)[s] == Live(bs)[s] {
      if s in Live(r) {
        var k := LiveIsBlock(total, r, s);
        LiveHas(total, bs, k);
        if k < i { InOrder(total, bs, k, i); } else { InOrder(total, bs, i, k); }
      }
      if s in Live(bs) && s != bs[i].start {
        var k := LiveIsBlock(total, bs, s);
        LiveHas(total, r, k);
      }
    }
  }

  /** Swallowing what follows leaves no free block behind block i, and keeps the live blocks. */
  lemma {:induction false} ForwardMerges(total: nat, bs: Blocks, i: nat)
    requires Tiled(total, bs) && i < |bs| && bs[i].kind.Free? && Merged(bs, i - 1, i + 1)
    ensures var r := Forward(bs, i);
            && Tiled(total, r) && Live(r) == Live(bs) && r[i].kind.Free? && Merged(r, i - 1, i)
    decreases |bs|
  {
    hide Live;
    if i + 1 < |bs| && bs[i + 1].kind.Free? {
      var m := MergeAt(bs, i);
      MergeKeepsLive(total, bs, i);
      forall k: nat ensures FreeNeighbours(m, k) ==> i - 1 <= k < i {
        assert k + 1 < i && FreeNeighbours(m, k) ==> FreeNeighbours(bs, k);
        assert k >= i && FreeNeighbours(m, k) ==> FreeNeighbours(bs, k + 1);
      }
      ForwardMerges(total, m, i);
    } else {
      assert Merged(bs, i - 1, i);
    }
  }

  lemma BackwardMerges(total: nat, bs: Blocks, i: nat)
    requires Tiled(total, bs) && i < |bs| && bs[i].kind.Free? && Merged(bs, i - 1, i)
    ensures Valid(total, Backward(bs, i)) && Live(Backward(bs, i)) == Live(bs)
  {
    hide Live;
    if i > 0 && bs[i - 1].kind.Free? {
      var r := MergeAt(bs, i - 1);
      MergeKeepsLive(total, bs, i - 1);
      forall k: nat ensures !FreeNeighbours(r, k) {
        assert k + 1 <= i - 1 && FreeNeighbours(r, k) ==> FreeNeighbours(bs, k);
        assert k >= i - 1 && FreeNeighbours(r, k) ==> FreeNeighbours(bs, k + 1);
      }
    } else {
      assert i > 0 ==> !FreeNeighbours(bs, i - 1);
    }
  }

  /** Giving back a used block removes just that one from the live blocks and leaves the heap fully merged. */
  lemma ReleaseLaws(total: nat, bs: Blocks, i: nat)
    requires Valid(total, bs) && i < |bs| && bs[i].kind.Used?
    ensures Valid(total, Release(bs, i)) && Live(Release(bs, i)) == Live(bs) - {bs[i].start}
  {
    hide Live, Tiled;
    FreedLive(total, bs, i);
    var f := Freed(bs, i);
    forall k: nat ensures FreeNeighbours(f, k) ==> i - 1 <= k < i + 1 {
      assert k != i && k + 1 != i && FreeNeighbours(f, k) ==> FreeNeighbours(bs, k);
    }
    ForwardMerges(total, f, i);
    BackwardMerges(total, Forward(f, i), i);
  }

  lemma RoundUpIsLeast(size: nat)
    ensures size <= RoundUp(size) < size + ALIGN && RoundUp(size) % ALIGN == 0 && (size > 0 ==> RoundUp(size) >= ALIGN)
  {
  }

  lemma CarveKeepsTiled(total: nat, bs: Blocks, i: nat, need: nat, kernel: bool)
    requires Tiled(total, bs) && i < |bs| && bs[i].size >= need > 0 && need % ALIGN == 0
    ensures Tiled(total, Carve(bs, i, need, kernel))
  {
    var r := Carve(bs, i, need, kernel);
    assert Placed(total, bs, i);
    forall k | 0 <= k < |r| ensures Placed(total, r, k) {
      if |r| == |bs| {
        assert Placed(total, bs, k);
      } else {
        assert k < i ==> Placed(total, bs, k);
        assert k > i + 1 ==> Placed(total, bs, k - 1);
        assert k > i + 1 ==> r[k] == bs[k - 1];
      }
    }
  }

  lemma CarveKeepsMerged(total: nat, bs: Blocks, i: nat, need: nat, kernel: bool)
    requires Merged(bs, 0, 0) && i < |bs| && bs[i].size >= need && bs[i].kind.Free?
    ensures Merged(Carve(bs, i, need, kernel), 0, 0)
  {
    var r := Carve(bs, i, need, kernel);
    forall k: nat ensures !FreeNeighbours(r, k) {
      assert (|r| == |bs| || k + 1 < i) && FreeNeighbours(r, k) ==> FreeNeighbours(bs, k);
      assert |r| > |bs| && k > i && FreeNeighbours(r, k) ==> FreeNeighbours(bs, k - 1);
    }
  }

  /** What is left of the block found: its start, at least `need` bytes, fewer than `need + MIN_SPLIT`. */
  lemma CarveLive(total: nat, bs: Blocks, i: nat, need: nat, kernel: bool) returns (size: nat)
    requires Tiled(total, bs) && i < |bs| && bs[i].size >= need > 0 && need % ALIGN == 0 && bs[i].kind.Free?
    ensures need <= size < need + MIN_SPLIT && size <= bs[i].size
    ensures Live(Carve(bs, i, need, kernel)) == Live(bs)[bs[i].start := Block(bs[i].start, size, Used(kernel))]
    ensures bs[i].start !in Live(bs)
  {
    hide Placed, Live;
    var r := Carve(bs, i, need, kernel);
    CarveKeepsTiled(total, bs, i, need, kernel);
    size := r[i].size;
    var start := bs[i].start;
    if start in Live(bs) {
      var k := LiveIsBlock(total, bs, start);
      if k < i { InOrder(total, bs, k, i); } else if k > i { InOrder(total, bs, i, k); }
    }
    forall s ensures s in Live(r) <==> s in Live(bs) || s == start
             ensures s in Live(r) && s != start ==> Live(r)[s] == Live(bs)[s]
    {
      if s in Live(r) && s != start {
        var k := LiveIsBlock(total, r, s);
        var j := if k < i || |r| == |bs| then k else k - 1;
        assert bs[j] == r[k];
        LiveHas(total, bs, j);
      }
      if s in Live(bs) {
        var k := LiveIsBlock(total, bs, s);
        var j := if k < i || |r| == |bs| then k else k + 1;
        assert r[j] == bs[k];
        LiveHas(total, r, j);
      }
    }
    LiveHas(total, r, i);
  }
}
