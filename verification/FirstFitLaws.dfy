/** What first fit promises, over every state it can reach. */
module FirstFitLaws {
  import opened FirstFitSpec
  import opened Allocator

  /** The n bytes from `a` on lie in the heap and meet no live block. */
  ghost predicate FreeRange(total: nat, live: map<nat, Block>, a: nat, n: nat) {
    a + n <= total && forall s <- live :: End(live[s]) <= a || a + n <= s
  }

  // ---------------------------------------------------------------- gaps

  /** The block that holds byte `x`. */
  lemma {:induction false} BlockAt(total: nat, bs: Blocks, x: nat, n: nat) returns (i: nat)
    requires Tiled(total, bs) && n <= |bs| && x < (if n < |bs| then bs[n].start else total)
    ensures i < n && bs[i].start <= x < End(bs[i])
    decreases n
  {
    assert n > 0;
    assert Placed(total, bs, n - 1);
    if x < bs[n - 1].start { i := BlockAt(total, bs, x, n - 1); } else { i := n - 1; }
  }

  /** With no two free neighbours, a free range lies inside one free block. */
  lemma FreeRangeInBlock(total: nat, bs: Blocks, a: nat, n: nat) returns (i: nat)
    requires Valid(total, bs) && FreeRange(total, Live(bs), a, n) && n > 0
    ensures i < |bs| && bs[i].kind.Free? && bs[i].start <= a && a + n <= End(bs[i])
  {
    hide Live;
    i := BlockAt(total, bs, a, |bs|);
    assert Placed(total, bs, i);
    if bs[i].kind.Used? { LiveHas(total, bs, i); }
    if a + n > End(bs[i]) {
      InHeap(total, bs, i);
      assert !FreeNeighbours(bs, i);
      LiveHas(total, bs, i + 1);
    }
  }

  lemma FreeBlockIsRange(total: nat, bs: Blocks, i: nat, n: nat)
    requires Tiled(total, bs) && i < |bs| && bs[i].kind.Free? && n <= HEADER + bs[i].size
    ensures FreeRange(total, Live(bs), bs[i].start, n)
  {
    hide Live;
    InHeap(total, bs, i);
    forall s <- Live(bs) ensures End(Live(bs)[s]) <= bs[i].start || bs[i].start + n <= s {
      var k := LiveIsBlock(total, bs, s);
      if k < i { InOrder(total, bs, k, i); } else { InOrder(total, bs, i, k); }
    }
  }

  /** malloc takes the lowest address at which a header and the rounded size fit between live blocks,
      and refuses a nonzero request exactly when there is none. */
  lemma AllocTakesLowestGap(total: nat, bs: Blocks, size: nat, kernel: bool)
    requires Valid(total, bs) && size > 0
    ensures var r := Alloc(bs, size, kernel).1; var n := HEADER + RoundUp(size);
            && (r.None? <==> forall a :: !FreeRange(total, Live(bs), a, n))
            && (r.Some? ==> FreeRange(total, Live(bs), r.value, n) && forall a :: FreeRange(total, Live(bs), a, n) ==> r.value <= a)
    ensures Alloc(bs, size, kernel).1.None? ==> Alloc(bs, size, kernel).0 == bs
  {
    hide Live, FirstFit, FreeRange, Tiled;
    var n := HEADER + RoundUp(size);
    var i := FirstFit(bs, RoundUp(size), 0);
    forall a | FreeRange(total, Live(bs), a, n) ensures i < |bs| && bs[i].start <= a {
      var k := FreeRangeInBlock(total, bs, a, n);
      assert i <= k;
      if i < k { InOrder(total, bs, i, k); }
    }
    if i < |bs| { FreeBlockIsRange(total, bs, i, n); }
  }

  /** The block handed out is cut to the rounded size exactly when a header and eight bytes more would fit behind it;
      otherwise it is the whole gap. */
  lemma AllocCutsIffRoom(total: nat, bs: Blocks, size: nat, kernel: bool)
    requires Valid(total, bs) && Alloc(bs, size, kernel).1.Some?
    ensures var (r, s) := Alloc(bs, size, kernel); var live, n := Live(bs), RoundUp(size);
            && s.value in Live(r) && Live(r)[s.value].kind == Used(kernel)
            && var z := Live(r)[s.value].size;
               if FreeRange(total, live, s.value, HEADER + n + HEADER + 8) then z == n
               else z >= n && FreeRange(total, live, s.value, HEADER + z) && !FreeRange(total, live, s.value, HEADER + z + 1)
  {
    hide Live, FreeRange, Tiled, Merged, Carve, RoundUp;
    RoundUpIsLeast(size);
    var n, i := RoundUp(size), FirstFit(bs, RoundUp(size), 0);
    var z := CutSize(bs[i], n);
    CarveKeepsTiled(total, bs, i, n, kernel);
    CutAt(bs, i, n, kernel);
    LiveHas(total, Carve(bs, i, n, kernel), i);
    if FreeRange(total, Live(bs), bs[i].start, HEADER + n + HEADER + 8) {
      FreeGapAt(total, bs, i, HEADER + n + HEADER + 8);
    } else if bs[i].size >= n + MIN_SPLIT {
      FreeBlockIsRange(total, bs, i, HEADER + n + HEADER + 8);
    } else {
      FreeBlockIsRange(total, bs, i, HEADER + z);
      if FreeRange(total, Live(bs), bs[i].start, HEADER + z + 1) { FreeGapAt(total, bs, i, HEADER + z + 1); }
    }
  }

  function CutSize(b: Block, need: nat): nat {
    if b.size >= need + MIN_SPLIT then need else b.size
  }

  lemma CutAt(bs: Blocks, i: nat, need: nat, kernel: bool)
    requires i < |bs| && bs[i].size >= need
    ensures var r := Carve(bs, i, need, kernel); i < |r| && r[i] == Block(bs[i].start, CutSize(bs[i], need), Used(kernel))
  {
  }

  /** A free range from the start of a block lies in it. */
  lemma FreeGapAt(total: nat, bs: Blocks, i: nat, n: nat)
    requires Valid(total, bs) && i < |bs| && FreeRange(total, Live(bs), bs[i].start, n) && n > 0
    ensures n <= HEADER + bs[i].size
  {
    hide Live, FreeRange;
    var k := FreeRangeInBlock(total, bs, bs[i].start, n);
    if k < i { InOrder(total, bs, k, i); } else if i < k { InOrder(total, bs, i, k); }
  }

  // ---------------------------------------------------------------- canonical form

  /** Two fully merged heaps with the same live blocks agree on block i, if they agree before it. */
  lemma SameNext(total: nat, bs: Blocks, cs: Blocks, i: nat)
    requires Valid(total, bs) && Valid(total, cs) && Live(bs) == Live(cs)
    requires i < |bs| && i < |cs| && bs[i].start == cs[i].start
    ensures bs[i] == cs[i]
  {
    hide Live, Tiled;
    if bs[i].kind.Used? {
      UsedIsSame(total, bs, cs, i);
    } else if cs[i].kind.Used? {
      UsedIsSame(total, cs, bs, i);
    } else if End(bs[i]) < End(cs[i]) {
      FreeIsSame(total, bs, cs, i);
    } else if End(cs[i]) < End(bs[i]) {
      FreeIsSame(total, cs, bs, i);
    }
  }

  lemma UsedIsSame(total: nat, bs: Blocks, cs: Blocks, i: nat)
    requires Tiled(total, bs) && Tiled(total, cs) && Live(bs) == Live(cs)
    requires i < |bs| && i < |cs| && bs[i].start == cs[i].start && bs[i].kind.Used?
    ensures bs[i] == cs[i]
  {
    hide Live, Tiled;
    LiveHas(total, bs, i);
    var k := LiveIsBlock(total, cs, bs[i].start);
    if k < i { InOrder(total, cs, k, i); } else if i < k { InOrder(total, cs, i, k); }
  }

  lemma FreeIsSame(total: nat, bs: Blocks, cs: Blocks, i: nat)
    requires Valid(total, bs) && Tiled(total, cs) && Live(bs) == Live(cs)
    requires i < |bs| && i < |cs| && bs[i].start == cs[i].start && bs[i].kind.Free?
    ensures End(bs[i]) >= End(cs[i])
  {
    hide Live;
    if End(bs[i]) < End(cs[i]) {
      InHeap(total, cs, i);
      assert Placed(total, bs, i) && !FreeNeighbours(bs, i);
      LiveHas(total, bs, i + 1);
      var k := LiveIsBlock(total, cs, bs[i + 1].start);
      if k < i { InOrder(total, cs, k, i); } else if i < k { InOrder(total, cs, i, k); }
    }
  }

  lemma {:induction false} SamePrefix(total: nat, bs: Blocks, cs: Blocks, n: nat)
    requires Valid(total, bs) && Valid(total, cs) && Live(bs) == Live(cs) && n <= |bs|
    ensures n <= |cs| && bs[..n] == cs[..n]
  {
    hide Live;
    if n > 0 {
      SamePrefix(total, bs, cs, n - 1);
      var i := n - 1;
      if i > 0 {
        assert Placed(total, bs, i - 1) && Placed(total, cs, i - 1) && bs[..i][i - 1] == cs[..i][i - 1];
        InHeap(total, bs, i);
      }
      assert i < |cs|;
      SameNext(total, bs, cs, i);
      assert bs[..n] == bs[..i] + [bs[i]] && cs[..n] == cs[..i] + [cs[i]];
    }
  }

  /** The live blocks alone determine the whole list of blocks. */
  lemma CanonicalForm(total: nat, bs: Blocks, cs: Blocks)
    requires Valid(total, bs) && Valid(total, cs) && Live(bs) == Live(cs)
    ensures bs == cs
  {
    hide Live, Tiled;
    SamePrefix(total, bs, cs, |bs|);
    SamePrefix(total, cs, bs, |cs|);
    assert bs[..|bs|] == bs && cs[..|cs|] == cs;
  }

  lemma InitialValid(total: nat)
    requires total > HEADER
    ensures Valid(total, Initial(total)) && Live(Initial(total)) == map[]
  {
    assert Placed(total, Initial(total), 0);
    assert forall s :: s !in Live(Initial(total));
  }

  // ---------------------------------------------------------------- whole runs

  datatype Op = Malloc(size: nat, kernel: bool) | Give(start: nat)

  /** The index of the used block at `s`; the length if there is none. */
  function UsedAt(bs: Blocks, s: nat, i: nat): (r: nat)
    requires i <= |bs|
    ensures i <= r <= |bs|
    ensures r < |bs| ==> bs[r].kind.Used? && bs[r].start == s
    ensures r == |bs| ==> forall k :: i <= k < |bs| ==> !(bs[k].kind.Used? && bs[k].start == s)
    decreases |bs| - i
  {
    if i == |bs| || (bs[i].kind.Used? && bs[i].start == s) then i else UsedAt(bs, s, i + 1)
  }

  predicate Enabled(bs: Blocks, op: Op) {
    op.Give? ==> UsedAt(bs, op.start, 0) < |bs|
  }

  function Step(bs: Blocks, op: Op): Blocks
    requires Enabled(bs, op)
  {
    match op
    case Malloc(size, kernel) => Alloc(bs, size, kernel).0
    case Give(s) => Release(bs, UsedAt(bs, s, 0))
  }

  /** Each free names a block that is live at that point. */
  predicate Legal(bs: Blocks, ops: seq<Op>)
    decreases |ops|
  {
    ops == [] || (Enabled(bs, ops[0]) && Legal(Step(bs, ops[0]), ops[1..]))
  }

  function Run(bs: Blocks, ops: seq<Op>): Blocks
    requires Legal(bs, ops)
    decreases |ops|
  {
    if ops == [] then bs else Run(Step(bs, ops[0]), ops[1..])
  }

  lemma {:induction false} RunKeepsValid(total: nat, bs: Blocks, ops: seq<Op>)
    requires Valid(total, bs) && Legal(bs, ops)
    ensures Valid(total, Run(bs, ops))
    decreases |ops|
  {
    hide Valid, Alloc, Release, UsedAt;
    if ops != [] {
      match ops[0]
      case Malloc(size, kernel) =>
        AllocKeepsValid(total, bs, size, kernel);
        RunKeepsValid(total, Alloc(bs, size, kernel).0, ops[1..]);
      case Give(s) =>
        ReleaseLaws(total, bs, UsedAt(bs, s, 0));
        RunKeepsValid(total, Release(bs, UsedAt(bs, s, 0)), ops[1..]);
    }
  }

  lemma AllocKeepsValid(total: nat, bs: Blocks, size: nat, kernel: bool)
    requires Valid(total, bs)
    ensures Valid(total, Alloc(bs, size, kernel).0)
  {
    hide Tiled, Merged, Carve, RoundUp, FirstFit;
    RoundUpIsLeast(size);
    var i := FirstFit(bs, RoundUp(size), 0);
    if size > 0 && i < |bs| {
      CarveKeepsTiled(total, bs, i, RoundUp(size), kernel);
      CarveKeepsMerged(total, bs, i, RoundUp(size), kernel);
    }
  }

  /** Any two histories that leave the same blocks allocated leave the same heap; one that leaves none allocated
      has restored the single block of mm_init. */
  lemma HistoryDoesNotMatter(total: nat, ops1: seq<Op>, ops2: seq<Op>)
    requires total > HEADER && Legal(Initial(total), ops1) && Legal(Initial(total), ops2)
    ensures var r1, r2 := Run(Initial(total), ops1), Run(Initial(total), ops2);
            && (Live(r1) == Live(r2) ==> r1 == r2)
            && (Live(r1) == map[] ==> r1 == Initial(total))
  {
    hide Live, Valid;
    InitialValid(total);
    RunKeepsValid(total, Initial(total), ops1);
    RunKeepsValid(total, Initial(total), ops2);
    var r1, r2 := Run(Initial(total), ops1), Run(Initial(total), ops2);
    if Live(r1) == Live(r2) { CanonicalForm(total, r1, r2); }
    if Live(r1) == map[] { CanonicalForm(total, r1, Initial(total)); }
  }

  // ---------------------------------------------------------------- the allocator interface

  /** The payloads of live blocks: all but the header of each. */
  function Payloads(live: map<nat, Block>): Regions {
    map s | s in live && live[s].kind.Used? :: Region(s + HEADER, live[s].size, live[s].kind.kernel)
  }

  lemma PayloadsSound(total: nat, bs: Blocks)
    requires Tiled(total, bs)
    ensures Sound(total, Payloads(Live(bs)))
  {
    hide Live, Tiled;
    var live := Payloads(Live(bs));
    forall b <- live ensures b < live[b].base && 0 < live[b].size && live[b].base + live[b].size <= total {
      var i := LiveIsBlock(total, bs, b);
      PlacedAt(total, bs, i);
      InHeap(total, bs, i);
    }
    forall a <- live, b <- live | a < b ensures live[a].base + live[a].size <= b {
      var i := LiveIsBlock(total, bs, a);
      var j := LiveIsBlock(total, bs, b);
      if i < j { InOrder(total, bs, i, j); } else if j < i { InOrder(total, bs, j, i); }
    }
  }

  lemma PlacedAt(total: nat, bs: Blocks, i: nat)
    requires Tiled(total, bs) && i < |bs|
    ensures Placed(total, bs, i)
  {
  }

  /** First fit refines the allocator interface: what malloc grants. */
  lemma AllocRefines(total: nat, bs: Blocks, size: nat, kernel: bool)
    requires Valid(total, bs) && Alloc(bs, size, kernel).1.Some?
    ensures var (bs', r) := Alloc(bs, size, kernel);
            var before, after := Payloads(Live(bs)), Payloads(Live(bs'));
            && Valid(total, bs') && Sound(total, after) && Granted(before, after, size, kernel, r.value)
            && |UserPayloads(after)| == |UserPayloads(before)| + (if kernel then 0 else 1)
  {
    hide Live, Tiled, Merged, Carve, Payloads, Sound, RoundUp;
    RoundUpIsLeast(size);
    var i := FirstFit(bs, RoundUp(size), 0);
    var given := CarveLive(total, bs, i, RoundUp(size), kernel);
    AllocKeepsValid(total, bs, size, kernel);
    PayloadsSound(total, Alloc(bs, size, kernel).0);
    PayloadAdded(Live(bs), bs[i].start, given, size, kernel);
  }

  lemma PayloadAdded(live: map<nat, Block>, s: nat, given: nat, size: nat, kernel: bool)
    requires s !in live && given >= size
    ensures var before, after := Payloads(live), Payloads(live[s := Block(s, given, Used(kernel))]);
            && Granted(before, after, size, kernel, s)
            && |UserPayloads(after)| == |UserPayloads(before)| + (if kernel then 0 else 1)
  {
    var before, after := Payloads(live), Payloads(live[s := Block(s, given, Used(kernel))]);
    assert after == before[s := after[s]];
    UserCountGranted(before, s, after[s]);
  }

  /** First fit refines the allocator interface: what free gives back. */
  lemma ReleaseRefines(total: nat, bs: Blocks, i: nat)
    requires Valid(total, bs) && i < |bs| && bs[i].kind.Used?
    ensures var before, after := Payloads(Live(bs)), Payloads(Live(Release(bs, i)));
            && Valid(total, Release(bs, i)) && Sound(total, after) && Released(before, after, bs[i].start)
            && |UserPayloads(after)| == |UserPayloads(before)| - (if bs[i].kind.kernel then 0 else 1)
  {
    hide Live, Tiled, Merged, Release, Sound;
    ReleaseLaws(total, bs, i);
    PayloadsSound(total, Release(bs, i));
    LiveHas(total, bs, i);
    assert Payloads(Live(bs) - {bs[i].start}) == Payloads(Live(bs)) - {bs[i].start};
    UserCountReleased(Payloads(Live(bs)), bs[i].start);
  }

  // ---------------------------------------------------------------- status

  datatype Use = Unused | ByUser | ByKernel

  function UseOf(b: Block): Use {
    match b.kind
    case Free => Unused
    case Used(kernel) => if kernel then ByKernel else ByUser
  }

  /** The bytes, headers included, of the first n blocks that are in use `u`. */
  function Bytes(bs: Blocks, n: nat, u: Use): nat
    requires n <= |bs|
  {
    if n == 0 then 0
    else Bytes(bs, n - 1, u) + (if UseOf(bs[n - 1]) == u then HEADER + bs[n - 1].size else 0)
  }

  /** How many of the first n blocks user programs hold. */
  function UserBlocks(bs: Blocks, n: nat): nat
    requires n <= |bs|
  {
    if n == 0 then 0 else UserBlocks(bs, n - 1) + (if UseOf(bs[n - 1]) == ByUser then 1 else 0)
  }

  /** The walk's sums account for every byte up to where the next block starts. */
  lemma {:induction false} EveryByteCounted(total: nat, bs: Blocks, n: nat)
    requires Tiled(total, bs) && n <= |bs|
    ensures Bytes(bs, n, Unused) + Bytes(bs, n, ByUser) + Bytes(bs, n, ByKernel) == if n < |bs| then bs[n].start else total
  {
    if n > 0 {
      assert Placed(total, bs, n - 1);
      EveryByteCounted(total, bs, n - 1);
    }
  }

  /** Counting user blocks along the list counts live user payloads. */
  lemma {:induction false} UserBlocksAreUserPayloads(total: nat, bs: Blocks, n: nat)
    requires Tiled(total, bs) && n <= |bs|
    ensures UserBlocks(bs, n) == |UserPayloads(Payloads(Live(bs[..n])))|
  {
    if n > 0 {
      UserBlocksAreUserPayloads(total, bs, n - 1);
      assert bs[..n][..n - 1] == bs[..n - 1] && bs[..n][n - 1] == bs[n - 1];
      if bs[n - 1].kind.Used? {
        StartIsNew(total, bs, n - 1);
        PayloadAdded(Live(bs[..n - 1]), bs[n - 1].start, bs[n - 1].size, 0, bs[n - 1].kind.kernel);
      }
    }
  }

  lemma StartIsNew(total: nat, bs: Blocks, n: nat)
    requires Tiled(total, bs) && n < |bs|
    ensures bs[n].start !in Live(bs[..n])
  {
    if bs[n].start in Live(bs[..n]) {
      var i :| 0 <= i < n && bs[..n][i].start == bs[n].start;
      InOrder(total, bs, i, n);
    }
  }
}
