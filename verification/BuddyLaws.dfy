/** What the buddy system promises, over every state it can reach. */
module BuddyLaws {
  import opened Basics
  import opened Bits
  import opened BuddySpec
  import opened BuddySteps
  import opened Allocator

  /** The aligned run of 2^k bytes at `s` lies in the heap and meets no live block. */
  ghost predicate FreeRun(total: nat, live: Blocks, s: nat, k: nat) {
    && MIN_ORDER <= k <= MAX_ORDER && Aligned(s, k) && s + Pow2(k) <= total
    && forall a <- live :: a + Pow2(live[a].order) <= s || s + Pow2(k) <= a
  }

  /** A free run that is not part of a larger one. */
  ghost predicate MaximalFreeRun(total: nat, live: Blocks, s: nat, k: nat) {
    FreeRun(total, live, s, k) && (k == MAX_ORDER || !FreeRun(total, live, Parent(s, k), k + 1))
  }

  // ---------------------------------------------------------------- canonical form

  /** With no free siblings left, every free run lies inside one free block. */
  lemma {:induction false} FreeRunInFreeBlock(total: nat, m: Blocks, s: nat, k: nat) returns (t: nat)
    requires Tiling(total, m) && NoFreeSiblings(m, -1) && FreeRun(total, Live(m), s, k)
    ensures t in m && m[t].Free? && k <= m[t].order
    ensures t <= s && s + Pow2(k) <= t + Pow2(m[t].order)
    decreases k
  {
    hide Sibling, Parent, Aligned, Pow2;
    if k == MIN_ORDER {
      t := BlockOf(total, m, s);
      assert t !in Live(m);
      Nesting(t, m[t].order, s, k, s);
    } else {
      var h := k - 1;
      var u := s + Pow2(h);
      Pow2Doubles(h);
      HalvesAreSiblings(s, h);
      AlignedDown(s, k, h);
      SiblingFacts(s, h);
      var lower := FreeRunInFreeBlock(total, m, s, h);
      var upper := FreeRunInFreeBlock(total, m, u, h);
      assert !FreePair(m, s, h);
      if m[lower].order > h {
        t := lower;
        Nesting(t, m[t].order, s, k, s);
      } else if m[upper].order > h {
        t := upper;
        Nesting(t, m[t].order, s, k, u);
      } else {
        t := lower;
        assert false;
      }
    }
  }

  lemma BlockOf(total: nat, m: Blocks, x: nat) returns (t: nat)
    requires Tiling(total, m) && x < total
    ensures InBlock(m, t, x)
  {
    assert Covered(m, x);
    t :| InBlock(m, t, x);
  }

  lemma FreeBlockIsFreeRun(total: nat, m: Blocks, t: nat, s: nat, k: nat)
    requires Tiling(total, m) && t in m && m[t].Free?
    requires MIN_ORDER <= k <= m[t].order && Aligned(s, k) && t <= s && s + Pow2(k) <= t + Pow2(m[t].order)
    ensures FreeRun(total, Live(m), s, k)
  {
  }

  /** The free blocks are exactly the maximal free runs: they follow from the allocated blocks alone. */
  lemma FreeBlockIffMaximalRun(total: nat, m: Blocks, s: nat, k: nat)
    requires Tiling(total, m) && NoFreeSiblings(m, -1)
    ensures IsFree(m, s, k) <==> MaximalFreeRun(total, Live(m), s, k)
  {
    hide Sibling, Parent, Aligned, Pow2, Covering, Live;
    Pow2Doubles(k);
    if IsFree(m, s, k) {
      FreeBlockIsFreeRun(total, m, s, s, k);
      if k < MAX_ORDER && FreeRun(total, Live(m), Parent(s, k), k + 1) {
        var t := FreeRunInFreeBlock(total, m, Parent(s, k), k + 1);
        SiblingFacts(s, k);
        SameBlock(total, m, s, t, s);
      }
    }
    if MaximalFreeRun(total, Live(m), s, k) {
      var t := FreeRunInFreeBlock(total, m, s, k);
      var j := m[t].order;
      if j > k {
        SiblingFacts(s, k);
        Nesting(t, j, Parent(s, k), k + 1, s);
        FreeBlockIsFreeRun(total, m, t, Parent(s, k), k + 1);
      } else {
        assert t == s;
      }
    }
  }

  /** Canonical form: states with the same allocated blocks have the same blocks. */
  lemma CanonicalForm(total: nat, m1: Blocks, m2: Blocks)
    requires Tiling(total, m1) && NoFreeSiblings(m1, -1)
    requires Tiling(total, m2) && NoFreeSiblings(m2, -1)
    requires Live(m1) == Live(m2)
    ensures m1 == m2
  {
    SameBlocks(total, m1, m2);
    SameBlocks(total, m2, m1);
    assert m1.Keys == m2.Keys;
  }

  lemma SameBlocks(total: nat, m1: Blocks, m2: Blocks)
    requires Tiling(total, m1) && NoFreeSiblings(m1, -1)
    requires Tiling(total, m2) && NoFreeSiblings(m2, -1)
    requires Live(m1) == Live(m2)
    ensures forall s <- m1 :: s in m2 && m1[s] == m2[s]
  {
    forall s <- m1 ensures s in m2 && m1[s] == m2[s] {
      if m1[s].Free? {
        FreeBlockIffMaximalRun(total, m1, s, m1[s].order);
        FreeBlockIffMaximalRun(total, m2, s, m1[s].order);
      } else {
        assert s in Live(m1);
        assert Live(m2)[s] == m1[s];
      }
    }
  }

  // ---------------------------------------------------------------- the initial decomposition

  ghost predicate HeapSize(total: nat) {
    total % 16 == 0 && total < Pow2(MAX_ORDER + 1)
  }

  /** The first `off` bytes are tiled by free blocks, at most one of each order, all above order k. */
  ghost predicate Decomposed(st: State, off: nat, k: nat) {
    && Inv(off, st, -1) && Aligned(off, k + 1)
    && (forall s <- st.blocks :: st.blocks[s].Free? && st.blocks[s].order > k)
    && (forall i :: 0 <= i < ORDERS ==> |st.lists[i]| <= 1)
    && (forall i :: 0 <= i < ORDERS && i + MIN_ORDER <= k ==> st.lists[i] == [])
  }

  lemma DecomposeTiles(m: Blocks, off: nat, k: nat)
    requires Tiling(off, m) && Aligned(off, k) && MIN_ORDER <= k <= MAX_ORDER
    ensures off !in m && Tiling(off + Pow2(k), m[off := Free(k)])
  {
    hide Aligned, Pow2;
    var m' := m[off := Free(k)];
    forall x: nat | x < off + Pow2(k) ensures Covered(m', x) {
      if x < off {
        var t := BlockOf(off, m, x);
        assert InBlock(m', t, x);
      } else {
        assert InBlock(m', off, x);
      }
    }
  }

  lemma DecomposeStep(st: State, off: nat, k: nat)
    requires Decomposed(st, off, k) && MIN_ORDER <= k <= MAX_ORDER
    ensures Decomposed(State(st.blocks[off := Free(k)], Push(st.lists, k, off)), off + Pow2(k), k - 1)
  {
    hide Sibling, Parent, Aligned, Pow2;
    var m' := st.blocks[off := Free(k)];
    AlignedDown(off, k + 1, k);
    AlignedSum(off, k, k);
    DecomposeTiles(st.blocks, off, k);
    assert NoFreeSiblings(m', -1) by {
      hide Tiling, ListsExact;
      forall t: nat, j: nat | j < MAX_ORDER ensures !FreePair(m', t, j) {
        SiblingTwice(t, j);
        assert !FreePair(st.blocks, t, j);
      }
    }
    var lists' := Push(st.lists, k, off);
    forall i | 0 <= i < ORDERS ensures ListExact(m', lists'[i], i + MIN_ORDER, -1) {
      assert ListExact(st.blocks, st.lists[i], i + MIN_ORDER, -1);
    }
  }

  lemma DecomposeStart(total: nat)
    requires HeapSize(total)
    ensures var st := State(map[], seq(ORDERS, _ => [])); Decomposed(st, 0, MAX_ORDER) && total < Pow2(MAX_ORDER + 1)
  {
    MultipleIsAligned(0, MAX_ORDER + 1);
  }

  /** One turn of the loop, block or no block. */
  lemma DecomposeOnce(st: State, total: nat, off: nat, k: nat)
    requires MIN_ORDER <= k <= MAX_ORDER && Decomposed(st, off, k) && off <= total < off + Pow2(k + 1)
    ensures Pow2(k + 1) == 2 * Pow2(k) && off % 16 == 0
    ensures if off + Pow2(k) <= total then
              var st' := State(st.blocks[off := Free(k)], Push(st.lists, k, off));
              && (forall i :: 0 <= i < ORDERS ==> off !in st.lists[i])
              && Decomposed(st', off + Pow2(k), k - 1)
              && Decompose(st, total, off, k) == Decompose(st', total, off + Pow2(k), k - 1)
            else
              Decomposed(st, off, k - 1) && Decompose(st, total, off, k) == Decompose(st, total, off, k - 1)
  {
    hide Sibling, Parent, Pow2, Covering, NoFreeSiblings;
    Pow2Doubles(k);
    AlignedDown(off, k + 1, k);
    AlignedBy16(off, k + 1);
    if off + Pow2(k) <= total {
      DecomposeStep(st, off, k);
      forall i | 0 <= i < ORDERS ensures off !in st.lists[i] {
        assert ListExact(st.blocks, st.lists[i], i + MIN_ORDER, -1);
      }
    }
  }

  /** Leaving the loop early, once the heap is used up, loses nothing. */
  lemma {:induction false} DecomposeDone(st: State, total: nat, off: nat, k: nat)
    requires MIN_ORDER - 1 <= k <= MAX_ORDER && |st.lists| == ORDERS
    requires k < MIN_ORDER || off >= total
    ensures Decompose(st, total, off, k) == st
    decreases k
  {
    if k >= MIN_ORDER { DecomposeDone(st, total, off, k - 1); }
  }

  lemma {:induction false} DecomposeValid(st: State, total: nat, off: nat, k: nat)
    requires MIN_ORDER - 1 <= k <= MAX_ORDER && Decomposed(st, off, k)
    requires off <= total < off + Pow2(k + 1) && Aligned(total, MIN_ORDER)
    ensures Decomposed(Decompose(st, total, off, k), total, MIN_ORDER - 1)
    decreases k, total
  {
    hide Sibling, Parent, Aligned, Pow2;
    Pow2Doubles(k);
    if k < MIN_ORDER {
      Nesting(off, MIN_ORDER, total, MIN_ORDER, total);
    } else if off + Pow2(k) <= total {
      DecomposeStep(st, off, k);
      DecomposeValid(State(st.blocks[off := Free(k)], Push(st.lists, k, off)), total, off + Pow2(k), k - 1);
    } else {
      AlignedDown(off, k + 1, k);
      DecomposeValid(st, total, off, k - 1);
    }
  }

  lemma InitialDecomposed(total: nat)
    requires HeapSize(total)
    ensures Decomposed(Initial(total), total, MIN_ORDER - 1)
    ensures Live(Initial(total).blocks) == map[]
  {
    var st := State(map[], seq(ORDERS, _ => []));
    MultipleIsAligned(0, MAX_ORDER + 1);
    assert Aligned(total, MIN_ORDER) by {
      assert Pow2(4) == 16;
      MultipleIsAligned(total / 16, MIN_ORDER);
    }
    assert Decomposed(st, 0, MAX_ORDER);
    DecomposeValid(st, total, 0, MAX_ORDER);
  }

  lemma InitialValid(total: nat)
    requires HeapSize(total)
    ensures Valid(total, Initial(total)) && UserPayloads(Payloads(Live(Initial(total).blocks))) == {}
  {
    InitialDecomposed(total);
  }

  /** One block of each order at most: they end before the next power of two above the largest. */
  lemma {:induction false} DecomposeEnds(st: State, total: nat, off: nat, k: nat)
    requires |st.lists| == ORDERS && MIN_ORDER - 1 <= k <= MAX_ORDER
    ensures var r := Decompose(st, total, off, k);
            forall s <- r.blocks :: (s in st.blocks && r.blocks[s] == st.blocks[s]) || s + Pow2(r.blocks[s].order) <= off + Pow2(k + 1) - 16
    decreases k, total
  {
    if k >= MIN_ORDER {
      Pow2Doubles(k);
      PowerAtLeast16(k);
      if off + Pow2(k) <= total {
        DecomposeEnds(State(st.blocks[off := Free(k)], Push(st.lists, k, off)), total, off + Pow2(k), k - 1);
      } else {
        DecomposeEnds(st, total, off, k - 1);
      }
    }
  }

  lemma {:induction false} PowerAtLeast16(k: nat)
    requires k >= MIN_ORDER
    ensures Pow2(k) >= 16 && Pow2(k) % 16 == 0
    decreases k, 0
  {
    hide Pow2;
    if k == MIN_ORDER {
      assert Pow2(k) == 16 by { SixteenIsPower(); }
    } else {
      PowerAtLeast16(k - 1);
      Pow2Doubles(k - 1);
    }
  }

  lemma SixteenIsPower()
    ensures Pow2(MIN_ORDER) == 16
  {
    assert Pow2(4) == 16;
  }

  lemma BlockEndsAt16(total: nat, m: Blocks, s: nat)
    requires Shaped(total, m) && s in m
    ensures (s + Pow2(m[s].order)) % 16 == 0
  {
    hide Pow2, Aligned;
    PowerAtLeast16(m[s].order);
    AlignedBy16(s, m[s].order);
  }

  /** The set-up loop uses each order once, so it cuts up the whole memory exactly if that is a multiple of 16 bytes and
      smaller than twice the largest block; otherwise some last bytes are in no block. */
  lemma InitialValidIff(total: nat)
    ensures Valid(total, Initial(total)) <==> HeapSize(total)
  {
    hide Decompose, Disjoint, NoFreeSiblings, ListsExact, Pow2;
    if HeapSize(total) {
      InitialValid(total);
    } else if Valid(total, Initial(total)) {
      var m := Initial(total).blocks;
      assert total > 0 && Covered(m, total - 1);
      var s: nat :| InBlock(m, s, total - 1);
      assert s + Pow2(m[s].order) == total;
      BlockEndsAt16(total, m, s);
      DecomposeEnds(State(map[], seq(ORDERS, _ => [])), total, 0, MAX_ORDER);
    }
  }

  /** 24 bytes, which mm_init accepts: one block of 16, and the last eight bytes are in none. */
  lemma TailIsLost()
    ensures Initial(24).blocks == map[0 := Free(4)] && !Covered(Initial(24).blocks, 16) && !Valid(24, Initial(24))
  {
    var st := State(map[], seq(ORDERS, _ => []));
    LargeOrdersSkipped(st, 24, MAX_ORDER);
    assert Pow2(4) == 16;
    var st1 := State(st.blocks[0 := Free(4)], Push(st.lists, 4, 0));
    assert Decompose(st, 24, 0, 4) == Decompose(st1, 24, 16, 3);
    assert Initial(24) == st1;
    InitialValidIff(24);
  }

  /** Orders above 4 are too large for 24 bytes. */
  lemma {:induction false} LargeOrdersSkipped(st: State, total: nat, k: nat)
    requires |st.lists| == ORDERS && MIN_ORDER <= k <= MAX_ORDER && total < 32
    ensures Decompose(st, total, 0, k) == Decompose(st, total, 0, MIN_ORDER)
    decreases k, total
  {
    if k > MIN_ORDER {
      assert Pow2(k) >= 32 by { Pow2Monotone(5, k); assert Pow2(5) == 32; }
      LargeOrdersSkipped(st, total, k - 1);
    }
  }

  lemma TwoElements(q: seq<nat>, x: nat)
    requires Distinct(q)
    ensures |q| >= 2 ==> exists y: nat :: y in q && y != x
  {
    if |q| >= 2 { assert q[0] in q && q[1] in q; }
  }

  lemma OneElement(q: seq<nat>)
    ensures q != [] ==> exists y: nat :: y in q
  {
    if q != [] { assert q[0] in q; }
  }

  lemma SameShortList(q: seq<nat>, r: seq<nat>)
    requires Distinct(q) && |r| <= 1 && forall x: nat :: x in q <==> x in r
    ensures q == r
  {
    if r == [] {
      OneElement(q);
    } else {
      assert r[0] in q;
      TwoElements(q, r[0]);
    }
  }

  /** Once every allocation is freed the heap is again exactly what mm_init set up, lists included. */
  lemma AllFreedIsInitial(total: nat, st: State)
    requires HeapSize(total) && Valid(total, st) && Live(st.blocks) == map[]
    ensures st == Initial(total)
  {
    var init := Initial(total);
    InitialDecomposed(total);
    CanonicalForm(total, st.blocks, init.blocks);
    forall i | 0 <= i < ORDERS ensures st.lists[i] == init.lists[i] {
      assert ListExact(st.blocks, st.lists[i], i + MIN_ORDER, -1);
      assert ListExact(init.blocks, init.lists[i], i + MIN_ORDER, -1);
      SameShortList(st.lists[i], init.lists[i]);
    }
    assert st.lists == init.lists;
  }

  // ---------------------------------------------------------------- allocation

  /** Some free run of order k exists. */
  ghost predicate HasRun(total: nat, live: Blocks, k: int) {
    k >= 0 && exists s: nat :: FreeRun(total, live, s, k)
  }

  /** OrderFrom is the least order, from `order` on, whose blocks hold `size` bytes. */
  lemma {:induction false} OrderIsLeast(size: nat, order: nat)
    requires order <= MAX_ORDER
    ensures var r := OrderFrom(size, order);
            if r == -1 then Pow2(MAX_ORDER) < size
            else order <= r <= MAX_ORDER && size <= Pow2(r) && (r > order ==> Pow2(r - 1) < size)
    decreases MAX_ORDER - order, size
  {
    if Pow2(order) < size && order < MAX_ORDER { OrderIsLeast(size, order + 1); }
  }

  lemma {:induction false} FirstListedIsFirst(lists: seq<seq<nat>>, order: nat)
    requires |lists| == ORDERS && MIN_ORDER <= order <= MAX_ORDER + 1
    ensures var r := FirstListed(lists, order);
            if r == -1 then forall i :: order - MIN_ORDER <= i < ORDERS ==> lists[i] == []
            else order <= r <= MAX_ORDER && lists[r - MIN_ORDER] != []
                 && forall i :: order - MIN_ORDER <= i < r - MIN_ORDER ==> lists[i] == []
    decreases MAX_ORDER + 1 - order, lists
  {
    if order <= MAX_ORDER && lists[order - MIN_ORDER] == [] { FirstListedIsFirst(lists, order + 1); }
  }

  /** A list is nonempty from some order on exactly when a free run of that order exists. */
  lemma ListedIffFreeRun(total: nat, st: State, order: nat)
    requires Valid(total, st) && MIN_ORDER <= order <= MAX_ORDER
    ensures FirstListed(st.lists, order) == -1 <==> !HasRun(total, Live(st.blocks), order)
  {
    hide Sibling, Parent, Aligned, Pow2;
    FirstListedIsFirst(st.lists, order);
    var found := FirstListed(st.lists, order);
    if HasRun(total, Live(st.blocks), order) {
      var s: nat :| FreeRun(total, Live(st.blocks), s, order);
      var t := FreeRunInFreeBlock(total, st.blocks, s, order);
      var i := st.blocks[t].order - MIN_ORDER;
      assert ListExact(st.blocks, st.lists[i], i + MIN_ORDER, -1);
      assert t in st.lists[i];
    }
    if found != -1 {
      HeadIsFreeRun(total, st, found, order);
    }
  }

  /** The head of a list of order `found` starts a free run of every order up to `found`. */
  lemma HeadIsFreeRun(total: nat, st: State, found: nat, order: nat)
    requires Valid(total, st) && MIN_ORDER <= order <= found <= MAX_ORDER && st.lists[found - MIN_ORDER] != []
    ensures FreeRun(total, Live(st.blocks), st.lists[found - MIN_ORDER][0], order)
  {
    hide Sibling, Parent, Aligned, Pow2;
    var t := st.lists[found - MIN_ORDER][0];
    assert t in st.lists[found - MIN_ORDER];
    assert ListExact(st.blocks, st.lists[found - MIN_ORDER], found, -1);
    AlignedDown(t, found, order);
    Pow2Monotone(order, found);
    FreeBlockIsFreeRun(total, st.blocks, t, t, order);
  }

  lemma ServeIsExact(lists: seq<seq<nat>>, size: nat)
    requires |lists| == ORDERS
    ensures var k := OrderFrom(size + HEADER, MIN_ORDER);
            match Serve(lists, size)
            case None => size == 0 || k == -1 || FirstListed(lists, k) == -1
            case Some((found, order)) => size != 0 && order == k && found == FirstListed(lists, k)
                                         && size + HEADER <= Pow2(order)
  {
    OrderIsLeast(size + HEADER, MIN_ORDER);
    var k := OrderFrom(size + HEADER, MIN_ORDER);
    if k != -1 { FirstListedIsFirst(lists, k); }
  }

  /** Failure is complete: a nonzero request is refused exactly when no free run of its order exists. */
  lemma AllocFailsIffNoRun(total: nat, st: State, size: nat, kernel: bool)
    requires Valid(total, st)
    ensures Alloc(st, size, kernel).1.None? <==>
            size == 0 || OrderFrom(size + HEADER, MIN_ORDER) == -1
            || !HasRun(total, Live(st.blocks), OrderFrom(size + HEADER, MIN_ORDER))
    ensures Alloc(st, size, kernel).1.None? ==> Alloc(st, size, kernel).0 == st
  {
    ServeIsExact(st.lists, size);
    OrderIsLeast(size + HEADER, MIN_ORDER);
    var k := OrderFrom(size + HEADER, MIN_ORDER);
    if k != -1 {
      ListedIffFreeRun(total, st, k);
      FirstListedIsFirst(st.lists, k);
    }
  }

  /** A granted block was a free run of the needed order; it is the only change to the live blocks. */
  lemma AllocGrants(total: nat, st: State, size: nat, kernel: bool)
    requires Valid(total, st) && Alloc(st, size, kernel).1.Some?
    ensures var (st', r) := Alloc(st, size, kernel); var s, k: int := r.value, OrderFrom(size + HEADER, MIN_ORDER);
            && Valid(total, st') && MIN_ORDER <= k <= MAX_ORDER && size + HEADER <= Pow2(k)
            && FreeRun(total, Live(st.blocks), s, k) && s !in Live(st.blocks)
            && Live(st'.blocks) == Live(st.blocks)[s := Used(k, kernel)]
  {
    hide Sibling, Parent, Aligned, Pow2;
    ServeIsExact(st.lists, size);
    var (found, k) := Serve(st.lists, size).value;
    CarveKeepsValid(total, st, found, k, kernel);
    HeadIsFreeRun(total, st, found, k);
  }

  /** Best fit: the block granted is the start of a maximal free run, and no maximal free run that would do is smaller. */
  lemma AllocTakesSmallestRun(total: nat, st: State, size: nat, kernel: bool) returns (j: nat)
    requires Valid(total, st) && Alloc(st, size, kernel).1.Some?
    ensures var live := Live(st.blocks);
            && MaximalFreeRun(total, live, Alloc(st, size, kernel).1.value, j) && size + HEADER <= Pow2(j)
            && forall t: nat, i: nat :: MaximalFreeRun(total, live, t, i) && size + HEADER <= Pow2(i) ==> j <= i
  {
    hide Sibling, Parent, Aligned, Pow2, Live, MaximalFreeRun, Tiling, NoFreeSiblings;
    ServeIsExact(st.lists, size);
    OrderIsLeast(size + HEADER, MIN_ORDER);
    var (found, k) := Serve(st.lists, size).value;
    FirstListedIsFirst(st.lists, k);
    Pow2Monotone(k, found);
    j := found;
    ListedIsMaximal(total, st, found);
    forall t: nat, i: nat | MaximalFreeRun(total, Live(st.blocks), t, i) && size + HEADER <= Pow2(i) ensures j <= i {
      MaximalIsListed(total, st, t, i);
      if i < k { Pow2Monotone(i, k - 1); }
    }
  }

  lemma ListedIsMaximal(total: nat, st: State, k: nat)
    requires Valid(total, st) && MIN_ORDER <= k <= MAX_ORDER && st.lists[k - MIN_ORDER] != []
    ensures MaximalFreeRun(total, Live(st.blocks), st.lists[k - MIN_ORDER][0], k)
  {
    hide MaximalFreeRun, Tiling, NoFreeSiblings, Live;
    var q := st.lists[k - MIN_ORDER];
    assert ListExact(st.blocks, q, k - MIN_ORDER + MIN_ORDER, -1);
    assert q[0] in q;
    FreeBlockIffMaximalRun(total, st.blocks, q[0], k);
  }

  lemma MaximalIsListed(total: nat, st: State, t: nat, i: nat)
    requires Valid(total, st) && MaximalFreeRun(total, Live(st.blocks), t, i)
    ensures MIN_ORDER <= i <= MAX_ORDER && t in st.lists[i - MIN_ORDER]
  {
    hide Sibling, Parent, Aligned, Pow2, Live, Tiling, NoFreeSiblings;
    FreeBlockIffMaximalRun(total, st.blocks, t, i);
    assert ListExact(st.blocks, st.lists[i - MIN_ORDER], i, -1);
  }

  /** The block freed last is the one handed out next, if it could not be coalesced and a request needs its size. */
  lemma LastFreedIsNext(total: nat, st: State, s: nat, size: nat, kernel: bool)
    requires Valid(total, st) && Held(st, s) && size > 0 && OrderFrom(size + HEADER, MIN_ORDER) == st.blocks[s].order
    ensures var r := Release(st, s);
            MaximalFreeRun(total, Live(r.blocks), s, st.blocks[s].order) ==> Alloc(r, size, kernel).1 == Some(s)
  {
    hide Sibling, Parent, Aligned, Pow2, Live, MaximalFreeRun, Tiling, NoFreeSiblings, FirstListed, OrderFrom;
    var k, r := st.blocks[s].order, Release(st, s);
    ReleaseKeepsValid(total, st, s);
    if MaximalFreeRun(total, Live(r.blocks), s, k) {
      FreeBlockIffMaximalRun(total, r.blocks, s, k);
      UnsealKeepsInv(total, st, s);
      CoalesceHead(total, st.(blocks := st.blocks[s := Free(k)]), s, k, s, k);
      ServeIsExact(r.lists, size);
      FirstListedIsFirst(r.lists, k);
    }
  }

  /** Where coalescing stops, the block is at the head of its list; a block it has grown past is no block any more. */
  lemma {:induction false} CoalesceHead(total: nat, st: State, s: nat, k: nat, x: nat, i: nat)
    requires Inv(total, st, s) && IsFree(st.blocks, s, k) && MIN_ORDER <= k <= MAX_ORDER && MIN_ORDER <= i <= k
    requires s <= x < s + Pow2(k) && (i == k ==> x == s)
    requires IsFree(Coalesce(st, s, k).blocks, x, i)
    ensures i == k && Coalesce(st, s, k).lists[k - MIN_ORDER] != [] && Coalesce(st, s, k).lists[k - MIN_ORDER][0] == s
    decreases MAX_ORDER - k
  {
    hide Sibling, Parent, Aligned, Pow2, NoFreeSiblings, Covering, ListExact;
    if k < MAX_ORDER && IsFree(st.blocks, Sibling(s, k), k) {
      MergeKeepsInv(total, st, s, k);
      SiblingFacts(s, k);
      Pow2Doubles(k);
      CoalesceHead(total, MergeOnce(st, s, k), Parent(s, k), k + 1, x, i);
    } else if i < k {
      SameBlock(total, st.blocks, s, x, x);
    }
  }

  // ---------------------------------------------------------------- whole runs

  datatype Op = Malloc(size: nat, kernel: bool) | Give(start: nat)

  /** Each free names a block that is live at that point. */
  predicate Legal(st: State, ops: seq<Op>)
    requires |st.lists| == ORDERS
    decreases |ops|
  {
    ops == [] ||
    match ops[0]
    case Malloc(size, kernel) =>
      var st' := Alloc(st, size, kernel).0;
      |st'.lists| == ORDERS && Legal(st', ops[1..])
    case Give(s) =>
      Held(st, s) && Legal(Release(st, s), ops[1..])
  }

  function Run(st: State, ops: seq<Op>): State
    requires |st.lists| == ORDERS && Legal(st, ops)
    decreases |ops|
  {
    if ops == [] then st
    else
      match ops[0]
      case Malloc(size, kernel) => Run(Alloc(st, size, kernel).0, ops[1..])
      case Give(s) => Run(Release(st, s), ops[1..])
  }

  lemma {:induction false} RunKeepsValid(total: nat, st: State, ops: seq<Op>)
    requires Valid(total, st) && Legal(st, ops)
    ensures Valid(total, Run(st, ops))
    decreases |ops|
  {
    if ops != [] {
      match ops[0]
      case Malloc(size, kernel) =>
        if Alloc(st, size, kernel).1.Some? { AllocGrants(total, st, size, kernel); }
        RunKeepsValid(total, Alloc(st, size, kernel).0, ops[1..]);
      case Give(s) =>
        ReleaseKeepsValid(total, st, s);
        RunKeepsValid(total, Release(st, s), ops[1..]);
    }
  }

  /** Any two histories of the heap that leave the same blocks allocated leave the same free blocks too;
      one that leaves none allocated has restored the heap as mm_init made it. */
  lemma HistoryDoesNotMatter(total: nat, ops1: seq<Op>, ops2: seq<Op>)
    requires HeapSize(total) && |Initial(total).lists| == ORDERS
    requires Legal(Initial(total), ops1) && Legal(Initial(total), ops2)
    ensures var r1, r2 := Run(Initial(total), ops1), Run(Initial(total), ops2);
            && (Live(r1.blocks) == Live(r2.blocks) ==> r1.blocks == r2.blocks)
            && (Live(r1.blocks) == map[] ==> r1 == Initial(total))
  {
    InitialDecomposed(total);
    RunKeepsValid(total, Initial(total), ops1);
    RunKeepsValid(total, Initial(total), ops2);
    var r1, r2 := Run(Initial(total), ops1), Run(Initial(total), ops2);
    if Live(r1.blocks) == Live(r2.blocks) { CanonicalForm(total, r1.blocks, r2.blocks); }
    if Live(r1.blocks) == map[] { AllFreedIsInitial(total, r1); }
  }

  // ---------------------------------------------------------------- the allocator interface

  /** The payloads of live blocks: all but the header of each. */
  function Payloads(live: Blocks): Regions {
    map s | s in live && live[s].Used? ::
      Region(s + HEADER, if Pow2(live[s].order) <= HEADER then 0 else Pow2(live[s].order) - HEADER, live[s].kernel)
  }

  lemma OrderHoldsHeader(k: nat)
    requires k >= MIN_ORDER
    ensures Pow2(k) >= 16
  {
    Pow2Monotone(MIN_ORDER, k);
    assert Pow2(4) == 16;
  }

  lemma PayloadsSound(total: nat, m: Blocks)
    requires Tiling(total, m)
    ensures Sound(total, Payloads(Live(m)))
  {
    forall s <- m ensures Pow2(m[s].order) >= 16 { OrderHoldsHeader(m[s].order); }
  }

  lemma PayloadAdded(live: Blocks, s: nat, k: nat, kernel: bool, size: nat)
    requires s !in live && size + HEADER <= Pow2(k)
    ensures var before, after := Payloads(live), Payloads(live[s := Used(k, kernel)]);
            && Granted(before, after, size, kernel, s)
            && |UserPayloads(after)| == |UserPayloads(before)| + (if kernel then 0 else 1)
  {
    var before, after := Payloads(live), Payloads(live[s := Used(k, kernel)]);
    assert after == before[s := after[s]];
    UserCountGranted(before, s, after[s]);
  }

  lemma PayloadRemoved(live: Blocks, s: nat)
    requires s in live && live[s].Used?
    ensures var before, after := Payloads(live), Payloads(live - {s});
            && Released(before, after, s)
            && |UserPayloads(after)| == |UserPayloads(before)| - (if live[s].kernel then 0 else 1)
  {
    assert Payloads(live - {s}) == Payloads(live) - {s};
    UserCountReleased(Payloads(live), s);
  }

  /** The buddy system refines the allocator interface: what malloc grants. */
  lemma AllocRefines(total: nat, st: State, size: nat, kernel: bool)
    requires Valid(total, st) && Alloc(st, size, kernel).1.Some?
    ensures var (st', r) := Alloc(st, size, kernel);
            var before, after := Payloads(Live(st.blocks)), Payloads(Live(st'.blocks));
            && Sound(total, after)
            && Granted(before, after, size, kernel, r.value)
            && |UserPayloads(after)| == |UserPayloads(before)| + (if kernel then 0 else 1)
  {
    AllocGrants(total, st, size, kernel);
    PayloadsSound(total, Alloc(st, size, kernel).0.blocks);
    PayloadAdded(Live(st.blocks), Alloc(st, size, kernel).1.value, OrderFrom(size + HEADER, MIN_ORDER), kernel, size);
  }

  /** The buddy system refines the allocator interface: what free gives back. */
  lemma ReleaseRefines(total: nat, st: State, s: nat)
    requires Valid(total, st) && s in st.blocks && st.blocks[s].Used?
    ensures var before, after := Payloads(Live(st.blocks)), Payloads(Live(Release(st, s).blocks));
            && Sound(total, after)
            && Released(before, after, s)
            && |UserPayloads(after)| == |UserPayloads(before)| - (if st.blocks[s].kernel then 0 else 1)
  {
    ReleaseKeepsValid(total, st, s);
    PayloadsSound(total, Release(st, s).blocks);
    PayloadRemoved(Live(st.blocks), s);
  }
}
