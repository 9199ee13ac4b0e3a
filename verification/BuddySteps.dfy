/** Every step of the buddy system keeps the tiling, the free lists and the absence of free siblings. */
module BuddySteps {
  import opened Bits
  import opened BuddySpec

  lemma SplitTiles(total: nat, m: Blocks, s: nat, k: nat)
    requires Tiling(total, m) && IsFree(m, s, k + 1) && MIN_ORDER <= k < MAX_ORDER
    ensures s + Pow2(k) !in m
    ensures Tiling(total, m[s := Free(k)][s + Pow2(k) := Free(k)])
  {
    hide Sibling, Parent, Aligned, Pow2;
    var u := s + Pow2(k);
    var m' := m[s := Free(k)][u := Free(k)];
    Pow2Doubles(k);
    forall x: nat | x < total ensures Covered(m', x) {
      assert Covered(m, x);
      var t: nat :| InBlock(m, t, x);
      assert InBlock(m', if t != s then t else if x < u then s else u, x);
    }
    SplitShape(total, m, s, k);
  }

  lemma SplitShape(total: nat, m: Blocks, s: nat, k: nat)
    requires Shaped(total, m) && Disjoint(m) && IsFree(m, s, k + 1) && MIN_ORDER <= k < MAX_ORDER
    ensures var m' := m[s := Free(k)][s + Pow2(k) := Free(k)];
            s + Pow2(k) !in m && Shaped(total, m') && Disjoint(m')
  {
    hide Sibling, Parent, Aligned, Pow2;
    var u := s + Pow2(k);
    var m' := m[s := Free(k)][u := Free(k)];
    HalvesAreSiblings(s, k);
    AlignedDown(s, k + 1, k);
    SiblingFacts(s, k);
    Pow2Doubles(k);
    assert s + Pow2(k + 1) <= total;
    assert u !in m;
    forall a <- m', b <- m' | a < b ensures a + Pow2(m'[a].order) <= b {
      if a == s && b != u { assert b in m; }
      if a == u { assert b in m; }
      if b == u && a != s { assert a in m; }
    }
  }

  lemma SplitSiblings(m: Blocks, s: nat, k: nat)
    requires NoFreeSiblings(m, s) && IsFree(m, s, k + 1) && s + Pow2(k) !in m && Aligned(s, k + 1)
    ensures NoFreeSiblings(m[s := Free(k)][s + Pow2(k) := Free(k)], s)
  {
    hide Sibling, Parent, Aligned, Pow2;
    var u := s + Pow2(k);
    var m' := m[s := Free(k)][u := Free(k)];
    HalvesAreSiblings(s, k);
    SiblingTwice(s, k);
    forall t: nat, j: nat | j < MAX_ORDER && t != s && Sibling(t, j) != s
      ensures !FreePair(m', t, j)
    {
      assert !FreePair(m, t, j);
      SplitPair(m, s, u, k, t, j);
    }
  }

  /** Two free halves, siblings of each other, make no other free pair. */
  lemma SplitPair(m: Blocks, s: nat, u: nat, k: nat, t: nat, j: nat)
    requires !FreePair(m, t, j) && Sibling(u, k) == s && t != s && Sibling(t, j) != s
    ensures !FreePair(m[s := Free(k)][u := Free(k)], t, j)
  {
    hide Sibling;
    SiblingTwice(t, j);
  }

  lemma SplitLists(m: Blocks, lists: seq<seq<nat>>, s: nat, k: nat)
    requires ListsExact(m, lists, s) && IsFree(m, s, k + 1) && s + Pow2(k) !in m && MIN_ORDER <= k < MAX_ORDER
    ensures ListsExact(m[s := Free(k)][s + Pow2(k) := Free(k)], Push(lists, k, s + Pow2(k)), s)
  {
    hide Sibling, Parent, Aligned, Pow2;
    var u := s + Pow2(k);
    var m' := m[s := Free(k)][u := Free(k)];
    var lists' := Push(lists, k, u);
    forall i | 0 <= i < ORDERS ensures ListExact(m', lists'[i], i + MIN_ORDER, s) {
      assert ListExact(m, lists[i], i + MIN_ORDER, s);
      if i == k - MIN_ORDER {
        assert lists'[i] == [u] + lists[i] && u !in lists[i];
      }
    }
  }

  lemma SplitKeepsInv(total: nat, st: State, s: nat, k: nat)
    requires Inv(total, st, s) && IsFree(st.blocks, s, k + 1) && MIN_ORDER <= k < MAX_ORDER
    ensures Inv(total, SplitOnce(st, s, k), s)
    ensures IsFree(SplitOnce(st, s, k).blocks, s, k)
    ensures Live(SplitOnce(st, s, k).blocks) == Live(st.blocks)
  {
    hide Sibling, Parent, Aligned, Pow2;
    SplitTiles(total, st.blocks, s, k);
    SplitSiblings(st.blocks, s, k);
    SplitLists(st.blocks, st.lists, s, k);
  }

  lemma {:induction false} SplitToKeepsInv(total: nat, st: State, s: nat, found: nat, order: nat)
    requires Inv(total, st, s) && IsFree(st.blocks, s, found) && MIN_ORDER <= order <= found <= MAX_ORDER
    ensures var r := SplitTo(st, s, found, order);
            Inv(total, r, s) && IsFree(r.blocks, s, order) && Live(r.blocks) == Live(st.blocks)
    decreases found
  {
    if found > order {
      SplitKeepsInv(total, st, s, found - 1);
      SplitToKeepsInv(total, SplitOnce(st, s, found - 1), s, found - 1, order);
    }
  }

  lemma SameShapeTiles(total: nat, m: Blocks, s: nat, b: Block)
    requires Tiling(total, m) && s in m && b.order == m[s].order
    ensures Tiling(total, m[s := b])
  {
    var m' := m[s := b];
    forall x: nat | x < total ensures Covered(m', x) {
      assert Covered(m, x);
      var t: nat :| InBlock(m, t, x);
      assert InBlock(m', t, x);
    }
  }

  lemma PopLists(m: Blocks, lists: seq<seq<nat>>, i: nat)
    requires ListsExact(m, lists, -1) && i < ORDERS && lists[i] != []
    ensures ListsExact(m, lists[i := lists[i][1..]], lists[i][0])
    ensures IsFree(m, lists[i][0], i + MIN_ORDER)
  {
    var s := lists[i][0];
    assert lists[i] == [s] + lists[i][1..];
    assert s in lists[i] && ListExact(m, lists[i], i + MIN_ORDER, -1);
    var lists' := lists[i := lists[i][1..]];
    forall j | 0 <= j < ORDERS ensures ListExact(m, lists'[j], j + MIN_ORDER, s) {
      assert ListExact(m, lists[j], j + MIN_ORDER, -1);
    }
  }

  lemma DropSiblings(m: Blocks, s: nat)
    requires NoFreeSiblings(m, -1)
    ensures NoFreeSiblings(m, s)
  {
  }

  lemma PopKeepsInv(total: nat, st: State, found: nat)
    requires Valid(total, st) && MIN_ORDER <= found <= MAX_ORDER && st.lists[found - MIN_ORDER] != []
    ensures var i := found - MIN_ORDER;
            && IsFree(st.blocks, st.lists[i][0], found)
            && Inv(total, st.(lists := st.lists[i := st.lists[i][1..]]), st.lists[i][0])
  {
    hide Tiling, NoFreeSiblings;
    PopLists(st.blocks, st.lists, found - MIN_ORDER);
    DropSiblings(st.blocks, st.lists[found - MIN_ORDER][0]);
  }

  lemma SealSiblings(m: Blocks, s: nat, b: Block)
    requires NoFreeSiblings(m, s) && b.Used?
    ensures NoFreeSiblings(m[s := b], -1)
  {
    var m' := m[s := b];
    forall t: nat, j: nat | j < MAX_ORDER ensures !FreePair(m', t, j) {
      if t != s && Sibling(t, j) != s { assert !FreePair(m, t, j); }
    }
  }

  lemma SealLists(m: Blocks, lists: seq<seq<nat>>, s: nat, b: Block)
    requires ListsExact(m, lists, s) && b.Used?
    ensures ListsExact(m[s := b], lists, -1)
  {
    var m' := m[s := b];
    forall i | 0 <= i < ORDERS ensures ListExact(m', lists[i], i + MIN_ORDER, -1) {
      assert ListExact(m, lists[i], i + MIN_ORDER, s);
    }
  }

  lemma SealKeepsValid(total: nat, st: State, s: nat, k: nat, kernel: bool)
    requires Inv(total, st, s) && IsFree(st.blocks, s, k)
    ensures Valid(total, st.(blocks := st.blocks[s := Used(k, kernel)]))
    ensures Live(st.blocks[s := Used(k, kernel)]) == Live(st.blocks)[s := Used(k, kernel)]
  {
    SameShapeTiles(total, st.blocks, s, Used(k, kernel));
    SealSiblings(st.blocks, s, Used(k, kernel));
    SealLists(st.blocks, st.lists, s, Used(k, kernel));
  }

  /** Allocating from a list keeps the invariant and adds exactly the one block. */
  lemma CarveKeepsValid(total: nat, st: State, found: nat, order: nat, kernel: bool)
    requires Valid(total, st) && MIN_ORDER <= order <= found <= MAX_ORDER
    requires st.lists[found - MIN_ORDER] != []
    ensures IsFree(st.blocks, st.lists[found - MIN_ORDER][0], found)
    ensures Valid(total, Carve(st, found, order, kernel))
    ensures Live(Carve(st, found, order, kernel).blocks)
            == Live(st.blocks)[st.lists[found - MIN_ORDER][0] := Used(order, kernel)]
  {
    var i := found - MIN_ORDER;
    var s := st.lists[i][0];
    var popped := st.(lists := st.lists[i := st.lists[i][1..]]);
    PopKeepsInv(total, st, found);
    SplitToKeepsInv(total, popped, s, found, order);
    SealKeepsValid(total, SplitTo(popped, s, found, order), s, order, kernel);
  }

  lemma MergeTiles(total: nat, m: Blocks, s: nat, k: nat)
    requires Tiling(total, m) && IsFree(m, s, k) && IsFree(m, Sibling(s, k), k) && MIN_ORDER <= k < MAX_ORDER
    ensures Tiling(total, (m - {s, Sibling(s, k)})[Parent(s, k) := Free(k + 1)])
  {
    hide Sibling, Parent, Aligned, Pow2;
    SiblingFacts(s, k);
    var b, p := Sibling(s, k), Parent(s, k);
    var m' := (m - {s, b})[p := Free(k + 1)];
    Pow2Doubles(k);
    forall x: nat | x < total ensures Covered(m', x) {
      assert Covered(m, x);
      var t: nat :| InBlock(m, t, x);
      assert InBlock(m', if t == s || t == b then p else t, x);
    }
    MergeShape(total, m, s, k);
  }

  lemma MergeShape(total: nat, m: Blocks, s: nat, k: nat)
    requires Shaped(total, m) && Disjoint(m) && MIN_ORDER <= k < MAX_ORDER
    requires IsFree(m, s, k) && IsFree(m, Sibling(s, k), k)
    ensures var m' := (m - {s, Sibling(s, k)})[Parent(s, k) := Free(k + 1)];
            Shaped(total, m') && Disjoint(m')
  {
    hide Sibling, Parent, Aligned, Pow2;
    SiblingFacts(s, k);
    var b, p := Sibling(s, k), Parent(s, k);
    var m' := (m - {s, b})[p := Free(k + 1)];
    Pow2Doubles(k);
    assert s + Pow2(k) <= total && b + Pow2(k) <= total;
    forall a <- m', c <- m' | a < c ensures a + Pow2(m'[a].order) <= c {
      if a == p { assert c in m && c != s && c != b; }
      if c == p { assert a in m && a != s && a != b; }
    }
  }

  lemma MergeSiblings(m: Blocks, s: nat, k: nat)
    requires NoFreeSiblings(m, s) && IsFree(m, s, k) && IsFree(m, Sibling(s, k), k) && Aligned(s, k)
    ensures NoFreeSiblings((m - {s, Sibling(s, k)})[Parent(s, k) := Free(k + 1)], Parent(s, k))
  {
    hide Sibling, Parent, Aligned, Pow2;
    SiblingFacts(s, k);
    var p := Parent(s, k);
    var m' := (m - {s, Sibling(s, k)})[p := Free(k + 1)];
    forall t: nat, j: nat | j < MAX_ORDER && t != p && Sibling(t, j) != p ensures !FreePair(m', t, j) {
      if t != s && Sibling(t, j) != s { assert !FreePair(m, t, j); }
    }
  }

  lemma MergeLists(m: Blocks, lists: seq<seq<nat>>, s: nat, k: nat)
    requires ListsExact(m, lists, s) && IsFree(m, s, k) && IsFree(m, Sibling(s, k), k) && Aligned(s, k)
    requires MIN_ORDER <= k < MAX_ORDER
    ensures Sibling(s, k) in lists[k - MIN_ORDER]
    ensures ListsExact((m - {s, Sibling(s, k)})[Parent(s, k) := Free(k + 1)],
                       lists[k - MIN_ORDER := Without(lists[k - MIN_ORDER], Sibling(s, k))], Parent(s, k))
  {
    hide Sibling, Parent, Aligned, Pow2;
    SiblingFacts(s, k);
    var b, p := Sibling(s, k), Parent(s, k);
    var m' := (m - {s, b})[p := Free(k + 1)];
    var at := k - MIN_ORDER;
    var lists' := lists[at := Without(lists[at], b)];
    assert ListExact(m, lists[at], k, s);
    WithoutDistinct(lists[at], b);
    forall i | 0 <= i < ORDERS ensures ListExact(m', lists'[i], i + MIN_ORDER, p) {
      assert ListExact(m, lists[i], i + MIN_ORDER, s);
    }
  }

  lemma MergeKeepsInv(total: nat, st: State, s: nat, k: nat)
    requires Inv(total, st, s) && IsFree(st.blocks, s, k) && IsFree(st.blocks, Sibling(s, k), k)
    requires MIN_ORDER <= k < MAX_ORDER
    ensures Inv(total, MergeOnce(st, s, k), Parent(s, k))
    ensures IsFree(MergeOnce(st, s, k).blocks, Parent(s, k), k + 1)
    ensures Live(MergeOnce(st, s, k).blocks) == Live(st.blocks)
    ensures Sibling(s, k) in st.lists[k - MIN_ORDER]
  {
    hide Sibling, Parent, Aligned, Pow2;
    MergeTiles(total, st.blocks, s, k);
    MergeSiblings(st.blocks, s, k);
    MergeLists(st.blocks, st.lists, s, k);
    SiblingFacts(s, k);
  }

  lemma PushSiblings(m: Blocks, s: nat, k: nat)
    requires NoFreeSiblings(m, s) && IsFree(m, s, k)
    requires k >= MAX_ORDER || !IsFree(m, Sibling(s, k), k)
    ensures NoFreeSiblings(m, -1)
  {
    hide Sibling, Parent, Aligned, Pow2;
    forall t: nat, j: nat | j < MAX_ORDER ensures !FreePair(m, t, j) {
      if t != s && Sibling(t, j) != s {
        assert !FreePair(m, t, j);
      } else if FreePair(m, t, j) {
        SiblingTwice(t, j);
      }
    }
  }

  lemma PushLists(m: Blocks, lists: seq<seq<nat>>, s: nat, k: nat)
    requires ListsExact(m, lists, s) && IsFree(m, s, k) && MIN_ORDER <= k <= MAX_ORDER
    ensures ListsExact(m, Push(lists, k, s), -1)
  {
    var lists' := Push(lists, k, s);
    forall i | 0 <= i < ORDERS ensures ListExact(m, lists'[i], i + MIN_ORDER, -1) {
      assert ListExact(m, lists[i], i + MIN_ORDER, s);
    }
  }

  lemma PushKeepsValid(total: nat, st: State, s: nat, k: nat)
    requires Inv(total, st, s) && IsFree(st.blocks, s, k) && MIN_ORDER <= k <= MAX_ORDER
    requires k == MAX_ORDER || !IsFree(st.blocks, Sibling(s, k), k)
    ensures Valid(total, st.(lists := Push(st.lists, k, s)))
  {
    PushSiblings(st.blocks, s, k);
    PushLists(st.blocks, st.lists, s, k);
  }

  lemma {:induction false} CoalesceKeepsValid(total: nat, st: State, s: nat, k: nat)
    requires Inv(total, st, s) && IsFree(st.blocks, s, k) && MIN_ORDER <= k <= MAX_ORDER
    ensures Valid(total, Coalesce(st, s, k)) && Live(Coalesce(st, s, k).blocks) == Live(st.blocks)
    decreases MAX_ORDER - k
  {
    hide Sibling, Parent, Aligned, Pow2, Tiling, NoFreeSiblings, MergeOnce, Push;
    if k < MAX_ORDER && IsFree(st.blocks, Sibling(s, k), k) {
      var st', p := MergeOnce(st, s, k), Parent(s, k);
      MergeKeepsInv(total, st, s, k);
      CoalesceKeepsValid(total, st', p, k + 1);
    } else {
      PushKeepsValid(total, st, s, k);
    }
  }

  lemma UnsealSiblings(m: Blocks, s: nat, k: nat)
    requires NoFreeSiblings(m, -1)
    ensures NoFreeSiblings(m[s := Free(k)], s)
  {
    var m' := m[s := Free(k)];
    forall t: nat, j: nat | j < MAX_ORDER && t != s && Sibling(t, j) != s ensures !FreePair(m', t, j) {
      assert !FreePair(m, t, j);
    }
  }

  lemma UnsealLists(m: Blocks, lists: seq<seq<nat>>, s: nat, k: nat)
    requires ListsExact(m, lists, -1) && s in m && m[s].Used?
    ensures ListsExact(m[s := Free(k)], lists, s)
  {
    var m' := m[s := Free(k)];
    forall i | 0 <= i < ORDERS ensures ListExact(m', lists[i], i + MIN_ORDER, s) {
      assert ListExact(m, lists[i], i + MIN_ORDER, -1);
    }
  }

  lemma UnsealKeepsInv(total: nat, st: State, s: nat)
    requires Valid(total, st) && s in st.blocks && st.blocks[s].Used?
    ensures Inv(total, st.(blocks := st.blocks[s := Free(st.blocks[s].order)]), s)
    ensures Live(st.blocks[s := Free(st.blocks[s].order)]) == Live(st.blocks) - {s}
  {
    var k := st.blocks[s].order;
    SameShapeTiles(total, st.blocks, s, Free(k));
    UnsealSiblings(st.blocks, s, k);
    UnsealLists(st.blocks, st.lists, s, k);
  }

  /** Freeing keeps the invariant and gives back exactly the one block. */
  lemma ReleaseKeepsValid(total: nat, st: State, s: nat)
    requires Valid(total, st) && s in st.blocks && st.blocks[s].Used?
    ensures Valid(total, Release(st, s))
    ensures Live(Release(st, s).blocks) == Live(st.blocks) - {s}
  {
    UnsealKeepsInv(total, st, s);
    var k := st.blocks[s].order;
    CoalesceKeepsValid(total, st.(blocks := st.blocks[s := Free(k)]), s, k);
  }
}
