/**
 The buddy system as values: a tiling of the heap by power-of-two blocks together with one
 free list per order. Offsets are bytes from the start of the heap. The class in BuddyHeap.dfy
 keeps its memory equal to such a value; what the allocator promises is proved here.
 */
module BuddySpec {
  import opened Basics
  import opened Bits

  const MIN_ORDER := 4
  const MAX_ORDER := 23
  const ORDERS := MAX_ORDER - MIN_ORDER + 1
  const HEADER := 8

  datatype Block = Free(order: nat) | Used(order: nat, kernel: bool)

  type Blocks = map<nat, Block>

  datatype State = State(blocks: Blocks, lists: seq<seq<nat>>)

  /** The allocated blocks. */
  function Live(m: Blocks): (live: Blocks)
  {
    map s | s in m && m[s].Used? :: m[s]
  }

  // ---------------------------------------------------------------- tiling

  ghost predicate Shaped(total: nat, m: Blocks) {
    forall s <- m :: MIN_ORDER <= m[s].order <= MAX_ORDER && Aligned(s, m[s].order)
                     && s + Pow2(m[s].order) <= total
  }

  ghost predicate Disjoint(m: Blocks) {
    forall s <- m, t <- m :: s < t ==> s + Pow2(m[s].order) <= t
  }

  predicate InBlock(m: Blocks, s: nat, x: nat) {
    s in m && s <= x < s + Pow2(m[s].order)
  }

  ghost predicate Covered(m: Blocks, x: nat) {
    exists s: nat :: InBlock(m, s, x)
  }

  ghost predicate Covering(total: nat, m: Blocks) {
    forall x: nat :: x < total ==> Covered(m, x)
  }

  /** The blocks cut the heap into aligned power-of-two pieces, each byte in exactly one of them. */
  ghost predicate Tiling(total: nat, m: Blocks) {
    Shaped(total, m) && Disjoint(m) && Covering(total, m)
  }

  predicate IsFree(m: Blocks, s: int, k: nat) {
    s >= 0 && s in m && m[s] == Free(k)
  }

  /** No two sibling blocks are both free, leaving out pairs with the block at `except` (-1 for none). */
  ghost predicate NoFreeSiblings(m: Blocks, except: int) {
    forall s: nat, k: nat :: k < MAX_ORDER && s != except && Sibling(s, k) != except ==> !FreePair(m, s, k)
  }

  /** The runs of order k at `s` and at its sibling are both free blocks. */
  predicate FreePair(m: Blocks, s: nat, k: nat) {
    IsFree(m, s, k) && IsFree(m, Sibling(s, k), k)
  }

  // ---------------------------------------------------------------- free lists

  /** `q` holds each free block of order k once and nothing else, leaving out the block at `except`. */
  ghost predicate ListExact(m: Blocks, q: seq<nat>, k: nat, except: int) {
    Distinct(q) && forall s: nat :: s in q <==> IsFree(m, s, k) && s != except
  }

  /** Each free block is exactly once in the list of its order, and nothing else is in any list;
      the free block at `except` (-1 for none) is in no list. */
  ghost predicate ListsExact(m: Blocks, lists: seq<seq<nat>>, except: int) {
    |lists| == ORDERS && forall i :: 0 <= i < ORDERS ==> ListExact(m, lists[i], i + MIN_ORDER, except)
  }

  ghost predicate Inv(total: nat, st: State, except: int) {
    && Tiling(total, st.blocks)
    && NoFreeSiblings(st.blocks, except)
    && ListsExact(st.blocks, st.lists, except)
  }

  ghost predicate Valid(total: nat, st: State) {
    Inv(total, st, -1)
  }

  /** `q` without the first occurrence of `x`. */
  function Without(q: seq<nat>, x: nat): (r: seq<nat>)
    ensures x !in q ==> r == q
    ensures forall y :: y in r ==> y in q
    ensures forall y :: y in q && y != x ==> y in r
  {
    if q == [] then []
    else if q[0] == x then q[1..]
    else
      assert q == [q[0]] + q[1..];
      [q[0]] + Without(q[1..], x)
  }

  lemma {:induction false} WithoutDistinct(q: seq<nat>, x: nat)
    requires Distinct(q)
    ensures Distinct(Without(q, x)) && x !in Without(q, x)
  {
    if q != [] && q[0] != x {
      WithoutDistinct(q[1..], x);
      var r := Without(q[1..], x);
      assert forall y :: y in r ==> y in q[1..];
      assert q[0] !in r;
      assert Without(q, x) == [q[0]] + r;
    }
  }

  lemma {:induction false} WithoutAt(q: seq<nat>, n: nat)
    requires n < |q| && forall j :: 0 <= j < n ==> q[j] != q[n]
    ensures Without(q, q[n]) == q[..n] + q[n + 1..]
  {
    if n > 0 {
      WithoutAt(q[1..], n - 1);
      assert q[..n] == [q[0]] + q[1..][..n - 1];
    }
  }

  // ---------------------------------------------------------------- steps

  function Push(lists: seq<seq<nat>>, k: nat, s: nat): seq<seq<nat>>
    requires |lists| == ORDERS && MIN_ORDER <= k <= MAX_ORDER
  {
    lists[k - MIN_ORDER := [s] + lists[k - MIN_ORDER]]
  }

  /** Halve the block at `s`, of order k + 1: the upper half becomes a free block. */
  function SplitOnce(st: State, s: nat, k: nat): State
    requires |st.lists| == ORDERS && MIN_ORDER <= k <= MAX_ORDER
  {
    State(st.blocks[s := Free(k)][s + Pow2(k) := Free(k)], Push(st.lists, k, s + Pow2(k)))
  }

  /** Halve the block at `s`, of order `found`, down to `order`. */
  function SplitTo(st: State, s: nat, found: nat, order: nat): (r: State)
    requires |st.lists| == ORDERS && MIN_ORDER <= order <= found <= MAX_ORDER
    ensures |r.lists| == ORDERS
    decreases found
  {
    if found == order then st
    else SplitTo(SplitOnce(st, s, found - 1), s, found - 1, order)
  }

  /** Fuse the free block at `s` with its free sibling, which leaves its list. */
  function MergeOnce(st: State, s: nat, k: nat): State
    requires |st.lists| == ORDERS && MIN_ORDER <= k < MAX_ORDER
  {
    State((st.blocks - {s, Sibling(s, k)})[Parent(s, k) := Free(k + 1)],
          st.lists[k - MIN_ORDER := Without(st.lists[k - MIN_ORDER], Sibling(s, k))])
  }

  /** The free block at `s`, of order k, absorbs free siblings of its own order and is then listed. */
  function Coalesce(st: State, s: nat, k: nat): (r: State)
    requires |st.lists| == ORDERS && MIN_ORDER <= k <= MAX_ORDER
    ensures |r.lists| == ORDERS
    decreases MAX_ORDER - k
  {
    if k < MAX_ORDER && IsFree(st.blocks, Sibling(s, k), k)
    then Coalesce(MergeOnce(st, s, k), Parent(s, k), k + 1)
    else st.(lists := Push(st.lists, k, s))
  }

  /** The smallest order from `order` on whose size reaches `size`; -1 above MAX_ORDER. */
  function OrderFrom(size: nat, order: nat): (r: int)
    requires order <= MAX_ORDER
    ensures r == -1 || order <= r <= MAX_ORDER
    decreases MAX_ORDER - order, size
  {
    if Pow2(order) >= size then order
    else if order + 1 > MAX_ORDER then -1
    else OrderFrom(size, order + 1)
  }

  /** The first order from `order` on with a free block; -1 if there is none. */
  function FirstListed(lists: seq<seq<nat>>, order: nat): (r: int)
    requires |lists| == ORDERS && MIN_ORDER <= order <= MAX_ORDER + 1
    ensures r == -1 || (order <= r <= MAX_ORDER && lists[r - MIN_ORDER] != [])
    decreases MAX_ORDER + 1 - order, lists
  {
    if order > MAX_ORDER then -1
    else if lists[order - MIN_ORDER] != [] then order
    else FirstListed(lists, order + 1)
  }

  /** Take the head of list `found` and cut it down to a used block of order `order`. */
  function Carve(st: State, found: nat, order: nat, kernel: bool): State
    requires |st.lists| == ORDERS && MIN_ORDER <= order <= found <= MAX_ORDER
    requires st.lists[found - MIN_ORDER] != []
  {
    var i := found - MIN_ORDER;
    var s := st.lists[i][0];
    var cut := SplitTo(st.(lists := st.lists[i := st.lists[i][1..]]), s, found, order);
    cut.(blocks := cut.blocks[s := Used(order, kernel)])
  }

  /** The list a request is served from and the order it needs, when it can be served. */
  function Serve(lists: seq<seq<nat>>, size: nat): (r: Option<(nat, nat)>)
    requires |lists| == ORDERS
    ensures r.Some? ==> MIN_ORDER <= r.value.1 <= r.value.0 <= MAX_ORDER
                        && lists[r.value.0 - MIN_ORDER] != []
  {
    var order := OrderFrom(size + HEADER, MIN_ORDER);
    if size == 0 || order == -1 then None
    else
      var found := FirstListed(lists, order);
      if found == -1 then None
      else Some((found, order))
  }

  /** One allocation: the new state, and the start of the block, or None for the null pointer. */
  function Alloc(st: State, size: nat, kernel: bool): (r: (State, Option<nat>))
    requires |st.lists| == ORDERS
  {
    match Serve(st.lists, size)
    case None => (st, None)
    case Some((found, order)) =>
      (Carve(st, found, order, kernel), Some(st.lists[found - MIN_ORDER][0]))
  }

  /** A used block starts at `s`. */
  predicate Held(st: State, s: nat) {
    |st.lists| == ORDERS && s in st.blocks && st.blocks[s].Used? && MIN_ORDER <= st.blocks[s].order <= MAX_ORDER
  }

  /** Give back the used block at `s`. */
  function Release(st: State, s: nat): (r: State)
    requires Held(st, s)
    ensures |r.lists| == ORDERS
  {
    var k := st.blocks[s].order;
    Coalesce(st.(blocks := st.blocks[s := Free(k)]), s, k)
  }

  /** The decomposition from order `k` down: a block of each order that still fits at `off`. */
  function Decompose(st: State, total: nat, off: nat, k: nat): (r: State)
    requires |st.lists| == ORDERS && MIN_ORDER - 1 <= k <= MAX_ORDER
    ensures |r.lists| == ORDERS
    decreases k, total
  {
    if k < MIN_ORDER then st
    else if off + Pow2(k) <= total
    then Decompose(State(st.blocks[off := Free(k)], Push(st.lists, k, off)), total, off + Pow2(k), k - 1)
    else Decompose(st, total, off, k - 1)
  }

  function Initial(total: nat): State {
    Decompose(State(map[], seq(ORDERS, _ => [])), total, 0, MAX_ORDER)
  }

  // ---------------------------------------------------------------- finding headers

  lemma SameBlock(total: nat, m: Blocks, s: nat, t: nat, x: nat)
    requires Tiling(total, m) && InBlock(m, s, x) && InBlock(m, t, x)
    ensures s == t
  {
  }

  /** What get_buddy finds is a real header: inside the heap, a sibling's address always starts a block,
      of the same order at most. */
  lemma HeaderLookupSound(total: nat, m: Blocks, s: nat)
    requires Tiling(total, m) && s in m
    ensures Sibling(s, m[s].order) + Pow2(m[s].order) <= total ==>
              Sibling(s, m[s].order) in m && m[Sibling(s, m[s].order)].order <= m[s].order
  {
    var k := m[s].order;
    SiblingFacts(s, k);
    var b: nat := Sibling(s, k);
    if b + Pow2(k) <= total {
      assert b < total;
      assert Covered(m, b);
      var t: nat :| InBlock(m, t, b);
      var j := m[t].order;
      if j > k {
        // a block around b of a higher order would be aligned to the pair, and so hold s too
        var p: nat := Parent(s, k);
        AlignedDown(t, j, k + 1);
        Nesting(t, j, p, k + 1, b);
        SameBlock(total, m, s, t, s);
      } else {
        Nesting(b, k, t, j, b);
      }
    }
  }
}
