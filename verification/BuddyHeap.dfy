/**
 The buddy allocator over raw memory: header fields and links by 16-byte granule, and one list head
 per order. Null is -1; every other address is a byte offset from the start of the heap.
 */
module BuddyHeap {
  import opened Basics
  import opened Bits
  import opened BuddySpec
  import BuddySteps
  import BuddyLaws
  import opened Allocator
  import opened BuddyStatus

  const GRANULE := 16
  const NULL := -1

  // ---------------------------------------------------------------- chains of links

  /** Address of a granule of the heap that `links` covers. */
  predicate Slot(links: seq<int>, s: int) {
    s >= 0 && s % GRANULE == 0 && s / GRANULE < |links|
  }

  function Link(links: seq<int>, s: int): int
    requires Slot(links, s)
  {
    links[s / GRANULE]
  }

  function WriteLink(links: seq<int>, s: int, v: int): seq<int>
    requires Slot(links, s)
  {
    links[s / GRANULE := v]
  }

  lemma OneLink(links: seq<int>, s: int, v: int, t: int)
    requires Slot(links, s) && Slot(links, t)
    ensures Slot(WriteLink(links, s, v), t) && Link(WriteLink(links, s, v), t) == if t == s then v else Link(links, t)
  {
  }

  function Succ(q: seq<nat>, j: nat): int
    requires j < |q|
  {
    if j + 1 < |q| then q[j + 1] else NULL
  }

  lemma CutSucc(q: seq<nat>, n: nat, j: nat)
    requires 0 < n < |q| && j < |q| - 1
    ensures Succ(q[..n] + q[n + 1..], j) == if j == n - 1 then Succ(q, n) else Succ(q, if j < n then j else j + 1)
  {
  }

  /** Following `links` from `head` visits `q` and ends at null. */
  ghost predicate Chained(links: seq<int>, q: seq<nat>, head: int) {
    && head == (if q == [] then NULL else q[0])
    && forall j :: 0 <= j < |q| ==> Slot(links, q[j]) && Link(links, q[j]) == Succ(q, j)
  }

  /** Where a chain starts, and what its n-th link says. */
  lemma ChainAt(links: seq<int>, q: seq<nat>, head: int, n: nat)
    requires Chained(links, q, head)
    ensures head == if q == [] then NULL else q[0]
    ensures n < |q| ==> q[n] / GRANULE < |links| && links[q[n] / GRANULE] == Succ(q, n)
  {
    if n < |q| { assert Slot(links, q[n]) && Link(links, q[n]) == Succ(q, n); }
  }

  /** A write to the link at `x` leaves alone a chain that does not visit `x`. */
  lemma ChainKept(links: seq<int>, x: int, v: int, q: seq<nat>, head: int)
    requires Slot(links, x) && Chained(links, q, head) && x !in q
    ensures Chained(links[x / GRANULE := v], q, head)
  {
    var links' := links[x / GRANULE := v];
    forall j | 0 <= j < |q| ensures Slot(links', q[j]) && Link(links', q[j]) == Succ(q, j) {
      assert q[j] in q;
    }
  }

  /** Linking a new head in front. */
  lemma ChainPush(links: seq<int>, q: seq<nat>, head: int, s: nat)
    requires Chained(links, q, head) && Slot(links, s) && s !in q
    ensures Chained(links[s / GRANULE := head], [s] + q, s)
  {
    var links' := links[s / GRANULE := head];
    ChainKept(links, s, head, q, head);
    var q' := [s] + q;
    forall j | 0 <= j < |q'| ensures Slot(links', q'[j]) && Link(links', q'[j]) == Succ(q', j) {
      if j > 0 { assert q'[j] == q[j - 1] && Link(links', q[j - 1]) == Succ(q, j - 1); }
    }
  }

  /** Skipping the head. */
  lemma ChainPop(links: seq<int>, q: seq<nat>, head: int)
    requires Chained(links, q, head) && q != []
    ensures Chained(links, q[1..], Link(links, q[0]))
  {
    var r := q[1..];
    forall j | 0 <= j < |r| ensures Slot(links, r[j]) && Link(links, r[j]) == Succ(r, j) {
      assert r[j] == q[j + 1];
    }
  }

  /** Skipping an inner node by a write to the link before it. */
  lemma ChainCut(links: seq<int>, q: seq<nat>, head: int, n: nat)
    requires Chained(links, q, head) && 0 < n < |q| && Distinct(q)
    ensures Chained(WriteLink(links, q[n - 1], Link(links, q[n])), q[..n] + q[n + 1..], head)
  {
    hide Slot, Link, WriteLink, Succ;
    var x, v := q[n - 1], Link(links, q[n]);
    var links' := WriteLink(links, x, v);
    var r := q[..n] + q[n + 1..];
    forall j | 0 <= j < |r| ensures Slot(links', r[j]) && Link(links', r[j]) == Succ(r, j) {
      var i := if j < n then j else j + 1;
      assert r[j] == q[i] && Slot(links, q[i]) && Link(links, q[i]) == Succ(q, i);
      OneLink(links, x, v, q[i]);
      CutSucc(q, n, j);
    }
  }

  /** Every free list is chained from its head. */
  ghost predicate AllChained(links: seq<int>, lists: seq<seq<nat>>, heads: seq<int>) {
    && |lists| == |heads| == ORDERS
    && forall i :: 0 <= i < ORDERS ==> Chained(links, lists[i], heads[i])
  }

  /** The lists are duplicate-free and share no element. */
  ghost predicate Apart(lists: seq<seq<nat>>) {
    && (forall i :: 0 <= i < |lists| ==> Distinct(lists[i]))
    && (forall i, j, x :: 0 <= i < |lists| && 0 <= j < |lists| && i != j && x in lists[i] ==> x !in lists[j])
  }

  lemma AllPush(links: seq<int>, lists: seq<seq<nat>>, heads: seq<int>, k: nat, s: nat)
    requires AllChained(links, lists, heads) && Slot(links, s) && MIN_ORDER <= k <= MAX_ORDER
    requires forall i :: 0 <= i < ORDERS ==> s !in lists[i]
    ensures var at := k - MIN_ORDER;
            AllChained(links[s / GRANULE := heads[at]], Push(lists, k, s), heads[at := s])
  {
    var at := k - MIN_ORDER;
    var links', lists', heads' := links[s / GRANULE := heads[at]], Push(lists, k, s), heads[at := s];
    forall i | 0 <= i < ORDERS ensures Chained(links', lists'[i], heads'[i]) {
      if i == at {
        ChainPush(links, lists[i], heads[i], s);
      } else {
        ChainKept(links, s, heads[at], lists[i], heads[i]);
      }
    }
  }

  lemma AllPop(links: seq<int>, lists: seq<seq<nat>>, heads: seq<int>, at: nat)
    requires AllChained(links, lists, heads) && at < ORDERS && lists[at] != []
    ensures Slot(links, lists[at][0])
    ensures AllChained(links, lists[at := lists[at][1..]], heads[at := Link(links, lists[at][0])])
  {
    ChainPop(links, lists[at], heads[at]);
  }

  lemma AllCut(links: seq<int>, lists: seq<seq<nat>>, heads: seq<int>, at: nat, n: nat)
    requires AllChained(links, lists, heads) && at < ORDERS && 0 < n < |lists[at]| && Apart(lists)
    ensures var q := lists[at];
            && Slot(links, q[n]) && Slot(links, q[n - 1])
            && AllChained(links[q[n - 1] / GRANULE := Link(links, q[n])], lists[at := q[..n] + q[n + 1..]], heads)
  {
    var q := lists[at];
    var v := Link(links, q[n]);
    ChainCut(links, q, heads[at], n);
    forall i | 0 <= i < ORDERS && i != at ensures Chained(links[q[n - 1] / GRANULE := v], lists[i], heads[i]) {
      assert q[n - 1] in q;
      ChainKept(links, q[n - 1], v, lists[i], heads[i]);
    }
  }

  // ---------------------------------------------------------------- memory contents

  /** The contents of memory: header fields and links by granule, and the list heads. */
  datatype Mem = Mem(order: seq<int>, isFree: seq<bool>, isKernel: seq<bool>, next: seq<int>, heads: seq<int>)

  ghost predicate Sized(total: nat, mem: Mem) {
    && BuddyLaws.HeapSize(total)
    && |mem.order| == |mem.isFree| == |mem.isKernel| == |mem.next| == total / GRANULE
    && |mem.heads| == ORDERS
  }

  /** The granule at `s` holds the header of block `b`. */
  predicate HeaderIs(mem: Mem, s: nat, b: Block) {
    && s % GRANULE == 0 && s / GRANULE < |mem.order| == |mem.isFree| == |mem.isKernel|
    && mem.order[s / GRANULE] == b.order && mem.isFree[s / GRANULE] == b.Free?
    && (b.Used? ==> mem.isKernel[s / GRANULE] == b.kernel)
  }

  /** Memory holds the state `g`: a header for each block, a chain for each list. */
  ghost predicate MemoryHolds(total: nat, mem: Mem, g: State) {
    && Sized(total, mem)
    && (forall s <- g.blocks :: HeaderIs(mem, s, g.blocks[s]))
    && AllChained(mem.next, g.lists, mem.heads)
  }

  /** The header of `b` written at `s`, with `kernel` in the flag of that name. */
  function WithHeader(mem: Mem, s: nat, b: Block, kernel: bool): Mem
    requires s / GRANULE < |mem.order| == |mem.isFree| == |mem.isKernel|
  {
    mem.(order := mem.order[s / GRANULE := b.order], isFree := mem.isFree[s / GRANULE := b.Free?],
         isKernel := mem.isKernel[s / GRANULE := kernel])
  }

  lemma HeaderWritten(total: nat, mem: Mem, g: State, s: nat, b: Block, kernel: bool)
    requires MemoryHolds(total, mem, g) && s % GRANULE == 0 && s < total && (b.Used? ==> kernel == b.kernel)
    ensures MemoryHolds(total, WithHeader(mem, s, b, kernel), g.(blocks := g.blocks[s := b]))
  {
    var mem' := WithHeader(mem, s, b, kernel);
    var m' := g.blocks[s := b];
    forall t <- m' ensures HeaderIs(mem', t, m'[t]) {
      if t != s { assert HeaderIs(mem, t, g.blocks[t]); }
    }
  }

  function WithOrder(mem: Mem, s: nat, k: nat): Mem
    requires s / GRANULE < |mem.order|
  {
    mem.(order := mem.order[s / GRANULE := k])
  }

  lemma OrderWritten(total: nat, mem: Mem, g: State, s: nat, k: nat)
    requires MemoryHolds(total, mem, g) && s in g.blocks && g.blocks[s].Free?
    ensures s / GRANULE < |mem.order| && MemoryHolds(total, WithOrder(mem, s, k), g.(blocks := g.blocks[s := Free(k)]))
  {
    assert HeaderIs(mem, s, g.blocks[s]);
    var mem' := WithOrder(mem, s, k);
    forall t <- g.blocks ensures HeaderIs(mem', t, g.blocks[s := Free(k)][t]) {
      assert HeaderIs(mem, t, g.blocks[t]);
    }
  }

  function WithLink(mem: Mem, s: nat, k: nat): Mem
    requires s / GRANULE < |mem.next| && |mem.heads| == ORDERS && MIN_ORDER <= k <= MAX_ORDER
  {
    mem.(next := mem.next[s / GRANULE := mem.heads[k - MIN_ORDER]], heads := mem.heads[k - MIN_ORDER := s])
  }

  lemma LinkWritten(total: nat, mem: Mem, g: State, s: nat, k: nat)
    requires MemoryHolds(total, mem, g) && s % GRANULE == 0 && s < total && MIN_ORDER <= k <= MAX_ORDER
    requires forall i :: 0 <= i < ORDERS ==> s !in g.lists[i]
    ensures MemoryHolds(total, WithLink(mem, s, k), g.(lists := Push(g.lists, k, s)))
    ensures OnlyAt(mem, WithLink(mem, s, k), s / GRANULE)
  {
    AllPush(mem.next, g.lists, mem.heads, k, s);
  }

  /** `target` skipped, by a write to the link of `prev`, or to the head of the list if `prev` is null. */
  function WithSkip(mem: Mem, k: nat, prev: int, target: nat): Mem
    requires target / GRANULE < |mem.next| && prev / GRANULE < |mem.next| && prev >= NULL
    requires |mem.heads| == ORDERS && MIN_ORDER <= k <= MAX_ORDER
  {
    if prev == NULL then mem.(heads := mem.heads[k - MIN_ORDER := mem.next[target / GRANULE]])
    else mem.(next := mem.next[prev / GRANULE := mem.next[target / GRANULE]])
  }

  lemma SkipWritten(total: nat, mem: Mem, g: State, k: nat, n: nat)
    requires MemoryHolds(total, mem, g) && Apart(g.lists) && MIN_ORDER <= k <= MAX_ORDER
    requires n < |g.lists[k - MIN_ORDER]|
    ensures var q := g.lists[k - MIN_ORDER]; var prev := if n == 0 then NULL else q[n - 1];
            && q[n] / GRANULE < |mem.next| && prev / GRANULE < |mem.next|
            && OnlyAt(mem, WithSkip(mem, k, prev, q[n]), prev / GRANULE)
            && MemoryHolds(total, WithSkip(mem, k, prev, q[n]), g.(lists := g.lists[k - MIN_ORDER := Without(q, q[n])]))
  {
    hide Chained, BuddyLaws.HeapSize;
    var q := g.lists[k - MIN_ORDER];
    WithoutAt(q, n);
    if n == 0 {
      AllPop(mem.next, g.lists, mem.heads, k - MIN_ORDER);
    } else {
      AllCut(mem.next, g.lists, mem.heads, k - MIN_ORDER, n);
    }
  }

  /** The two memories agree on every granule inside a block of `live`, header included. */
  ghost predicate Untouched(live: Blocks, mem1: Mem, mem2: Mem) {
    && |mem1.order| == |mem1.isFree| == |mem1.isKernel| == |mem1.next|
    && |mem1.order| == |mem2.order| == |mem2.isFree| == |mem2.isKernel| == |mem2.next|
    && forall s: nat, g: nat :: g < |mem1.order| && InBlock(live, s, GRANULE * g) ==> SameGranule(mem1, mem2, g)
  }

  predicate SameGranule(mem1: Mem, mem2: Mem, g: nat) {
    && g < |mem1.order| && g < |mem1.isFree| && g < |mem1.isKernel| && g < |mem1.next|
    && g < |mem2.order| && g < |mem2.isFree| && g < |mem2.isKernel| && g < |mem2.next|
    && mem1.order[g] == mem2.order[g] && mem1.isFree[g] == mem2.isFree[g]
    && mem1.isKernel[g] == mem2.isKernel[g] && mem1.next[g] == mem2.next[g]
  }

  /** Only granule `i` (none if it is negative) and the list heads may differ. */
  ghost predicate OnlyAt(mem1: Mem, mem2: Mem, i: int) {
    && |mem1.order| == |mem1.isFree| == |mem1.isKernel| == |mem1.next|
    && |mem1.order| == |mem2.order| == |mem2.isFree| == |mem2.isKernel| == |mem2.next|
    && if 0 <= i < |mem1.order| then
         && mem2.order == mem1.order[i := mem2.order[i]] && mem2.isFree == mem1.isFree[i := mem2.isFree[i]]
         && mem2.isKernel == mem1.isKernel[i := mem2.isKernel[i]] && mem2.next == mem1.next[i := mem2.next[i]]
       else
         && mem2.order == mem1.order && mem2.isFree == mem1.isFree
         && mem2.isKernel == mem1.isKernel && mem2.next == mem1.next
  }

  lemma OnlySame(total: nat, mem: Mem, g: State, i: int)
    requires MemoryHolds(total, mem, g)
    ensures OnlyAt(mem, mem, i)
  {
  }

  /** No block of `live` holds the byte `x`. */
  ghost predicate Outside(live: Blocks, x: nat) {
    forall s: nat :: !InBlock(live, s, x)
  }

  /** Writes to the granule at `x`, which no live block holds, touch no live block. */
  lemma WriteOutside(live: Blocks, mem1: Mem, mem2: Mem, x: int)
    requires OnlyAt(mem1, mem2, x / GRANULE) && (x >= 0 ==> x % GRANULE == 0)
    requires x >= 0 ==> Outside(live, x)
    ensures Untouched(live, mem1, mem2)
  {
    forall s: nat, g: nat | g < |mem1.order| && InBlock(live, s, GRANULE * g) ensures SameGranule(mem1, mem2, g) {
      assert g == x / GRANULE ==> GRANULE * g == x;
    }
  }

  lemma UntouchedThen(live: Blocks, mem1: Mem, mem2: Mem, mem3: Mem)
    requires Untouched(live, mem1, mem2) && Untouched(live, mem2, mem3)
    ensures Untouched(live, mem1, mem3)
  {
    forall s: nat, g: nat | g < |mem1.order| && InBlock(live, s, GRANULE * g) ensures SameGranule(mem1, mem3, g) {
      assert SameGranule(mem1, mem2, g) && SameGranule(mem2, mem3, g);
    }
  }

  /** A byte of a free block is in no live block. */
  lemma FreeByte(total: nat, m: Blocks, s: nat, x: nat)
    requires Tiling(total, m) && s in m && m[s].Free? && InBlock(m, s, x)
    ensures Outside(Live(m), x)
  {
    forall t: nat ensures !InBlock(Live(m), t, x) {
      if InBlock(Live(m), t, x) { SameBlock(total, m, s, t, x); }
    }
  }

  /** Null, or the payload of a used block. */
  predicate Freeable(st: State, ptr: int) {
    ptr != NULL ==> ptr >= HEADER && Held(st, ptr - HEADER)
  }

  function GivenBack(st: State, ptr: int): State
    requires Freeable(st, ptr)
  {
    if ptr == NULL then st else Release(st, ptr - HEADER)
  }

  // ---------------------------------------------------------------- the allocator

  class Heap {
    const total: nat
    // the header and link that the granule at each multiple of 16 would hold if a block started there
    const order: array<int>
    const isFree: array<bool>
    const isKernel: array<bool>
    const next: array<int>
    const freeLists: array<int>
    var allocCount: int
    ghost var st: State

    ghost function Memory(): Mem
      reads order, isFree, isKernel, next, freeLists
    {
      Mem(order[..], isFree[..], isKernel[..], next[..], freeLists[..])
    }

    ghost predicate Holds(g: State)
      reads order, isFree, isKernel, next, freeLists
    {
      && order != next && order != freeLists && next != freeLists && isFree != isKernel
      && MemoryHolds(total, Memory(), g)
    }

    ghost predicate Valid()
      reads this, order, isFree, isKernel, next, freeLists
    {
      Holds(st) && BuddySpec.Valid(total, st) && allocCount == |UserPayloads(Regions())|
    }

    /** The live payloads, as users of the allocator see them. */
    ghost function Regions(): Regions
      reads this
    {
      BuddyLaws.Payloads(Live(st.blocks))
    }

    // ---------------------------------------------------------------- helpers

    /** The smallest order whose blocks hold `size` bytes; -1 above MAX_ORDER. */
    static method SizeToOrder(size: nat) returns (r: int)
      ensures r == OrderFrom(size, MIN_ORDER)
    {
      r := MIN_ORDER;
      while Pow2(r) < size
        invariant MIN_ORDER <= r <= MAX_ORDER
        invariant OrderFrom(size, r) == OrderFrom(size, MIN_ORDER)
        decreases MAX_ORDER - r
      {
        r := r + 1;
        if r > MAX_ORDER {
          return -1;
        }
      }
    }

    /** The address of the buddy by exclusive or of the offset; null if it would reach past the heap. */
    method GetBuddy(block: nat, k: nat) returns (r: int)
      ensures r == if Sibling(block, k) + Pow2(k) > total then NULL else Sibling(block, k)
    {
      var buddy := Xor(block, Pow2(k));
      XorFlipsOneBit(block, k);
      if buddy + Pow2(k) > total {
        return NULL;
      }
      return buddy;
    }

    /** Set the header fields of the granule at `s`. */
    method WriteHeader(s: nat, k: nat, free: bool, kernel: bool)
      requires Sized(total, Memory()) && s < total && s % GRANULE == 0 && isFree != isKernel
      requires order != next && order != freeLists
      modifies order, isFree, isKernel
      ensures Memory() == WithHeader(old(Memory()), s, if free then Block.Free(k) else Used(k, kernel), kernel)
    {
      order[s / GRANULE] := k;
      isFree[s / GRANULE] := free;
      isKernel[s / GRANULE] := kernel;
    }

    /** Put a block at the head of the list of its order. */
    method LinkFree(s: nat, k: nat, ghost g: State)
      requires Holds(g) && s % GRANULE == 0 && s < total && MIN_ORDER <= k <= MAX_ORDER
      requires forall i :: 0 <= i < ORDERS ==> s !in g.lists[i]
      modifies next, freeLists
      ensures Holds(g.(lists := Push(g.lists, k, s)))
      ensures Memory() == WithLink(old(Memory()), s, k)
    {
      LinkWritten(total, Memory(), g, s, k);
      next[s / GRANULE] := freeLists[k - MIN_ORDER];
      freeLists[k - MIN_ORDER] := s;
      assert Memory() == WithLink(old(Memory()), s, k);
    }

    /** Walk the list of order k up to `target`: the node before it, and it, or null at the end. */
    method Seek(k: nat, target: nat, ghost q: seq<nat>) returns (prev: int, cur: int, ghost n: nat)
      requires Sized(total, Memory()) && MIN_ORDER <= k <= MAX_ORDER
      requires Chained(next[..], q, freeLists[k - MIN_ORDER])
      ensures n <= |q| && forall j :: 0 <= j < n ==> q[j] != target
      ensures prev == if n == 0 then NULL else q[n - 1]
      ensures if n < |q| then cur == target == q[n] else cur == NULL
    {
      hide Chained, BuddyLaws.HeapSize;
      n := 0;
      prev := NULL;                      // null stands for the list head itself
      ChainAt(next[..], q, freeLists[k - MIN_ORDER], n);
      cur := freeLists[k - MIN_ORDER];
      while cur != NULL && cur != target
        invariant 0 <= n <= |q| && cur == (if n < |q| then q[n] else NULL)
        invariant prev == if n == 0 then NULL else q[n - 1]
        invariant forall j :: 0 <= j < n ==> q[j] != target
        decreases |q| - n
      {
        ChainAt(next[..], q, freeLists[k - MIN_ORDER], n);
        prev, cur := cur, next[cur / GRANULE];
        n := n + 1;
      }
    }

    method Skip(k: nat, prev: int, target: nat)
      requires Sized(total, Memory()) && next != freeLists && order != next && order != freeLists
      requires MIN_ORDER <= k <= MAX_ORDER && NULL <= prev < total && target < total
      modifies next, freeLists
      ensures Memory() == WithSkip(old(Memory()), k, prev, target)
    {
      if prev == NULL {
        freeLists[k - MIN_ORDER] := next[target / GRANULE];
      } else {
        next[prev / GRANULE] := next[target / GRANULE];
      }
    }

    /** Take `target` out of the list of order k, if it is there; only one link or one head changes. */
    method ListRemove(k: nat, target: nat, ghost g: State) returns (ghost touched: int)
      requires Holds(g) && Apart(g.lists) && MIN_ORDER <= k <= MAX_ORDER
      modifies next, freeLists
      ensures Holds(g.(lists := g.lists[k - MIN_ORDER := Without(g.lists[k - MIN_ORDER], target)]))
      ensures touched == NULL || touched in g.lists[k - MIN_ORDER]
      ensures OnlyAt(old(Memory()), Memory(), touched / GRANULE)
    {
      hide HeaderIs, Chained, BuddyLaws.HeapSize, OnlyAt, WithSkip, Apart, Without;
      ghost var q := g.lists[k - MIN_ORDER];
      var prev, cur, n := Seek(k, target, q);
      touched := prev;
      if cur == target {
        SkipWritten(total, Memory(), g, k, n);
        Skip(k, prev, target);
      } else {
        assert target !in q;
        OnlySame(total, Memory(), g, touched / GRANULE);
        assert g.lists[k - MIN_ORDER := Without(q, target)] == g.lists;
      }
    }

    // ---------------------------------------------------------------- allocation

    /** The body of the splitting loop: the upper half becomes a listed free block. */
    method Halve(block: nat, k: nat, ghost g: State)
      requires Holds(g) && Inv(total, g, block) && IsFree(g.blocks, block, k + 1) && MIN_ORDER <= k < MAX_ORDER
      modifies order, isFree, isKernel, next, freeLists
      ensures Holds(SplitOnce(g, block, k)) && Memory() == WithHalves(old(Memory()), block, k)
      ensures Untouched(Live(g.blocks), old(Memory()), Memory())
    {
      hide Inv, Pow2, Untouched, Outside, AllChained, HeaderIs, BuddyLaws.HeapSize;
      var buddy := block + Pow2(k);
      HalveWritten(total, Memory(), g, block, k);
      WriteHeader(buddy, k, true, false);
      LinkFree(buddy, k, g.(blocks := g.blocks[buddy := Block.Free(k)]));
      order[block / GRANULE] := k;
    }

    /** The splitting loop: halve the block down to order k, listing each upper half. */
    method SplitDown(block: nat, top: nat, k: nat, ghost g: State)
      requires Holds(g) && Inv(total, g, block) && IsFree(g.blocks, block, top) && MIN_ORDER <= k <= top <= MAX_ORDER
      modifies order, isFree, isKernel, next, freeLists
      ensures Holds(SplitTo(g, block, top, k))
      ensures Untouched(Live(g.blocks), old(Memory()), Memory())
    {
      hide Inv, Untouched, HeaderIs, Chained, BuddyLaws.HeapSize, SplitOnce, Pow2;
      var found := top;
      ghost var now := g;
      UntouchedSelf(total, Live(g.blocks), Memory(), g);
      while found > k
        invariant k <= found <= top && Holds(now) && Inv(total, now, block) && IsFree(now.blocks, block, found)
        invariant SplitTo(now, block, found, k) == SplitTo(g, block, top, k)
        invariant Live(now.blocks) == Live(g.blocks) && Untouched(Live(g.blocks), old(Memory()), Memory())
      {
        found := found - 1;
        ghost var mem := Memory();
        BuddySteps.SplitKeepsInv(total, now, block, found);
        Halve(block, found, now);
        UntouchedThen(Live(g.blocks), old(Memory()), mem, Memory());
        now := SplitOnce(now, block, found);
      }
    }

    /** The first order from k on whose list is not empty; -1 if there is none. */
    method FindList(k: nat, ghost g: State) returns (found: int)
      requires Holds(g) && MIN_ORDER <= k <= MAX_ORDER
      ensures found == FirstListed(g.lists, k)
    {
      hide HeaderIs, BuddyLaws.HeapSize, Slot, Link, Succ;
      var i := k;
      while i <= MAX_ORDER
        invariant k <= i <= MAX_ORDER + 1 && FirstListed(g.lists, i) == FirstListed(g.lists, k)
      {
        assert Chained(next[..], g.lists[i - MIN_ORDER], freeLists[i - MIN_ORDER]);
        if freeLists[i - MIN_ORDER] != NULL {
          return i;
        }
        i := i + 1;
      }
      return -1;
    }

    method MallocImpl(size: nat, kernel: bool) returns (ptr: int)
      requires Valid()
      modifies this, order, isFree, isKernel, next, freeLists
      ensures Valid() && st == Alloc(old(st), size, kernel).0
      ensures ptr == match Alloc(old(st), size, kernel).1 case None => NULL case Some(s) => s + HEADER
      ensures Untouched(Live(old(st.blocks)), old(Memory()), Memory())
    {
      hide BuddySpec.Valid, Untouched, HeaderIs, Chained, BuddyLaws.HeapSize, FirstListed, OrderFrom, Carve, Live, BuddyLaws.Payloads;
      UntouchedSelf(total, Live(st.blocks), Memory(), st);
      if size == 0 {
        return NULL;
      }
      var k := SizeToOrder(size + HEADER);
      if k < 0 {
        return NULL;
      }
      var found := FindList(k, st);
      if found < 0 {
        return NULL;
      }
      ghost var live := Live(st.blocks);
      AllocCounts(total, st, size, kernel);
      ptr := Take(found, k, kernel, st);
      st := Carve(st, found, k, kernel);
      if !kernel {
        allocCount := allocCount + 1;
      }
    }

    /** Serve a block of order k from the list of order `found`. */
    method Take(found: nat, k: nat, kernel: bool, ghost g: State) returns (ptr: int)
      requires Holds(g) && BuddySpec.Valid(total, g) && MIN_ORDER <= k <= found <= MAX_ORDER
      requires g.lists[found - MIN_ORDER] != []
      modifies order, isFree, isKernel, next, freeLists
      ensures Holds(Carve(g, found, k, kernel)) && ptr == g.lists[found - MIN_ORDER][0] + HEADER
      ensures Untouched(Live(g.blocks), old(Memory()), Memory())
    {
      hide Inv, Untouched, Outside, Chained, HeaderIs, BuddyLaws.HeapSize, Pow2;
      ghost var i, mem0 := found - MIN_ORDER, Memory();
      PopWritten(total, mem0, g, found);
      var block := freeLists[found - MIN_ORDER];
      freeLists[found - MIN_ORDER] := next[block / GRANULE];
      ghost var popped := g.(lists := g.lists[i := g.lists[i][1..]]);
      ghost var mem1 := Memory();
      BuddySteps.SplitToKeepsInv(total, popped, block, found, k);
      SplitDown(block, found, k, popped);
      ghost var cut, mem2 := SplitTo(popped, block, found, k), Memory();
      SealWritten(total, mem2, cut, block, k, kernel);
      isFree[block / GRANULE] := false;
      isKernel[block / GRANULE] := kernel;
      assert Memory() == WithHeader(mem2, block, Used(k, kernel), kernel);
      UntouchedThen(Live(g.blocks), mem0, mem1, mem2);
      UntouchedThen(Live(g.blocks), mem0, mem2, Memory());
      return block + HEADER;
    }

    method Malloc(size: nat) returns (ptr: int)
      requires Valid()
      modifies this, order, isFree, isKernel, next, freeLists
      ensures Valid() && st == Alloc(old(st), size, false).0
      ensures ptr == match Alloc(old(st), size, false).1 case None => NULL case Some(s) => s + HEADER
      ensures Untouched(Live(old(st.blocks)), old(Memory()), Memory())
    {
      ptr := MallocImpl(size, false);
    }

    method MallocKernel(size: nat) returns (ptr: int)
      requires Valid()
      modifies this, order, isFree, isKernel, next, freeLists
      ensures Valid() && st == Alloc(old(st), size, true).0
      ensures ptr == match Alloc(old(st), size, true).1 case None => NULL case Some(s) => s + HEADER
      ensures Untouched(Live(old(st.blocks)), old(Memory()), Memory())
    {
      ptr := MallocImpl(size, true);
    }

    // ---------------------------------------------------------------- freeing

    /** The body of the coalescing loop: take the buddy out of its list and fuse with it. */
    method Absorb(block: nat, buddy: nat, k: nat, ghost g: State) returns (fused: nat)
      requires Holds(g) && Inv(total, g, block) && IsFree(g.blocks, block, k) && MIN_ORDER <= k < MAX_ORDER
      requires buddy == Sibling(block, k) && IsFree(g.blocks, buddy, k)
      modifies order, next, freeLists
      ensures fused == Parent(block, k) && Holds(MergeOnce(g, block, k))
      ensures Untouched(Live(g.blocks), old(Memory()), Memory())
    {
      hide Tiling, NoFreeSiblings, Sibling, Parent, Pow2, Aligned, Untouched, Chained, BuddyLaws.HeapSize;
      ghost var mem0 := Memory();
      ListsApart(g.blocks, g.lists, block);
      var touched := ListRemove(k, buddy, g);
      ghost var mem1 := Memory();
      TouchedOutside(total, g, block, k, touched, mem0, mem1);
      fused := block;
      if buddy < block {
        fused := buddy;
      }
      FuseWritten(total, mem1, g, block, k);
      order[fused / GRANULE] := k + 1;
      UntouchedThen(Live(g.blocks), mem0, mem1, Memory());
    }

    /** Absorb free buddies of equal order, then list what results. */
    method CoalesceUp(start: nat, k0: nat, ghost g: State)
      requires Holds(g) && Inv(total, g, start) && IsFree(g.blocks, start, k0) && MIN_ORDER <= k0 <= MAX_ORDER
      modifies order, next, freeLists
      ensures Holds(Coalesce(g, start, k0))
      ensures Untouched(Live(g.blocks), old(Memory()), Memory())
    {
      hide Tiling, NoFreeSiblings, ListExact, Sibling, Parent, Pow2, Aligned, Untouched, Outside;
      hide AllChained, HeaderIs, BuddyLaws.HeapSize, MergeOnce, Live, Push, Without;
      var block, k := start, k0;
      ghost var now := g;
      UntouchedSelf(total, Live(g.blocks), Memory(), g);
      while k < MAX_ORDER
        invariant k0 <= k <= MAX_ORDER && Holds(now) && Inv(total, now, block) && IsFree(now.blocks, block, k)
        invariant Coalesce(now, block, k) == Coalesce(g, start, k0)
        invariant Live(now.blocks) == Live(g.blocks) && Untouched(Live(g.blocks), old(Memory()), Memory())
      {
        var buddy := GetBuddy(block, k);
        BuddyHeader(total, Memory(), now, block, k);
        if buddy == NULL || !isFree[buddy / GRANULE] || order[buddy / GRANULE] != k {
          break;
        }
        ghost var mem := Memory();
        BuddySteps.MergeKeepsInv(total, now, block, k);
        ghost var next' := MergeOnce(now, block, k);
        block := Absorb(block, buddy, k, now);
        UntouchedThen(Live(g.blocks), old(Memory()), mem, Memory());
        now := next';
        k := k + 1;
      }
      ghost var mem := Memory();
      InFlight(total, mem, now, block, k);
      LinkFree(block, k, now);
      WriteOutside(Live(g.blocks), mem, Memory(), block);
      UntouchedThen(Live(g.blocks), old(Memory()), mem, Memory());
    }

    /** Give back the block whose payload starts at `ptr`; null does nothing. */
    method Free(ptr: int)
      requires Freeable(st, ptr) && Valid()
      modifies this, order, isFree, isKernel, next, freeLists
      ensures st == GivenBack(old(st), ptr)
      ensures Untouched(Live(st.blocks), old(Memory()), Memory())
      ensures Valid()
    {
      hide Inv, Untouched, Chained, HeaderIs, BuddyLaws.HeapSize, Coalesce, BuddyLaws.Payloads, Live;
      UntouchedSelf(total, Live(st.blocks), Memory(), st);
      if ptr == NULL {
        return;
      }
      var block := ptr - HEADER;
      ghost var mem0 := Memory();
      ghost var g := st.(blocks := st.blocks[block := Block.Free(st.blocks[block].order)]);
      BuddyLaws.ReleaseRefines(total, st, block);
      BuddySteps.ReleaseKeepsValid(total, st, block);
      BuddySteps.UnsealKeepsInv(total, st, block);
      UnsealWritten(total, mem0, st, block);
      var k := order[block / GRANULE];
      if !isKernel[block / GRANULE] {
        allocCount := allocCount - 1;
      }
      isFree[block / GRANULE] := true;
      ghost var mem1 := Memory();
      assert mem1 == WithFree(mem0, block);
      CoalesceUp(block, k, g);
      UntouchedThen(Live(g.blocks), mem0, mem1, Memory());
      st := Release(st, block);
    }

    // ---------------------------------------------------------------- set-up and status

    /** Make the granule at `s` a listed free block. */
    method PlaceFree(s: nat, k: nat, ghost g: State)
      requires Holds(g) && s % GRANULE == 0 && s < total && MIN_ORDER <= k <= MAX_ORDER
      requires forall i :: 0 <= i < ORDERS ==> s !in g.lists[i]
      modifies order, isFree, isKernel, next, freeLists
      ensures Holds(State(g.blocks[s := Block.Free(k)], Push(g.lists, k, s)))
    {
      hide HeaderIs, Chained, BuddyLaws.HeapSize;
      HeaderWritten(total, Memory(), g, s, Block.Free(k), false);
      WriteHeader(s, k, true, false);
      LinkFree(s, k, g.(blocks := g.blocks[s := Block.Free(k)]));
    }

    /** Cut the heap into blocks, greedily from the largest order down. */
    method Build(ghost empty: State)
      requires empty == State(map[], seq(ORDERS, _ => [])) && Holds(empty)
      modifies order, isFree, isKernel, next, freeLists
      ensures Holds(Initial(total))
    {
      hide BuddyLaws.HeapSize, Decompose, BuddyLaws.Decomposed, Pow2, HeaderIs, Push, Chained;
      var k, offset: nat := MAX_ORDER, 0;
      ghost var g := empty;
      BuddyLaws.DecomposeStart(total);
      while k >= MIN_ORDER && offset < total
        invariant MIN_ORDER - 1 <= k <= MAX_ORDER && offset <= total < offset + Pow2(k + 1)
        invariant Holds(g) && BuddyLaws.Decomposed(g, offset, k)
        invariant Decompose(g, total, offset, k) == Initial(total)
        decreases k
      {
        BuddyLaws.DecomposeOnce(g, total, offset, k);
        if offset + Pow2(k) <= total {
          PlaceFree(offset, k, g);
          g := State(g.blocks[offset := Block.Free(k)], Push(g.lists, k, offset));
          offset := offset + Pow2(k);
        }
        k := k - 1;
      }
      BuddyLaws.DecomposeDone(g, total, offset, k);
    }

    /** Take over `size` bytes of raw memory. */
    constructor (size: nat)
      requires BuddyLaws.HeapSize(size)
      ensures Valid() && total == size && st == Initial(size)
      ensures fresh(order) && fresh(isFree) && fresh(isKernel) && fresh(next) && fresh(freeLists)
    {
      total := size;
      allocCount := 0;
      order := new int[size / GRANULE];
      isFree := new bool[size / GRANULE];
      isKernel := new bool[size / GRANULE];
      next := new int[size / GRANULE];
      freeLists := new int[ORDERS](_ => NULL);
      st := Initial(size);
      new;
      hide Initial, HeaderIs, BuddySpec.Valid, BuddyLaws.Payloads, Live, UserPayloads, BuddyLaws.HeapSize;
      ghost var empty := State(map[], seq(ORDERS, _ => []));
      EmptyHolds(total, Memory());
      Build(empty);
      BuddyLaws.InitialValid(size);
    }

    /** Walk the blocks by the order in each header and add up their sizes by use. */
    method Status() returns (all: nat, free: nat, used: nat, usedKernel: nat, count: int)
      requires Valid()
      ensures all == total && all == free + used + usedKernel
      ensures free == Bytes(total, st.blocks, total, Unused)
      ensures used == Bytes(total, st.blocks, total, ByUser)
      ensures usedKernel == Bytes(total, st.blocks, total, ByKernel)
      ensures count == |UserPayloads(Regions())|
    {
      hide Tiling, NoFreeSiblings, ListsExact, AllChained, BuddyLaws.HeapSize, Bytes, Pow2, Live, BuddyLaws.Payloads, UserPayloads;
      var off := 0;
      free, used, usedKernel := 0, 0, 0;
      FirstBlock(total, st.blocks);
      NoBytes(total, st.blocks);
      while off < total
        invariant off <= total && (off == total || off in st.blocks)
        invariant free == Bytes(total, st.blocks, off, Unused)
        invariant used == Bytes(total, st.blocks, off, ByUser)
        invariant usedKernel == Bytes(total, st.blocks, off, ByKernel)
        decreases total - off
      {
        assert HeaderIs(Memory(), off, st.blocks[off]);
        var size := Pow2(order[off / GRANULE]);
        NextBlock(total, st.blocks, off);
        BytesOfBlock(total, st.blocks, off, size, Unused);
        BytesOfBlock(total, st.blocks, off, size, ByUser);
        BytesOfBlock(total, st.blocks, off, size, ByKernel);
        if isFree[off / GRANULE] {
          free := free + size;
        } else if isKernel[off / GRANULE] {
          usedKernel := usedKernel + size;
        } else {
          used := used + size;
        }
        off := off + size;
      }
      EveryByteCounted(total, st.blocks, total);
      return total, free, used, usedKernel, allocCount;
    }

    /** A program writes what it likes into granule `g` of its block: everything but the block's own header. */
    method UserWrite(s: nat, g: nat, o: int, f: bool, k: bool, n: int)
      requires Valid() && InBlock(Live(st.blocks), s, GRANULE * g)
      modifies order, isFree, isKernel, next
      ensures Valid() && st == old(st)
    {
      hide BuddySpec.Valid, HeaderIs, AllChained, BuddyLaws.HeapSize, BuddyLaws.Payloads, Live;
      ghost var mem := Memory();
      ScribbleHarmless(total, mem, st, s, g, o, f, k, n);
      next[g] := n;
      if GRANULE * g != s {
        order[g] := o;
        isFree[g] := f;
        isKernel[g] := k;
      }
      assert Memory() == Scribbled(mem, s, g, o, f, k, n);
    }
  }

  /** After an allocation the state is valid, and one payload more is a user's or the kernel's. */
  lemma AllocCounts(total: nat, st: State, size: nat, kernel: bool)
    requires BuddySpec.Valid(total, st) && Alloc(st, size, kernel).1.Some?
    ensures BuddySpec.Valid(total, Alloc(st, size, kernel).0)
    ensures |UserPayloads(BuddyLaws.Payloads(Live(Alloc(st, size, kernel).0.blocks)))|
            == |UserPayloads(BuddyLaws.Payloads(Live(st.blocks)))| + (if kernel then 0 else 1)
  {
    hide BuddySpec.Valid, Live, BuddyLaws.Payloads, Alloc;
    BuddyLaws.AllocRefines(total, st, size, kernel);
    BuddyLaws.AllocGrants(total, st, size, kernel);
  }

  /** With no blocks and no list entries there is nothing to hold. */
  lemma EmptyHolds(total: nat, mem: Mem)
    requires Sized(total, mem) && forall i :: 0 <= i < ORDERS ==> mem.heads[i] == NULL
    ensures MemoryHolds(total, mem, State(map[], seq(ORDERS, _ => [])))
  {
  }

  function Scribbled(mem: Mem, s: nat, g: nat, o: int, f: bool, k: bool, n: int): Mem
    requires g < |mem.order| == |mem.isFree| == |mem.isKernel| == |mem.next|
  {
    if GRANULE * g == s then mem.(next := mem.next[g := n])
    else Mem(mem.order[g := o], mem.isFree[g := f], mem.isKernel[g := k], mem.next[g := n], mem.heads)
  }

  /** Nothing a program writes into its own block can pass for a header or a link of the allocator. */
  lemma ScribbleHarmless(total: nat, mem: Mem, st: State, s: nat, g: nat, o: int, f: bool, k: bool, n: int)
    requires MemoryHolds(total, mem, st) && BuddySpec.Valid(total, st) && InBlock(Live(st.blocks), s, GRANULE * g)
    ensures g < |mem.order| && MemoryHolds(total, Scribbled(mem, s, g, o, f, k, n), st)
  {
    hide Tiling, NoFreeSiblings, Aligned, ListsExact, AllChained;
    InHeap(total, st.blocks, s, GRANULE * g);
    ScribbleOffHeaders(total, mem, st.blocks, s, g, o, f, k, n);
    ScribbleOffList(total, mem, st, s, g, n);
  }

  lemma InHeap(total: nat, m: Blocks, s: nat, x: nat)
    requires Tiling(total, m) && InBlock(Live(m), s, x)
    ensures InBlock(m, s, x) && x < total
  {
  }

  lemma ScribbleOffHeaders(total: nat, mem: Mem, m: Blocks, s: nat, g: nat, o: int, f: bool, k: bool, n: int)
    requires Tiling(total, m) && InBlock(m, s, GRANULE * g) && g < |mem.order| == |mem.isFree| == |mem.isKernel| == |mem.next|
    requires forall t <- m :: HeaderIs(mem, t, m[t])
    ensures forall t <- m :: HeaderIs(Scribbled(mem, s, g, o, f, k, n), t, m[t])
  {
    hide Pow2, Tiling;
    forall t <- m ensures HeaderIs(Scribbled(mem, s, g, o, f, k, n), t, m[t]) {
      assert HeaderIs(mem, t, m[t]);
      if t / GRANULE == g { SameBlock(total, m, s, t, t); }
    }
  }

  lemma ScribbleOffList(total: nat, mem: Mem, st: State, s: nat, g: nat, n: int)
    requires MemoryHolds(total, mem, st) && BuddySpec.Valid(total, st) && InBlock(Live(st.blocks), s, GRANULE * g)
    requires g < |mem.next|
    ensures AllChained(mem.next[g := n], st.lists, mem.heads)
  {
    hide Covering, Shaped, NoFreeSiblings, Pow2, Aligned, HeaderIs, Chained;
    forall i | 0 <= i < ORDERS ensures Chained(mem.next[g := n], st.lists[i], mem.heads[i]) {
      assert ListExact(st.blocks, st.lists[i], i + MIN_ORDER, -1);
      ChainKept(mem.next, GRANULE * g, n, st.lists[i], mem.heads[i]);
    }
  }

  lemma FirstBlock(total: nat, m: Blocks)
    requires Tiling(total, m)
    ensures total == 0 || 0 in m
  {
    if total > 0 {
      var t := BuddyLaws.BlockOf(total, m, 0);
    }
  }

  function WithFree(mem: Mem, s: nat): Mem
    requires s / GRANULE < |mem.isFree|
  {
    mem.(isFree := mem.isFree[s / GRANULE := true])
  }

  /** Marking a used block as free. */
  lemma UnsealWritten(total: nat, mem: Mem, g: State, s: nat)
    requires MemoryHolds(total, mem, g) && BuddySpec.Valid(total, g) && s in g.blocks && g.blocks[s].Used?
    ensures s / GRANULE < |mem.order| && mem.order[s / GRANULE] == g.blocks[s].order
    ensures mem.isKernel[s / GRANULE] == g.blocks[s].kernel
    ensures MemoryHolds(total, WithFree(mem, s), g.(blocks := g.blocks[s := Free(g.blocks[s].order)]))
    ensures Untouched(Live(g.blocks) - {s}, mem, WithFree(mem, s))
  {
    hide Shaped, Covering, NoFreeSiblings, Chained, Untouched, Pow2;
    assert HeaderIs(mem, s, g.blocks[s]);
    var g' := g.(blocks := g.blocks[s := Free(g.blocks[s].order)]);
    forall t <- g'.blocks ensures HeaderIs(WithFree(mem, s), t, g'.blocks[t]) {
      assert HeaderIs(mem, t, g.blocks[t]);
    }
    forall t: nat ensures !InBlock(Live(g.blocks) - {s}, t, s) {
      if InBlock(Live(g.blocks) - {s}, t, s) { SameBlock(total, g.blocks, s, t, s); }
    }
    WriteOutside(Live(g.blocks) - {s}, mem, WithFree(mem, s), s);
  }

  lemma ListsApart(m: Blocks, lists: seq<seq<nat>>, except: int)
    requires ListsExact(m, lists, except)
    ensures Apart(lists)
  {
    forall i | 0 <= i < |lists| ensures Distinct(lists[i]) {
      assert ListExact(m, lists[i], i + MIN_ORDER, except);
    }
    forall i, j, x | 0 <= i < |lists| && 0 <= j < |lists| && i != j && x in lists[i] ensures x !in lists[j] {
      assert ListExact(m, lists[i], i + MIN_ORDER, except) && ListExact(m, lists[j], j + MIN_ORDER, except);
    }
  }

  /** The one link that removal from a list writes belongs to a free block. */
  lemma TouchedOutside(total: nat, g: State, s: nat, k: nat, touched: int, mem1: Mem, mem2: Mem)
    requires Inv(total, g, s) && MIN_ORDER <= k <= MAX_ORDER && OnlyAt(mem1, mem2, touched / GRANULE)
    requires touched == NULL || touched in g.lists[k - MIN_ORDER]
    requires MemoryHolds(total, mem1, g)
    ensures Untouched(Live(g.blocks), mem1, mem2)
  {
    hide NoFreeSiblings, Untouched, Chained, AllChained;
    if touched != NULL {
      assert ListExact(g.blocks, g.lists[k - MIN_ORDER], k, s);
      assert HeaderIs(mem1, touched, g.blocks[touched]);
      FreeByte(total, g.blocks, touched, touched);
    }
    WriteOutside(Live(g.blocks), mem1, mem2, touched);
  }

  /** Memory after the buddy has left its list and the fused block has its new order. */
  lemma FuseWritten(total: nat, mem: Mem, g: State, s: nat, k: nat)
    requires Inv(total, g, s) && IsFree(g.blocks, s, k) && IsFree(g.blocks, Sibling(s, k), k)
    requires MIN_ORDER <= k < MAX_ORDER
    requires MemoryHolds(total, mem, g.(lists := g.lists[k - MIN_ORDER := Without(g.lists[k - MIN_ORDER], Sibling(s, k))]))
    ensures Parent(s, k) == if Sibling(s, k) < s then Sibling(s, k) else s
    ensures Parent(s, k) / GRANULE < |mem.order|
    ensures MemoryHolds(total, WithOrder(mem, Parent(s, k), k + 1), MergeOnce(g, s, k))
    ensures Untouched(Live(g.blocks), mem, WithOrder(mem, Parent(s, k), k + 1))
  {
    hide NoFreeSiblings, ListExact, Untouched, Chained, Sibling, Parent, Aligned, Pow2, Without, Covering, Outside, Live, HeaderIs;
    SiblingFacts(s, k);
    var p := Parent(s, k);
    FuseHeaders(mem, g.blocks, s, Sibling(s, k), p, k);
    FreeByte(total, g.blocks, p, p);
    WriteOutside(Live(g.blocks), mem, WithOrder(mem, p, k + 1), p);
  }

  lemma FuseHeaders(mem: Mem, m: Blocks, s: nat, b: nat, p: nat, k: nat)
    requires IsFree(m, s, k) && IsFree(m, b, k) && (p == s || p == b) && forall t <- m :: HeaderIs(mem, t, m[t])
    ensures p % GRANULE == 0 && p / GRANULE < |mem.order|
    ensures var m' := (m - {s, b})[p := Free(k + 1)]; forall t <- m' :: HeaderIs(WithOrder(mem, p, k + 1), t, m'[t])
  {
    assert HeaderIs(mem, p, m[p]);
    var m' := (m - {s, b})[p := Free(k + 1)];
    forall t <- m' ensures HeaderIs(WithOrder(mem, p, k + 1), t, m'[t]) {
      if t != p { assert HeaderIs(mem, t, m[t]); }
    }
  }

  /** What the code reads at the buddy's address says whether the sibling is a free block of the same order. */
  lemma BuddyHeader(total: nat, mem: Mem, g: State, s: nat, k: nat)
    requires MemoryHolds(total, mem, g) && Tiling(total, g.blocks) && IsFree(g.blocks, s, k)
    ensures Sibling(s, k) + Pow2(k) > total ==> !IsFree(g.blocks, Sibling(s, k), k)
    ensures Sibling(s, k) + Pow2(k) <= total ==>
              var i := Sibling(s, k) / GRANULE;
              && i < |mem.order| == |mem.isFree|
              && (IsFree(g.blocks, Sibling(s, k), k) <==> mem.isFree[i] && mem.order[i] == k)
  {
    hide Covering, AllChained, Sibling, Pow2, Aligned;
    HeaderLookupSound(total, g.blocks, s);
    if Sibling(s, k) + Pow2(k) <= total {
      assert HeaderIs(mem, Sibling(s, k), g.blocks[Sibling(s, k)]);
    }
  }

  /** The free block in flight: a real granule, in no list, in no live block. */
  lemma InFlight(total: nat, mem: Mem, g: State, s: nat, k: nat)
    requires MemoryHolds(total, mem, g) && Inv(total, g, s) && IsFree(g.blocks, s, k)
    ensures s % GRANULE == 0 && s < total && Outside(Live(g.blocks), s)
    ensures forall i :: 0 <= i < ORDERS ==> s !in g.lists[i]
  {
    hide NoFreeSiblings, AllChained;
    assert HeaderIs(mem, s, g.blocks[s]);
    FreeByte(total, g.blocks, s, s);
    forall i | 0 <= i < ORDERS ensures s !in g.lists[i] {
      assert ListExact(g.blocks, g.lists[i], i + MIN_ORDER, s);
    }
  }

  lemma UntouchedSelf(total: nat, live: Blocks, mem: Mem, g: State)
    requires MemoryHolds(total, mem, g)
    ensures Untouched(live, mem, mem)
  {
  }

  /** Taking the head off a list. */
  lemma PopWritten(total: nat, mem: Mem, g: State, found: nat)
    requires MemoryHolds(total, mem, g) && BuddySpec.Valid(total, g) && MIN_ORDER <= found <= MAX_ORDER
    requires g.lists[found - MIN_ORDER] != []
    ensures var i := found - MIN_ORDER; var s := g.lists[i][0]; var popped := g.(lists := g.lists[i := g.lists[i][1..]]);
            && mem.heads[i] == s && s / GRANULE < |mem.next| && IsFree(g.blocks, s, found)
            && MemoryHolds(total, WithSkip(mem, found, NULL, s), popped) && Inv(total, popped, s)
            && Untouched(Live(g.blocks), mem, WithSkip(mem, found, NULL, s))
  {
    hide BuddyLaws.HeapSize, Inv, Untouched;
    var i := found - MIN_ORDER;
    var s := g.lists[i][0];
    BuddySteps.PopKeepsInv(total, g, found);
    AllPop(mem.next, g.lists, mem.heads, i);
    WriteOutside(Live(g.blocks), mem, WithSkip(mem, found, NULL, s), NULL);
  }

  /** Marking a free block as used. */
  lemma SealWritten(total: nat, mem: Mem, g: State, s: nat, k: nat, kernel: bool)
    requires MemoryHolds(total, mem, g) && Inv(total, g, s) && IsFree(g.blocks, s, k)
    ensures s % GRANULE == 0 && s / GRANULE < |mem.order| && mem.order[s / GRANULE] == k
    ensures MemoryHolds(total, WithHeader(mem, s, Used(k, kernel), kernel), g.(blocks := g.blocks[s := Used(k, kernel)]))
    ensures Untouched(Live(g.blocks), mem, WithHeader(mem, s, Used(k, kernel), kernel))
  {
    hide NoFreeSiblings, ListsExact, AllChained;
    assert HeaderIs(mem, s, g.blocks[s]);
    HeaderWritten(total, mem, g, s, Used(k, kernel), kernel);
    FreeByte(total, g.blocks, s, s);
    WriteOutside(Live(g.blocks), mem, WithHeader(mem, s, Used(k, kernel), kernel), s);
  }

  /** Memory after splitting the block at `s` into halves of order k. */
  function WithHalves(mem: Mem, s: nat, k: nat): Mem
    requires (s + Pow2(k)) / GRANULE < |mem.order| == |mem.isFree| == |mem.isKernel| == |mem.next|
    requires |mem.heads| == ORDERS && MIN_ORDER <= k <= MAX_ORDER
  {
    var u := s + Pow2(k);
    WithOrder(WithLink(WithHeader(mem, u, Free(k), false), u, k), s, k)
  }

  lemma HalveWritten(total: nat, mem: Mem, g: State, s: nat, k: nat)
    requires MemoryHolds(total, mem, g) && Inv(total, g, s) && IsFree(g.blocks, s, k + 1) && MIN_ORDER <= k < MAX_ORDER
    ensures (s + Pow2(k)) % GRANULE == 0 && s + Pow2(k) < total && s % GRANULE == 0
    ensures forall i :: 0 <= i < ORDERS ==> s + Pow2(k) !in g.lists[i]
    ensures MemoryHolds(total, WithHeader(mem, s + Pow2(k), Free(k), false), g.(blocks := g.blocks[s + Pow2(k) := Free(k)]))
    ensures MemoryHolds(total, WithHalves(mem, s, k), SplitOnce(g, s, k))
    ensures Untouched(Live(g.blocks), mem, WithHalves(mem, s, k))
  {
    hide Inv, Pow2, Untouched, Outside, Chained, HeaderIs;
    var u := s + Pow2(k);
    UpperHalf(total, g, s, k);
    var mem1 := WithHeader(mem, u, Free(k), false);
    HeaderWritten(total, mem, g, u, Free(k), false);
    var g1 := g.(blocks := g.blocks[u := Free(k)]);
    var mem2 := WithLink(mem1, u, k);
    LinkWritten(total, mem1, g1, u, k);
    var g2 := g1.(lists := Push(g1.lists, k, u));
    OrderWritten(total, mem2, g2, s, k);
    assert g2.blocks[s := Free(k)] == SplitOnce(g, s, k).blocks;
    WriteOutside(Live(g.blocks), mem, mem2, u);
    WriteOutside(Live(g.blocks), mem2, WithHalves(mem, s, k), s);
    UntouchedThen(Live(g.blocks), mem, mem2, WithHalves(mem, s, k));
  }

  lemma Unlisted(g: State, except: int, s: nat)
    requires ListsExact(g.blocks, g.lists, except) && s !in g.blocks
    ensures forall i :: 0 <= i < ORDERS ==> s !in g.lists[i]
  {
    forall i | 0 <= i < ORDERS ensures s !in g.lists[i] {
      assert ListExact(g.blocks, g.lists[i], i + MIN_ORDER, except);
    }
  }

  /** The upper half of a free block under splitting: a granule that starts no block and is in no list. */
  lemma UpperHalf(total: nat, g: State, block: nat, k: nat)
    requires Inv(total, g, block) && IsFree(g.blocks, block, k + 1) && MIN_ORDER <= k < MAX_ORDER
    ensures block % GRANULE == 0 && (block + Pow2(k)) % GRANULE == 0 && block + Pow2(k) < total
    ensures block + Pow2(k) !in g.blocks && forall i :: 0 <= i < ORDERS ==> block + Pow2(k) !in g.lists[i]
    ensures Outside(Live(g.blocks), block) && Outside(Live(g.blocks), block + Pow2(k))
  {
    hide Sibling, Parent, Aligned, Pow2, NoFreeSiblings, ListsExact, Outside;
    BuddySteps.SplitShape(total, g.blocks, block, k);
    HalvesAreSiblings(block, k);
    AlignedDown(block, k + 1, k);
    SiblingFacts(block, k);
    AlignedBy16(block, k);
    AlignedBy16(block + Pow2(k), k);
    Unlisted(g, block, block + Pow2(k));
    Pow2Doubles(k);
    FreeByte(total, g.blocks, block, block);
    FreeByte(total, g.blocks, block, block + Pow2(k));
  }
}
