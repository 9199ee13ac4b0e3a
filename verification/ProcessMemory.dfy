/** Which kernel heap blocks the process table owns. */
module ProcessMemory {
  import opened RunQueue
  import BuddySpec
  import BuddySteps
  import BuddyLaws

  /** The payloads the kernel holds, by address. */
  function KernelPayloads(m: BuddySpec.Blocks): (r: set<int>)
    ensures forall x :: x in r <==> x >= BuddySpec.HEADER && x - BuddySpec.HEADER in m
                                    && m[x - BuddySpec.HEADER].Used? && m[x - BuddySpec.HEADER].kernel
  {
    set s | s in m && m[s].Used? && m[s].kernel :: s + BuddySpec.HEADER
  }

  /** The payloads user programs hold, with the sizes of their blocks. */
  function UserBlocks(m: BuddySpec.Blocks): BuddySpec.Blocks {
    map s | s in m && m[s].Used? && !m[s].kernel :: m[s]
  }

  /** The heap blocks a table entry owns: its stack and its copy of argv, unless it is free. */
  function Own(p: PCB): multiset<int> {
    if p.state == FREE then multiset{}
    else (if p.stack == NULL then multiset{} else multiset{p.stack}) + (if p.argv == NULL then multiset{} else multiset{p.argv})
  }

  function Owned(t: seq<PCB>): multiset<int> {
    if t == [] then multiset{} else Own(t[0]) + Owned(t[1..])
  }

  /** Every kernel payload belongs to exactly one live process, and the other way round. */
  ghost predicate Exact(t: seq<PCB>, m: BuddySpec.Blocks) {
    Owned(t) == multiset(KernelPayloads(m))
  }

  lemma {:induction false} OwnedUpdate(t: seq<PCB>, i: nat, p: PCB)
    requires i < |t|
    ensures Owned(t[i := p]) + Own(t[i]) == Owned(t) + Own(p)
    decreases |t|
  {
    hide Own;
    var u := t[i := p];
    if i == 0 {
      assert u[1..] == t[1..];
    } else {
      assert u[1..] == t[1..][i - 1 := p];
      OwnedUpdate(t[1..], i - 1, p);
      AddToBoth(Own(t[0]), Owned(u[1..]), Own(t[i]), Owned(t[1..]), Own(p));
    }
  }

  lemma AddToBoth(a: multiset<int>, b: multiset<int>, c: multiset<int>, d: multiset<int>, e: multiset<int>)
    requires b + c == d + e
    ensures (a + b) + c == (a + d) + e
  {
    forall x ensures ((a + b) + c)[x] == ((a + d) + e)[x] {
      assert (b + c)[x] == (d + e)[x];
    }
  }

  lemma Cancel(a: multiset<int>, own: multiset<int>, k: multiset<int>, ptr: int)
    requires a + (own + multiset{ptr}) == k + own
    ensures a == k - multiset{ptr} && ptr in k
  {
    forall x ensures a[x] + (if x == ptr then 1 else 0) == k[x] {
      assert (a + (own + multiset{ptr}))[x] == (k + own)[x];
    }
  }

  lemma CancelEqual(a: multiset<int>, own: multiset<int>, b: multiset<int>)
    requires a + own == b + own
    ensures a == b
  {
    forall x ensures a[x] == b[x] {
      assert (a + own)[x] == (b + own)[x];
    }
  }

  lemma {:induction false} OwnedHas(t: seq<PCB>, i: nat)
    requires i < |t|
    ensures Own(t[i]) <= Owned(t)
  {
    if i > 0 { OwnedHas(t[1..], i - 1); }
  }

  /** Two tables whose entries own the same blocks own the same blocks. */
  lemma {:induction false} OwnedSame(t: seq<PCB>, u: seq<PCB>)
    requires |t| == |u| && forall i :: 0 <= i < |t| ==> Own(t[i]) == Own(u[i])
    ensures Owned(t) == Owned(u)
  {
    if t != [] {
      OwnedSame(t[1..], u[1..]);
    }
  }

  /** An owned block is live in the heap, and can be freed. */
  lemma OwnedIsHeld(t: seq<PCB>, st: BuddySpec.State, total: nat, ptr: int)
    requires Exact(t, st.blocks) && BuddySpec.Valid(total, st) && ptr in Owned(t)
    ensures ptr >= BuddySpec.HEADER && BuddySpec.Held(st, ptr - BuddySpec.HEADER) && st.blocks[ptr - BuddySpec.HEADER].kernel
  {
    assert ptr in KernelPayloads(st.blocks);
  }

  lemma KernelReleased(total: nat, st: BuddySpec.State, s: nat)
    requires BuddySpec.Valid(total, st) && BuddySpec.Held(st, s) && st.blocks[s].kernel
    ensures var r := BuddySpec.Release(st, s);
            && multiset(KernelPayloads(r.blocks)) == multiset(KernelPayloads(st.blocks)) - multiset{s + BuddySpec.HEADER}
            && s + BuddySpec.HEADER in KernelPayloads(st.blocks)
            && UserBlocks(r.blocks) == UserBlocks(st.blocks)
  {
    hide KernelPayloads, BuddySpec.Valid, BuddySpec.Release;
    BuddySteps.ReleaseKeepsValid(total, st, s);
    var r := BuddySpec.Release(st, s);
    LiveDecides(r.blocks, st.blocks - {s});
    assert KernelPayloads(r.blocks) == KernelPayloads(st.blocks) - {s + BuddySpec.HEADER};
  }

  lemma RefusalKeeps(total: nat, st: BuddySpec.State, size: nat, kernel: bool)
    requires BuddySpec.Valid(total, st)
    ensures |st.lists| == BuddySpec.ORDERS
    ensures BuddySpec.Alloc(st, size, kernel).1.None? ==> BuddySpec.Alloc(st, size, kernel).0 == st
  {
  }

  lemma KernelGranted(total: nat, st: BuddySpec.State, size: nat)
    requires BuddySpec.Valid(total, st)
    ensures var (st', r) := BuddySpec.Alloc(st, size, true);
            if r.None? then st' == st
            else
              && r.value + BuddySpec.HEADER !in KernelPayloads(st.blocks)
              && multiset(KernelPayloads(st'.blocks)) == multiset(KernelPayloads(st.blocks)) + multiset{r.value + BuddySpec.HEADER}
              && UserBlocks(st'.blocks) == UserBlocks(st.blocks)
  {
    hide BuddySpec.Valid, BuddySpec.Alloc, KernelPayloads, UserBlocks, BuddySpec.Live;
    RefusalKeeps(total, st, size, true);
    var (st', r) := BuddySpec.Alloc(st, size, true);
    if r.Some? {
      BuddyLaws.AllocGrants(total, st, size, true);
      GrantedSets(st.blocks, st'.blocks, r.value, BuddySpec.OrderFrom(size + BuddySpec.HEADER, BuddySpec.MIN_ORDER));
    }
  }

  /** What user programs allocate and free leaves the kernel's payloads alone. */
  lemma UserGranted(total: nat, st: BuddySpec.State, size: nat)
    requires BuddySpec.Valid(total, st)
    ensures var (st', r) := BuddySpec.Alloc(st, size, false);
            && KernelPayloads(st'.blocks) == KernelPayloads(st.blocks)
            && if r.None? then UserBlocks(st'.blocks) == UserBlocks(st.blocks)
               else
                 var k := BuddySpec.OrderFrom(size + BuddySpec.HEADER, BuddySpec.MIN_ORDER);
                 k >= 0 && UserBlocks(st'.blocks) == UserBlocks(st.blocks)[r.value := BuddySpec.Used(k, false)]
  {
    hide KernelPayloads;
    var (st', r) := BuddySpec.Alloc(st, size, false);
    if r.Some? {
      BuddyLaws.AllocGrants(total, st, size, false);
      var k := BuddySpec.OrderFrom(size + BuddySpec.HEADER, BuddySpec.MIN_ORDER);
      UserBlockGranted(st.blocks, st'.blocks, r.value, k);
    }
  }

  lemma UserBlockGranted(m: BuddySpec.Blocks, m': BuddySpec.Blocks, s: nat, k: nat)
    requires s !in BuddySpec.Live(m) && BuddySpec.Live(m') == BuddySpec.Live(m)[s := BuddySpec.Used(k, false)]
    ensures KernelPayloads(m') == KernelPayloads(m)
    ensures UserBlocks(m') == UserBlocks(m)[s := BuddySpec.Used(k, false)]
  {
    hide KernelPayloads;
    var n := m[s := BuddySpec.Used(k, false)];
    assert s in m ==> m[s].Free? by { assert s in m && m[s].Used? ==> s in BuddySpec.Live(m); }
    assert BuddySpec.Live(n) == BuddySpec.Live(m');
    LiveDecides(m', n);
    assert KernelPayloads(n) == KernelPayloads(m);
  }

  lemma UserReleased(total: nat, st: BuddySpec.State, s: nat)
    requires BuddySpec.Valid(total, st) && BuddySpec.Held(st, s) && !st.blocks[s].kernel
    ensures var r := BuddySpec.Release(st, s);
            KernelPayloads(r.blocks) == KernelPayloads(st.blocks) && UserBlocks(r.blocks) == UserBlocks(st.blocks) - {s}
  {
    hide KernelPayloads, BuddySpec.Valid, BuddySpec.Release;
    BuddySteps.ReleaseKeepsValid(total, st, s);
    var r := BuddySpec.Release(st, s);
    LiveDecides(r.blocks, st.blocks - {s});
    assert KernelPayloads(r.blocks) == KernelPayloads(st.blocks);
  }

  /** Kernel and user payloads follow from the live blocks. */
  lemma LiveDecides(m: BuddySpec.Blocks, n: BuddySpec.Blocks)
    requires BuddySpec.Live(m) == BuddySpec.Live(n)
    ensures KernelPayloads(m) == KernelPayloads(n) && UserBlocks(m) == UserBlocks(n)
  {
    hide KernelPayloads;
    forall s ensures s in m && m[s].Used? <==> s in n && n[s].Used?
             ensures s in m && m[s].Used? ==> m[s] == n[s] {
      assert s in BuddySpec.Live(m) <==> s in BuddySpec.Live(n);
      assert s in BuddySpec.Live(m) ==> BuddySpec.Live(m)[s] == BuddySpec.Live(n)[s];
    }
  }

  lemma GrantedSets(m: BuddySpec.Blocks, m': BuddySpec.Blocks, s: nat, k: nat)
    requires s !in BuddySpec.Live(m) && BuddySpec.Live(m') == BuddySpec.Live(m)[s := BuddySpec.Used(k, true)]
    ensures s + BuddySpec.HEADER !in KernelPayloads(m)
    ensures multiset(KernelPayloads(m')) == multiset(KernelPayloads(m)) + multiset{s + BuddySpec.HEADER}
    ensures UserBlocks(m') == UserBlocks(m)
  {
    hide KernelPayloads;
    var n := m[s := BuddySpec.Used(k, true)];
    assert s in m ==> m[s].Free? by { assert s in m && m[s].Used? ==> s in BuddySpec.Live(m); }
    assert BuddySpec.Live(n) == BuddySpec.Live(m');
    LiveDecides(m', n);
    assert KernelPayloads(n) == KernelPayloads(m) + {s + BuddySpec.HEADER};
  }
}
