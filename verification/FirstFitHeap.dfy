/** First fit in memory: headers linked in address order. */
module FirstFitHeap {
  import opened FirstFitSpec
  import FirstFitLaws
  import Allocator

  const NULL := -1

  /** Eight bytes: the three words of a header are its size, its two flags and the address of the next one. A program
      may write any word into its own memory. */
  datatype Word = Number(n: int) | Flags(isFree: bool, isKernel: bool) | Address(a: int)

  datatype Header = Header(size: int, isFree: bool, isKernel: bool, next: int)

  /** Three words of memory from address s on. */
  predicate Fits(mem: seq<Word>, s: int) {
    s >= 0 && s % ALIGN == 0 && s / ALIGN + 2 < |mem|
  }

  predicate HasHeader(mem: seq<Word>, s: int) {
    Fits(mem, s) && mem[s / ALIGN].Number? && mem[s / ALIGN + 1].Flags? && mem[s / ALIGN + 2].Address?
  }

  function HeaderAt(mem: seq<Word>, s: int): Header
    requires HasHeader(mem, s)
  {
    Header(mem[s / ALIGN].n, mem[s / ALIGN + 1].isFree, mem[s / ALIGN + 1].isKernel, mem[s / ALIGN + 2].a)
  }

  function Written(mem: seq<Word>, s: int, h: Header): (r: seq<Word>)
    requires Fits(mem, s)
    ensures |r| == |mem|
  {
    mem[s / ALIGN := Number(h.size)][s / ALIGN + 1 := Flags(h.isFree, h.isKernel)][s / ALIGN + 2 := Address(h.next)]
  }

  lemma WrittenThere(mem: seq<Word>, s: int, h: Header)
    requires Fits(mem, s)
    ensures HasHeader(Written(mem, s, h), s) && HeaderAt(Written(mem, s, h), s) == h
  {
  }

  /** A header written three words or more away leaves this one as it is. */
  lemma WrittenElsewhere(mem: seq<Word>, s: int, h: Header, t: int)
    requires Fits(mem, s) && (t <= s - HEADER || s + HEADER <= t) && t % ALIGN == 0
    ensures HasHeader(mem, t) ==> HasHeader(Written(mem, s, h), t) && HeaderAt(Written(mem, s, h), t) == HeaderAt(mem, t)
  {
  }

  lemma WrittenInside(mem: seq<Word>, s: int, h: Header)
    requires Fits(mem, s)
    ensures SameBut(mem, Written(mem, s, h), s, s + HEADER)
  {
  }

  function NextOf(bs: Blocks, i: nat): int
    requires i < |bs|
  {
    if i + 1 < |bs| then bs[i + 1].start else NULL
  }

  /** Memory holds the header of block i. */
  predicate HeaderOf(mem: seq<Word>, bs: Blocks, i: nat) {
    && i < |bs| && HasHeader(mem, bs[i].start)
    && var h := HeaderAt(mem, bs[i].start);
    && h.size == bs[i].size && h.isFree == bs[i].kind.Free? && h.next == NextOf(bs, i)
    && (bs[i].kind.Used? ==> h.isKernel == bs[i].kind.kernel)
  }

  ghost predicate Headed(mem: seq<Word>, bs: Blocks) {
    forall i {:trigger HeaderOf(mem, bs, i)} :: 0 <= i < |bs| ==> HeaderOf(mem, bs, i)
  }

  /** Memory that differs only in the words from `a` up to `b`. */
  ghost predicate SameBut(mem: seq<Word>, mem': seq<Word>, a: int, b: int) {
    |mem| == |mem'| && forall g :: 0 <= g < |mem| && !(a <= g * ALIGN < b) ==> mem'[g] == mem[g]
  }

  /** The words of every live block, header and payload, are the same in both. */
  ghost predicate Untouched(live: map<nat, Block>, mem: seq<Word>, mem': seq<Word>) {
    |mem| == |mem'| && forall s, g :: s in live && 0 <= g < |mem| && s <= g * ALIGN < End(live[s]) ==> mem'[g] == mem[g]
  }

  lemma StartsApart(total: nat, bs: Blocks, i: nat, k: nat)
    requires Tiled(total, bs) && i < |bs| && k < |bs| && i != k
    ensures bs[k].start <= bs[i].start - HEADER || bs[i].start + HEADER <= bs[k].start
    ensures bs[i].start % ALIGN == bs[k].start % ALIGN == 0
  {
    assert Placed(total, bs, i) && Placed(total, bs, k);
    if i < k { InOrder(total, bs, i, k); } else { InOrder(total, bs, k, i); }
  }

  /** There is room for the header of a block. */
  lemma HeaderFits(total: nat, mem: seq<Word>, bs: Blocks, i: nat)
    requires Tiled(total, bs) && i < |bs| && |mem| == total / ALIGN
    ensures Fits(mem, bs[i].start)
  {
    assert Placed(total, bs, i);
    InHeap(total, bs, i);
  }

  /** Writes inside one block that is not live touch no live block. */
  lemma WriteInside(total: nat, bs: Blocks, i: nat, live: map<nat, Block>, mem: seq<Word>, mem': seq<Word>)
    requires Tiled(total, bs) && i < |bs| && SameBut(mem, mem', bs[i].start, End(bs[i]))
    requires forall s <- live :: s in Live(bs) && live[s] == Live(bs)[s] && s != bs[i].start
    ensures Untouched(live, mem, mem')
  {
    hide Live, Tiled;
    forall s, g | s in live && 0 <= g < |mem| && s <= g * ALIGN < End(live[s]) ensures mem'[g] == mem[g] {
      var k := LiveIsBlock(total, bs, s);
      if k < i { InOrder(total, bs, k, i); } else { InOrder(total, bs, i, k); }
    }
  }

  lemma UntouchedThen(live: map<nat, Block>, mem1: seq<Word>, mem2: seq<Word>, mem3: seq<Word>)
    requires Untouched(live, mem1, mem2) && Untouched(live, mem2, mem3)
    ensures Untouched(live, mem1, mem3)
  {
  }

  // ---------------------------------------------------------------- what a write makes of the headers

  /** Both headers of a block that is split, the second one made of what the first one held. */
  function Split(mem: seq<Word>, s: int, need: nat, kernel: bool): seq<Word>
    requires HasHeader(mem, s) && Fits(mem, s + HEADER + need)
  {
    var h := HeaderAt(mem, s);
    Written(Written(mem, s + HEADER + need, Header(h.size - need - HEADER, true, false, h.next)),
            s, Header(need, false, kernel, s + HEADER + need))
  }

  lemma SplitInside(mem: seq<Word>, s: int, need: nat, kernel: bool, end: int)
    requires HasHeader(mem, s) && Fits(mem, s + HEADER + need) && s + 2 * HEADER + need <= end
    ensures SameBut(mem, Split(mem, s, need, kernel), s, end)
  {
  }

  lemma SameButMore(mem: seq<Word>, mem': seq<Word>, a: int, b: int, c: int)
    requires SameBut(mem, mem', a, b) && b <= c
    ensures SameBut(mem, mem', a, c)
  {
  }

  lemma FlagsWritten(mem: seq<Word>, s: int, isFree: bool, isKernel: bool)
    requires HasHeader(mem, s)
    ensures mem[s / ALIGN + 1 := Flags(isFree, isKernel)]
            == Written(mem, s, HeaderAt(mem, s).(isFree := isFree, isKernel := isKernel))
  {
  }

  /** Block i split: the headers of both halves written. */
  lemma SplitWritten(total: nat, mem: seq<Word>, mem': seq<Word>, bs: Blocks, i: nat, need: nat, kernel: bool)
    requires Tiled(total, bs) && Headed(mem, bs) && i < |bs| && bs[i].size >= need + MIN_SPLIT
    requires Tiled(total, Carve(bs, i, need, kernel)) && |mem| == total / ALIGN && need % ALIGN == 0
    requires HasHeader(mem, bs[i].start) && Fits(mem, bs[i].start + HEADER + need)
    requires mem' == Split(mem, bs[i].start, need, kernel)
    ensures Headed(mem', Carve(bs, i, need, kernel))
  {
    hide Tiled, Written, HasHeader, HeaderAt;
    var r := Carve(bs, i, need, kernel);
    var s, t := bs[i].start, bs[i].start + HEADER + need;
    var h, g := Header(bs[i].size - need - HEADER, true, false, NextOf(bs, i)), Header(need, false, kernel, t);
    assert HeaderOf(mem, bs, i);
    var mem1 := Written(mem, t, h);
    forall k | 0 <= k < |r| ensures HeaderOf(mem', r, k) {
      FirstFitLaws.PlacedAt(total, r, k);
      WrittenThere(mem, t, h);
      WrittenThere(mem1, s, g);
      WrittenElsewhere(mem1, s, g, t);
      if k < i || k > i + 1 {
        var j := if k < i then k else k - 1;
        assert r[k] == bs[j] && HeaderOf(mem, bs, j);
        StartsApart(total, r, k, i);
        StartsApart(total, r, k, i + 1);
        WrittenElsewhere(mem, t, h, r[k].start);
        WrittenElsewhere(mem1, s, g, r[k].start);
        assert NextOf(r, k) == NextOf(bs, j);
      }
    }
  }

  /** The header of block i written, with the same next. */
  lemma KindWritten(total: nat, mem: seq<Word>, bs: Blocks, i: nat, kind: Kind, h: Header)
    requires Tiled(total, bs) && Headed(mem, bs) && i < |bs| && Fits(mem, bs[i].start)
    requires h.size == bs[i].size && h.isFree == kind.Free? && h.next == NextOf(bs, i) && (kind.Used? ==> h.isKernel == kind.kernel)
    ensures Headed(Written(mem, bs[i].start, h), bs[i := bs[i].(kind := kind)])
  {
    hide Tiled, Written, HasHeader, HeaderAt;
    var mem' := Written(mem, bs[i].start, h);
    var r := bs[i := bs[i].(kind := kind)];
    WrittenThere(mem, bs[i].start, h);
    forall k | 0 <= k < |r| ensures HeaderOf(mem', r, k) {
      assert HeaderOf(mem, bs, k);
      if k != i { StartsApart(total, bs, i, k); WrittenElsewhere(mem, bs[i].start, h, bs[k].start); }
    }
  }

  /** Block i has swallowed the next one. */
  lemma MergeWritten(total: nat, mem: seq<Word>, bs: Blocks, i: nat, h: Header)
    requires Tiled(total, bs) && Headed(mem, bs) && i + 1 < |bs| && Fits(mem, bs[i].start)
    requires h.size == bs[i].size + HEADER + bs[i + 1].size && h.isFree == bs[i].kind.Free? && h.next == NextOf(bs, i + 1)
    requires bs[i].kind.Used? ==> h.isKernel == bs[i].kind.kernel
    ensures Headed(Written(mem, bs[i].start, h), MergeAt(bs, i))
  {
    hide Tiled, Written, HasHeader, HeaderAt;
    var mem' := Written(mem, bs[i].start, h);
    var r := MergeAt(bs, i);
    WrittenThere(mem, bs[i].start, h);
    forall k | 0 <= k < |r| ensures HeaderOf(mem', r, k) {
      var j := if k <= i then k else k + 1;
      assert HeaderOf(mem, bs, j);
      if k != i { StartsApart(total, bs, i, j); WrittenElsewhere(mem, bs[i].start, h, bs[j].start); }
    }
  }

  /** A word of the payload of a live block belongs to no header. */
  lemma PayloadWritten(total: nat, mem: seq<Word>, bs: Blocks, s: nat, g: nat, w: Word)
    requires Tiled(total, bs) && Headed(mem, bs) && s in Live(bs) && g < |mem| && s + HEADER <= g * ALIGN < End(Live(bs)[s])
    ensures Headed(mem[g := w], bs)
  {
    hide Tiled, Live;
    var i := LiveIsBlock(total, bs, s);
    var mem' := mem[g := w];
    forall k | 0 <= k < |bs| ensures HeaderOf(mem', bs, k) {
      assert HeaderOf(mem, bs, k);
      if k < i { InOrder(total, bs, k, i); } else if k > i { InOrder(total, bs, i, k); }
    }
  }

  // ---------------------------------------------------------------- the allocator

  class Heap {
    const total: nat
    const mem: array<Word>
    var heapStart: int
    ghost var bs: Blocks

    ghost predicate Holds(cs: Blocks)
      reads mem
    {
      mem.Length == total / ALIGN && Headed(mem[..], cs)
    }

    /** Before set-up, or when the memory was too small for it, there is no heap. */
    ghost predicate Valid()
      reads this, mem
    {
      if heapStart == NULL then bs == []
      else heapStart == 0 && FirstFitSpec.Valid(total, bs) && Holds(bs)
    }

    ghost function Regions(): Allocator.Regions
      reads this
    {
      FirstFitLaws.Payloads(Live(bs))
    }

    constructor (size: nat)
      ensures Valid() && total == size && fresh(mem)
      ensures if size <= HEADER then bs == [] else bs == Initial(size)
    {
      total := size;
      mem := new Word[size / ALIGN](_ => Number(0));
      heapStart := NULL;
      bs := [];
      new;
      if size > HEADER {
        mem[0], mem[1], mem[2] := Number(size - HEADER), Flags(true, false), Address(NULL);
        heapStart, bs := 0, Initial(size);
        FirstFitLaws.InitialValid(size);
        assert HeaderOf(mem[..], bs, 0);
      }
    }

    /** Walk to the first free block that is large enough; null at the end of the list. */
    method Seek(need: nat) returns (block: int, ghost i: nat)
      requires Valid() && heapStart != NULL
      ensures i == FirstFit(bs, need, 0) && block == if i < |bs| then bs[i].start else NULL
    {
      hide Tiled, Merged;
      block, i := heapStart, 0;
      HasFirst(total, bs);
      while block != NULL
        invariant i <= |bs| && block == (if i < |bs| then bs[i].start else NULL)
        invariant FirstFit(bs, need, i) == FirstFit(bs, need, 0)
        decreases |bs| - i
      {
        assert HeaderOf(mem[..], bs, i);
        if mem[block / ALIGN + 1].isFree && mem[block / ALIGN].n >= need {
          return;
        }
        block, i := mem[block / ALIGN + 2].a, i + 1;
      }
    }

    method MallocImpl(size: nat, kernel: bool) returns (ptr: int)
      requires Valid()
      modifies this, mem
      ensures Valid() && heapStart == old(heapStart)
      ensures heapStart == NULL ==> ptr == NULL
      ensures heapStart != NULL ==>
                var (cs, r) := Alloc(old(bs), size, kernel);
                bs == cs && ptr == match r case None => NULL case Some(s) => s + HEADER
      ensures Untouched(Live(old(bs)), old(mem[..]), mem[..])
    {
      hide FirstFitSpec.Valid, Headed, Live, FirstFit, Carve, RoundUp, Untouched;
      if size == 0 || heapStart == NULL {
        UntouchedSelf(Live(bs), mem[..]);
        return NULL;
      }
      var need := (size + ALIGN - 1) / ALIGN * ALIGN;
      RoundUpIs(size);
      var block, i := Seek(need);
      if block == NULL {
        UntouchedSelf(Live(bs), mem[..]);
        return NULL;
      }
      FirstFitLaws.AllocKeepsValid(total, bs, size, kernel);
      Take(block, i, need, kernel);
      bs := Carve(bs, i, need, kernel);
      return block + HEADER;
    }

    /** Hand out the free block at `block`, split if enough is left over. */
    method Take(block: nat, ghost i: nat, need: nat, kernel: bool)
      requires heapStart != NULL && Valid() && i < |bs| && block == bs[i].start && bs[i].kind.Free?
      requires bs[i].size >= need > 0 && need % ALIGN == 0 && FirstFitSpec.Valid(total, Carve(bs, i, need, kernel))
      modifies mem
      ensures Holds(Carve(bs, i, need, kernel))
      ensures Untouched(Live(bs), old(mem[..]), mem[..])
    {
      hide Live, Untouched, Headed, HeaderOf, FirstFitSpec.Valid, Written, SameBut;
      ValidIsTiled(total, bs, i, need, kernel);
      HeaderGives(total, mem[..], bs, i);
      FreeIsNotLive(total, bs, i);
      InHeap(total, bs, i);
      ghost var was := mem[..];
      if mem[block / ALIGN].n >= need + MIN_SPLIT {
        HeaderFits(total, was, Carve(bs, i, need, kernel), i + 1);
        SplitOff(block, need, kernel);
        SplitWritten(total, was, mem[..], bs, i, need, kernel);
        SplitInside(was, block, need, kernel, End(bs[i]));
      } else {
        mem[block / ALIGN + 1] := Flags(false, kernel);
        FlagsWritten(was, block, false, kernel);
        KindWritten(total, was, bs, i, Used(kernel), HeaderAt(was, block).(isFree := false, isKernel := kernel));
        WrittenInside(was, block, HeaderAt(was, block).(isFree := false, isKernel := kernel));
        SameButMore(was, mem[..], block, block + HEADER, End(bs[i]));
      }
      WriteInside(total, bs, i, Live(bs), was, mem[..]);
    }

    /** The first `need` bytes of the block are in use, and the rest is a free block of its own. */
    method SplitOff(block: nat, need: nat, kernel: bool)
      requires HasHeader(mem[..], block) && Fits(mem[..], block + HEADER + need)
      modifies mem
      ensures mem[..] == Split(old(mem[..]), block, need, kernel)
    {
      var split := block + HEADER + need;
      mem[split / ALIGN] := Number(mem[block / ALIGN].n - need - HEADER);
      mem[split / ALIGN + 1] := Flags(true, false);
      mem[split / ALIGN + 2] := mem[block / ALIGN + 2];
      mem[block / ALIGN] := Number(need);
      mem[block / ALIGN + 2] := Address(split);
      mem[block / ALIGN + 1] := Flags(false, kernel);
    }

    /** A program writes what it likes into a word of its own block. */
    method UserWrite(s: nat, g: nat, w: Word)
      requires Valid() && s in Live(bs) && s + HEADER <= g * ALIGN && (g + 1) * ALIGN <= End(Live(bs)[s])
      modifies mem
      ensures Valid() && bs == old(bs) && g < mem.Length && mem[..] == old(mem[..])[g := w]
    {
      hide Tiled, Merged, Headed, Live;
      ghost var i := LiveIsBlock(total, bs, s);
      InHeap(total, bs, i);
      PayloadWritten(total, mem[..], bs, s, g, w);
      mem[g] := w;
    }

    method Malloc(size: nat) returns (ptr: int)
      requires Valid()
      modifies this, mem
      ensures Valid() && heapStart == old(heapStart) && (heapStart == NULL ==> ptr == NULL)
      ensures heapStart != NULL ==>
                var (cs, r) := Alloc(old(bs), size, false);
                bs == cs && ptr == match r case None => NULL case Some(s) => s + HEADER
      ensures Untouched(Live(old(bs)), old(mem[..]), mem[..])
    {
      ptr := MallocImpl(size, false);
    }

    method MallocKernel(size: nat) returns (ptr: int)
      requires Valid()
      modifies this, mem
      ensures Valid() && heapStart == old(heapStart) && (heapStart == NULL ==> ptr == NULL)
      ensures heapStart != NULL ==>
                var (cs, r) := Alloc(old(bs), size, true);
                bs == cs && ptr == match r case None => NULL case Some(s) => s + HEADER
      ensures Untouched(Live(old(bs)), old(mem[..]), mem[..])
    {
      ptr := MallocImpl(size, true);
    }

    // ---------------------------------------------------------------- freeing

    /** The block before `block`; null if it is the first. */
    method Before(block: nat, ghost i: nat, ghost cs: Blocks) returns (prev: int)
      requires heapStart == 0 && Tiled(total, cs) && Holds(cs) && i < |cs| && cs[i].start == block
      ensures prev == if i > 0 then cs[i - 1].start else NULL
    {
      hide Tiled, Headed, HeaderOf;
      HasFirst(total, cs);
      ghost var k := 0;
      prev := heapStart;
      HeaderGives(total, mem[..], cs, 0);
      while prev != NULL && mem[prev / ALIGN + 2].a != block
        invariant k <= |cs| && prev == (if k < |cs| then cs[k].start else NULL)
        invariant prev != NULL ==> HasHeader(mem[..], prev) && HeaderAt(mem[..], prev).next == NextOf(cs, k)
        invariant i > 0 ==> k < i
        decreases |cs| - k
      {
        NextFound(total, cs, i, k);
        if k + 1 < |cs| { HeaderGives(total, mem[..], cs, k + 1); }
        prev, k := mem[prev / ALIGN + 2].a, k + 1;
      }
      if k < |cs| { NextFound(total, cs, i, k); }
    }

    /** Swallow the block at `next`, which follows. */
    method Swallow(block: nat, next: nat, ghost i: nat, ghost cs: Blocks)
      requires Tiled(total, cs) && Holds(cs) && i + 1 < |cs| && cs[i].start == block && cs[i + 1].start == next
      requires cs[i].kind.Free? && cs[i + 1].kind.Free?
      modifies mem
      ensures Tiled(total, MergeAt(cs, i)) && Holds(MergeAt(cs, i)) && Live(MergeAt(cs, i)) == Live(cs)
      ensures Untouched(Live(cs), old(mem[..]), mem[..])
    {
      hide Tiled, Headed, HeaderOf, Live, Untouched;
      ghost var was := mem[..];
      HeaderGives(total, was, cs, i);
      HeaderGives(total, was, cs, i + 1);
      FreeIsNotLive(total, cs, i);
      MergeKeepsLive(total, cs, i);
      ghost var h, n := HeaderAt(was, block), HeaderAt(was, next);
      MergeWritten(total, was, cs, i, h.(size := h.size + HEADER + n.size, next := n.next));
      mem[block / ALIGN] := Number(mem[block / ALIGN].n + HEADER + mem[next / ALIGN].n);
      mem[block / ALIGN + 2] := mem[next / ALIGN + 2];
      assert mem[..] == Written(was, block, h.(size := h.size + HEADER + n.size, next := n.next));
      WriteInside(total, cs, i, Live(cs), was, mem[..]);
    }

    /** Swallow every free block that follows `block`. */
    method CoalesceForward(block: nat, ghost i: nat, ghost start: Blocks)
      requires Tiled(total, start) && Holds(start) && i < |start| && start[i].start == block && start[i].kind.Free?
      modifies mem
      ensures Holds(Forward(start, i)) && Tiled(total, Forward(start, i)) && Live(Forward(start, i)) == Live(start)
      ensures Forward(start, i)[i].start == block && Forward(start, i)[i].kind.Free?
      ensures Untouched(Live(start), old(mem[..]), mem[..])
    {
      hide Tiled, Headed, HeaderOf, Live, Untouched, Holds;
      ghost var cs := start;
      UntouchedSelf(Live(start), mem[..]);
      HeadersOf(cs, i);
      while mem[block / ALIGN + 2].a != NULL && mem[mem[block / ALIGN + 2].a / ALIGN + 1].isFree
        invariant i < |cs| && cs[i].start == block && cs[i].kind.Free?
        invariant Holds(cs) && Tiled(total, cs) && Live(cs) == Live(start)
        invariant Forward(cs, i) == Forward(start, i)
        invariant HasHeader(mem[..], block) && HeaderAt(mem[..], block).next == NextOf(cs, i)
        invariant i + 1 < |cs| ==> HasHeader(mem[..], cs[i + 1].start)
                                   && HeaderAt(mem[..], cs[i + 1].start).isFree == cs[i + 1].kind.Free?
        invariant Untouched(Live(start), old(mem[..]), mem[..])
        decreases |cs|
      {
        ghost var was := mem[..];
        Swallow(block, mem[block / ALIGN + 2].a, i, cs);
        UntouchedThen(Live(start), old(mem[..]), was, mem[..]);
        cs := MergeAt(cs, i);
        HeadersOf(cs, i);
      }
    }

    /** Give back the block whose payload starts at `ptr`; null does nothing. */
    method Free(ptr: int)
      requires Valid() && (ptr != NULL ==> ptr >= HEADER && FirstFitLaws.UsedAt(bs, ptr - HEADER, 0) < |bs|)
      modifies this, mem
      ensures Valid() && heapStart == old(heapStart)
      ensures bs == if ptr == NULL then old(bs) else Release(old(bs), FirstFitLaws.UsedAt(old(bs), ptr - HEADER, 0))
      ensures Untouched(Live(bs), old(mem[..]), mem[..])
    {
      hide Tiled, Merged, Headed, HeaderOf, Live, Untouched, FirstFitLaws.UsedAt, Forward;
      UntouchedSelf(Live(bs), mem[..]);
      if ptr == NULL {
        return;
      }
      var block := ptr - HEADER;
      ghost var i := FirstFitLaws.UsedAt(bs, block, 0);
      ghost var live := Live(bs) - {block};
      ghost var freed, cs := Freed(bs, i), Forward(Freed(bs, i), i);
      ReleaseLaws(total, bs, i);
      FreedLive(total, bs, i);
      MarkFree(block, i);
      ghost var mem1 := mem[..];
      CoalesceForward(block, i, freed);
      ghost var mem2 := mem[..];
      UntouchedThen(live, old(mem[..]), mem1, mem2);
      CoalesceBackward(block, i, cs);
      UntouchedThen(live, old(mem[..]), mem2, mem[..]);
      bs := Backward(cs, i);
    }

    method MarkFree(block: nat, ghost i: nat)
      requires heapStart == 0 && Tiled(total, bs) && Holds(bs) && i < |bs| && bs[i].start == block && bs[i].kind.Used?
      modifies mem
      ensures Holds(Freed(bs, i)) && Untouched(Live(bs) - {block}, old(mem[..]), mem[..])
    {
      hide Tiled, Headed, HeaderOf, Live, Untouched;
      ghost var was := mem[..];
      HeaderGives(total, was, bs, i);
      InHeap(total, bs, i);
      ghost var h := HeaderAt(was, block);
      KindWritten(total, was, bs, i, Kind.Free, h.(isFree := true));
      mem[block / ALIGN + 1] := mem[block / ALIGN + 1].(isFree := true);
      assert mem[..] == Written(was, block, h.(isFree := true));
      WriteInside(total, bs, i, Live(bs) - {block}, was, mem[..]);
    }

    /** Let the block before `block` swallow it, if that is free. */
    method CoalesceBackward(block: nat, ghost i: nat, ghost cs: Blocks)
      requires heapStart == 0 && Tiled(total, cs) && Holds(cs) && i < |cs| && cs[i].start == block && cs[i].kind.Free?
      modifies mem
      ensures Holds(Backward(cs, i)) && Untouched(Live(cs), old(mem[..]), mem[..])
    {
      hide Tiled, Headed, HeaderOf, Live, Untouched;
      UntouchedSelf(Live(cs), mem[..]);
      var prev := Before(block, i, cs);
      if prev != NULL {
        HeaderGives(total, mem[..], cs, i - 1);
        if mem[prev / ALIGN + 1].isFree {
          Swallow(prev, block, i - 1, cs);
        }
      }
    }

    /** Walk the list and add up the blocks, headers included, by use; nothing is reported before set-up. */
    method Status() returns (all: nat, free: nat, used: nat, usedKernel: nat, count: nat)
      requires Valid()
      ensures heapStart != NULL ==>
                && all == total && all == free + used + usedKernel && count == |Allocator.UserPayloads(Regions())|
                && free == FirstFitLaws.Bytes(bs, |bs|, FirstFitLaws.Unused)
                && used == FirstFitLaws.Bytes(bs, |bs|, FirstFitLaws.ByUser)
                && usedKernel == FirstFitLaws.Bytes(bs, |bs|, FirstFitLaws.ByKernel)
    {
      hide Tiled, Merged, Headed, HeaderOf, Live, FirstFitLaws.Payloads;
      all, free, used, usedKernel, count := 0, 0, 0, 0, 0;
      if heapStart == NULL {
        return;
      }
      var block := heapStart;
      ghost var i := 0;
      HasFirst(total, bs);
      while block != NULL
        invariant i <= |bs| && block == (if i < |bs| then bs[i].start else NULL)
        invariant all == free + used + usedKernel && count == FirstFitLaws.UserBlocks(bs, i)
        invariant free == FirstFitLaws.Bytes(bs, i, FirstFitLaws.Unused)
        invariant used == FirstFitLaws.Bytes(bs, i, FirstFitLaws.ByUser)
        invariant usedKernel == FirstFitLaws.Bytes(bs, i, FirstFitLaws.ByKernel)
        decreases |bs| - i
      {
        HeaderGives(total, mem[..], bs, i);
        var size := mem[block / ALIGN].n + HEADER;
        all := all + size;
        if mem[block / ALIGN + 1].isFree {
          free := free + size;
        } else if mem[block / ALIGN + 1].isKernel {
          usedKernel := usedKernel + size;
        } else {
          used := used + size;
          count := count + 1;
        }
        block, i := mem[block / ALIGN + 2].a, i + 1;
      }
      FirstFitLaws.EveryByteCounted(total, bs, |bs|);
      FirstFitLaws.UserBlocksAreUserPayloads(total, bs, |bs|);
      assert bs[..|bs|] == bs;
    }

    /** What the headers of block i and of the next one hold. */
    lemma HeadersOf(cs: Blocks, i: nat)
      requires Tiled(total, cs) && Holds(cs) && i < |cs|
      ensures HasHeader(mem[..], cs[i].start) && HeaderAt(mem[..], cs[i].start).next == NextOf(cs, i)
      ensures i + 1 < |cs| ==>
                HasHeader(mem[..], cs[i + 1].start) && HeaderAt(mem[..], cs[i + 1].start).isFree == cs[i + 1].kind.Free?
    {
      HeaderGives(total, mem[..], cs, i);
      if i + 1 < |cs| { HeaderGives(total, mem[..], cs, i + 1); }
    }
  }

  lemma HeaderGives(total: nat, mem: seq<Word>, bs: Blocks, i: nat)
    requires Headed(mem, bs) && i < |bs|
    ensures HeaderOf(mem, bs, i)
    ensures HasHeader(mem, bs[i].start)
    ensures var h := HeaderAt(mem, bs[i].start);
            && h.size == bs[i].size && h.isFree == bs[i].kind.Free? && h.next == NextOf(bs, i)
            && (bs[i].kind.Used? ==> h.isKernel == bs[i].kind.kernel)
  {
  }

  lemma HasFirst(total: nat, bs: Blocks)
    requires Tiled(total, bs)
    ensures bs != [] && bs[0].start == 0
  {
  }

  lemma UntouchedSelf(live: map<nat, Block>, mem: seq<Word>)
    ensures Untouched(live, mem, mem)
  {
  }

  lemma RoundUpIs(size: nat)
    ensures (size + ALIGN - 1) / ALIGN * ALIGN == RoundUp(size) && RoundUp(size) % ALIGN == 0 && (size > 0 ==> RoundUp(size) > 0)
  {
    RoundUpIsLeast(size);
  }

  lemma FreeIsNotLive(total: nat, bs: Blocks, i: nat)
    requires Tiled(total, bs) && i < |bs| && bs[i].kind.Free?
    ensures forall s <- Live(bs) :: s != bs[i].start
  {
    forall s <- Live(bs) ensures s != bs[i].start {
      var k := LiveIsBlock(total, bs, s);
      if k < i { InOrder(total, bs, k, i); } else { InOrder(total, bs, i, k); }
    }
  }

  /** Block k's next is block i just when i follows k. */
  lemma NextFound(total: nat, bs: Blocks, i: nat, k: nat)
    requires Tiled(total, bs) && i < |bs| && k < |bs|
    ensures NextOf(bs, k) == bs[i].start <==> k + 1 == i
  {
    if k + 1 < |bs| && k + 1 != i {
      if k + 1 < i { InOrder(total, bs, k + 1, i); } else { InOrder(total, bs, i, k + 1); }
    }
  }

  lemma ValidIsTiled(total: nat, bs: Blocks, i: nat, need: nat, kernel: bool)
    requires FirstFitSpec.Valid(total, bs) && i < |bs| && bs[i].kind.Free? && bs[i].size >= need
    requires FirstFitSpec.Valid(total, Carve(bs, i, need, kernel))
    ensures Tiled(total, bs) && Tiled(total, Carve(bs, i, need, kernel))
  {
  }
}
