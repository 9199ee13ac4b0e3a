/** The interface both memory managers implement, as relations between sets of live payloads. */
module Allocator {

  /** A payload handed out: its address and bytes, and whether the kernel asked for it. */
  datatype Region = Region(base: nat, size: nat, kernel: bool)

  /** Live payloads by the address of their block. */
  type Regions = map<nat, Region>

  /** Payloads lie inside the heap, after the start of their block, and no two share a byte. */
  ghost predicate Sound(total: nat, live: Regions) {
    && (forall b <- live :: b < live[b].base && 0 < live[b].size && live[b].base + live[b].size <= total)
    && (forall a <- live, b <- live :: a < b ==> live[a].base + live[a].size <= b)
  }

  /** A request for `size` bytes gave a fresh payload, in the block at `b`, and touched no other. */
  ghost predicate Granted(before: Regions, after: Regions, size: nat, kernel: bool, b: nat) {
    && b !in before && b in after && after[b].size >= size && after[b].kernel == kernel
    && after == before[b := after[b]]
  }

  /** The payload in the block at `b` was given back, and no other. */
  ghost predicate Released(before: Regions, after: Regions, b: nat) {
    b in before && after == before - {b}
  }

  /** The payloads user programs hold; mm_status reports how many. */
  function UserPayloads(live: Regions): set<nat> {
    set b | b in live && !live[b].kernel
  }

  lemma UserCountGranted(before: Regions, b: nat, r: Region)
    requires b !in before
    ensures |UserPayloads(before[b := r])| == |UserPayloads(before)| + (if r.kernel then 0 else 1)
  {
    var users := UserPayloads(before);
    assert UserPayloads(before[b := r]) == if r.kernel then users else users + {b};
  }

  lemma UserCountReleased(before: Regions, b: nat)
    requires b in before
    ensures |UserPayloads(before - {b})| == |UserPayloads(before)| - (if before[b].kernel then 0 else 1)
  {
    var users := UserPayloads(before - {b});
    assert UserPayloads(before) == if before[b].kernel then users else users + {b};
  }
}
