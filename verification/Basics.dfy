/** What several parts of the kernel share: the size of its tables, optional values, names cut to size, and queues
    without repetition. */
module Basics {
  const MAX_PROCESSES := 64

  datatype Option<T> = None | Some(value: T)

  /** What fits of a name in `size` characters, the last of which ends it. */
  function Stored(name: string, size: nat): (r: string)
    requires size > 0
    ensures |r| < size && (|name| < size ==> r == name)
  {
    if |name| < size then name else name[..size - 1]
  }

  predicate Distinct(q: seq<nat>) {
    forall i, j :: 0 <= i < j < |q| ==> q[i] != q[j]
  }

  function Elements(q: seq<nat>): set<nat> {
    set x | x in q
  }

  lemma {:induction false} DistinctSize(q: seq<nat>)
    requires Distinct(q)
    ensures |Elements(q)| == |q|
  {
    if q != [] {
      var r := q[..|q| - 1];
      assert q == r + [q[|q| - 1]];
      DistinctSize(r);
      assert Elements(q) == Elements(r) + {q[|q| - 1]};
    }
  }

  lemma SubsetSize(a: set<nat>, b: set<nat>)
    requires a <= b
    ensures |a| <= |b|
  {
    assert b == a + (b - a);
  }
}
