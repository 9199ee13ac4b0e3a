/** Walking round a ring of n places: circular buffers, circular queues, and the rounds of the scheduler. */
module Ring {

  /** The place reached from `start` in `k` steps. */
  function Ahead(start: nat, k: nat, n: nat): (r: nat)
    requires n > 0
    ensures r < n
  {
    (start + k) % n
  }

  lemma WrapOnce(x: nat, n: nat)
    requires 0 < n && x < 2 * n
    ensures x % n == if x < n then x else x - n
  {
    if x >= n {
      assert x == n + (x - n);
      assert x / n == 1;
    }
  }

  lemma AheadIs(start: nat, k: nat, n: nat)
    requires start < n && k <= n
    ensures Ahead(start, k, n) == if start + k < n then start + k else start + k - n
  {
    WrapOnce(start + k, n);
  }

  /** One step more, at either end. */
  lemma AheadNext(start: nat, k: nat, n: nat)
    requires start < n && k < n
    ensures (Ahead(start, k, n) + 1) % n == Ahead(start, k + 1, n) && Ahead(start, 0, n) == start
    ensures Ahead((start + 1) % n, k, n) == Ahead(start, k + 1, n)
  {
    AheadIs(start, 0, n);
    AheadIs(start, k, n);
    AheadIs(start, k + 1, n);
    WrapOnce(start + 1, n);
    WrapOnce(Ahead(start, k, n) + 1, n);
    AheadIs((start + 1) % n, k, n);
  }

  lemma AheadDiffers(start: nat, j: nat, k: nat, n: nat)
    requires start < n && j < k < n
    ensures Ahead(start, j, n) != Ahead(start, k, n)
  {
    AheadIs(start, j, n);
    AheadIs(start, k, n);
  }
}
