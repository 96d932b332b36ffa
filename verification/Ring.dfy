/** Ring buffers indexed by unsigned 32-bit counters that wrap, as in pipe.c and console.c.  The
    positions of a stream are unbounded; a counter holds a position modulo 2^32. */
module Ring {
  import opened Machine

  function Wrap(k: int): int { k % UINT }

  lemma DivMod(a: int, m: int)
    requires m > 0
    ensures a == a / m * m + a % m
  {
  }

  lemma SmallMultiple(d: int, n: int)
    requires -n < d * n < n
    ensures d == 0
  {
    assert d >= 1 ==> d * n == n + (d - 1) * n >= n;
    assert d <= -1 ==> d * n == -n + (d + 1) * n <= -n;
  }

  lemma ModUnique(a: int, q: int, r: int, m: int)
    requires m > 0 && 0 <= r < m && a == q * m + r
    ensures a % m == r
  {
    var d := q - a / m;
    DivMod(a, m);
    assert d * m == q * m - a / m * m == a % m - r;
    SmallMultiple(d, m);
  }

  /** Two counters agree exactly when their positions do, if these are less than 2^32 apart. */
  lemma SameCounter(a: int, b: int)
    requires 0 <= b - a < UINT
    ensures Wrap(a) == Wrap(b) <==> a == b
    ensures Wrap(b - a) == Wrap(Wrap(b) - Wrap(a)) == b - a
    ensures Wrap(Wrap(a) + 1) == Wrap(a + 1) && Wrap(Wrap(b) - 1) == Wrap(b - 1)
  {
  }

  /** The test for a full ring of n slots, on wrapped counters. */
  lemma FullCounter(a: int, b: int, n: int)
    requires 0 <= b - a <= n < UINT
    ensures Wrap(b) == Wrap(Wrap(a) + n) <==> b - a == n
  {
    assert Wrap(Wrap(a) + n) == Wrap(a + n);
    SameCounter(b, a + n);
  }

  /** A counter names the same slot as its position, because the ring's size divides 2^32. */
  lemma SameSlot(k: int, n: int, q: int)
    requires n > 0 && UINT == q * n
    ensures Wrap(k) % n == k % n
  {
    var h := k / UINT;
    DivMod(Wrap(k), n);
    calc {
      k;
      h * UINT + Wrap(k);
      h * (q * n) + (Wrap(k) / n * n + Wrap(k) % n);
      { assert h * (q * n) == (h * q) * n; }
      (h * q + Wrap(k) / n) * n + Wrap(k) % n;
    }
    ModUnique(k, h * q + Wrap(k) / n, Wrap(k) % n, n);
  }

  /** Positions less than one ring apart never share a slot. */
  lemma SlotsApart(a: int, b: int, n: int)
    requires n > 0 && 0 < b - a < n
    ensures a % n != b % n
  {
    var d, e := b / n - a / n, b % n - a % n;
    DivMod(a, n);
    DivMod(b, n);
    assert d * n == b / n * n - a / n * n == b - a - e;
    if e == 0 { SmallMultiple(d, n); }
  }

  /** The ring holds positions lo up to hi of the stream. */
  ghost predicate Holds<T>(ring: seq<T>, lo: int, hi: int, stream: seq<T>) {
    && |ring| > 0 && 0 <= lo <= hi <= |stream| && hi - lo <= |ring|
    && forall k :: lo <= k < hi ==> ring[k % |ring|] == stream[k]
  }

  /** Storing the next position when the ring is not full keeps everything pending. */
  lemma Store<T>(ring: seq<T>, lo: int, stream: seq<T>, c: T)
    requires Holds(ring, lo, |stream|, stream) && |stream| - lo < |ring|
    ensures Holds(ring[|stream| % |ring| := c], lo, |stream| + 1, stream + [c])
  {
    var n, hi := |ring|, |stream|;
    forall k | lo <= k < hi + 1 ensures ring[hi % n := c][k % n] == (stream + [c])[k] {
      if k < hi { SlotsApart(k, hi, n); }
    }
  }
}
