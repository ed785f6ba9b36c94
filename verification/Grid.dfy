/** Row-major indexing and the strided cooperative loads that the GPU kernels share. */
module Grid {
  import opened DistinctSeqs

  /** The flat position of row i, column j in a row-major matrix with n columns. */
  function At(i: int, j: int, n: int): int { i * n + j }

  lemma AtBounds(i: int, j: int, m: int, n: int)
    requires 0 <= i < m && 0 <= j < n
    ensures 0 <= At(i, j, n) < m * n
  {
    assert (i + 1) * n <= m * n;
    assert (i + 1) * n == i * n + n;
    assert 0 <= i * n;
  }

  lemma Distribute(a: int, b: int, n: int)
    ensures (a + b) * n == a * n + b * n
  {
  }

  lemma {:induction false} AtLeastOnce(d: int, n: int)
    requires 1 <= d && 0 <= n
    ensures d * n >= n
  {
    if d > 1 {
      AtLeastOnce(d - 1, n);
      Distribute(d - 1, 1, n);
    }
  }

  lemma RowGap(i: int, k: int, n: int)
    requires i < k && 0 <= n
    ensures i * n + n <= k * n
  {
    Distribute(i, k - i, n);
    AtLeastOnce(k - i, n);
  }

  lemma AtInjective(i: int, j: int, i': int, j': int, n: int)
    requires 0 <= j < n && 0 <= j' < n && At(i, j, n) == At(i', j', n)
    ensures i == i' && j == j'
  {
    if i < i' { RowGap(i, i', n); }
    if i' < i { RowGap(i', i, n); }
  }

  /** Quotient and remainder undo the flattening. */
  lemma AtSplits(i: int, j: int, n: int)
    requires 0 <= j < n && 0 <= i
    ensures At(i, j, n) / n == i && At(i, j, n) % n == j
  {
    var x := At(i, j, n);
    assert x == At(x / n, x % n, n);
    AtInjective(x / n, x % n, i, j, n);
  }

  lemma SplitBounds(x: int, m: int, n: int)
    requires 0 <= x < m * n && 0 < n
    ensures 0 <= x / n < m && 0 <= x % n < n && At(x / n, x % n, n) == x
  {
    if x / n > m { RowGap(m, x / n, n); }
  }

  /** Two cells of one thread closer than the stride are the same cell. */
  lemma StrideGap(a: int, b: int, n: int)
    requires 0 <= a <= b < a + n && a % n == b % n
    ensures a == b
  {
    assert a == At(a / n, a % n, n) && b == At(b / n, b % n, n);
    if a / n < b / n { RowGap(a / n, b / n, n); }
    if b / n < a / n { RowGap(b / n, a / n, n); }
  }

  lemma StrideStep(a: int, n: int)
    requires 0 < n && 0 <= a
    ensures (a + n) % n == a % n
  {
    var x := a + n;
    assert x == At(a / n + 1, a % n, n);
    AtSplits(a / n + 1, a % n, n);
  }

  ghost predicate Once(writes: seq<int>, n: nat) {
    && |writes| == n
    && (forall c :: 0 <= c < n ==> c in writes)
    && (forall i, j :: 0 <= i < j < |writes| ==> writes[i] != writes[j])
  }

  /** Where the strided loops of the threads stand: thread t has written its cells below next[t]. */
  ghost predicate Striding(next: seq<int>, writes: seq<int>, n: nat, threads: nat) {
    && threads > 0 && |next| == threads
    && (forall t :: 0 <= t < threads ==> 0 <= next[t] && next[t] % threads == t)
    && (forall c :: c in writes <==> 0 <= c < n && c < next[c % threads])
    && (forall i, j :: 0 <= i < j < |writes| ==> writes[i] != writes[j])
  }

  lemma StridingStep(next: seq<int>, writes: seq<int>, n: nat, threads: nat, t: nat)
    requires Striding(next, writes, n, threads) && t < threads && next[t] < n
    ensures 0 <= next[t] && next[t] !in writes && |writes| < n
    ensures forall c :: c in writes ==> 0 <= c < n
    ensures Striding(next[t := next[t] + threads], writes + [next[t]], n, threads)
  {
    var c := next[t];
    StrideStep(c, threads);
    var next', writes' := next[t := c + threads], writes + [c];
    forall d ensures d in writes' <==> 0 <= d < n && d < next'[d % threads] {
      if 0 <= d < n && d % threads == t && c <= d < c + threads { StrideGap(c, d, threads); }
    }
    assert forall i :: 0 <= i < |writes| ==> writes'[i] == writes[i] && writes[i] in writes;
    DistinctBelow(writes', n);
  }

  lemma StridingStart(next: seq<int>, n: nat, threads: nat)
    requires threads > 0 && |next| == threads && forall t :: 0 <= t < threads ==> next[t] == t
    ensures Striding(next, [], n, threads)
  {
    forall t | 0 <= t < threads ensures t % threads == t { AtSplits(0, t, threads); }
    forall c | 0 <= c < n ensures c >= next[c % threads] {
      SplitLow(c, threads);
    }
  }

  lemma SplitLow(c: int, n: int)
    requires 0 <= c && 0 < n
    ensures 0 <= c % n < n && c % n <= c
  {
    assert c == At(c / n, c % n, n);
    assert c / n >= 0;
    if c / n > 0 { RowGap(0, c / n, n); }
  }

  lemma StridingEnd(next: seq<int>, writes: seq<int>, n: nat, threads: nat)
    requires Striding(next, writes, n, threads) && forall t :: 0 <= t < threads ==> next[t] >= n
    ensures Once(writes, n)
  {
    forall c | 0 <= c < n ensures c in writes { SplitLow(c, threads); }
    DistinctBelow(writes, n);
  }

  /**
   All threads of a block fill a shared array together: thread t writes cells t, t + threads,
   t + 2 * threads and so on.  The threads advance in any interleaving; every cell is written exactly
   once and ends up with its value.
   */
  method CooperativeFill<T>(dst: array<T>, threads: nat, src: int -> T) returns (ghost writes: seq<int>)
    requires threads > 0
    modifies dst
    ensures forall c :: 0 <= c < dst.Length ==> dst[c] == src(c)
    ensures Once(writes, dst.Length)
  {
    hide Striding;
    var next := seq(threads, t => t);
    writes := [];
    StridingStart(next, dst.Length, threads);
    while exists t :: 0 <= t < threads && next[t] < dst.Length
      invariant |next| == threads && Striding(next, writes, dst.Length, threads)
      invariant forall c :: 0 <= c < dst.Length && c in writes ==> dst[c] == src(c)
      decreases dst.Length - |writes|
    {
      var t :| 0 <= t < threads && next[t] < dst.Length;
      StridingStep(next, writes, dst.Length, threads, t);
      ghost var writes' := writes + [next[t]];
      assert forall c :: c in writes' <==> c in writes || c == next[t];
      dst[next[t]] := src(next[t]);
      writes := writes';
      next := next[t := next[t] + threads];
    }
    StridingEnd(next, writes, dst.Length, threads);
  }
}
