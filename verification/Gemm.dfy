/**
 The tiled FP32 kernel against the naive triple loop, for an arbitrary element type whose addition and
 multiplication need satisfy nothing but x + 0 * 0 == x: both perform the same left fold over k.
 */
module Gemm {
  import opened Grid

  datatype Arith<!T> = Arith(add: (T, T) -> T, mul: (T, T) -> T, zero: T)

  /** The only law used: padding contributes nothing. */
  ghost predicate PadNeutral<T(!new)>(ar: Arith<T>) {
    forall x :: ar.add(x, ar.mul(ar.zero, ar.zero)) == x
  }

  /** A is M x K, B is K x N, both row-major. */
  datatype Problem<T> = Problem(a: seq<T>, b: seq<T>, m: nat, n: nat, k: nat)

  predicate Shaped<T>(p: Problem<T>) {
    |p.a| == p.m * p.k && |p.b| == p.k * p.n
  }

  /** The left fold of the first `upto` products of a row and a column. */
  function Dot<T>(ar: Arith<T>, p: Problem<T>, i: nat, j: nat, upto: nat): T
    requires Shaped(p) && i < p.m && j < p.n && upto <= p.k
  {
    if upto == 0 then ar.zero
    else
      AtBounds(i, upto - 1, p.m, p.k); AtBounds(upto - 1, j, p.k, p.n);
      ar.add(Dot(ar, p, i, j, upto - 1), ar.mul(p.a[At(i, upto - 1, p.k)], p.b[At(upto - 1, j, p.n)]))
  }

  /** Tile sizes and the position of a block in the launch grid. */
  datatype Tile = Tile(bm: nat, bn: nat, bk: nat)

  predicate Positive(t: Tile) { t.bm > 0 && t.bn > 0 && t.bk > 0 }

  /** What the cooperative load puts into cell c of sA, respectively sB, for the slab starting at kb. */
  function LoadA<T>(ar: Arith<T>, p: Problem<T>, t: Tile, blockY: nat, kb: nat, c: int): T
    requires Shaped(p) && t.bk > 0
  {
    var row, col := blockY * t.bm + c / t.bk, kb + c % t.bk;
    if 0 <= row < p.m && 0 <= col < p.k then AtBounds(row, col, p.m, p.k); p.a[At(row, col, p.k)] else ar.zero
  }

  function LoadB<T>(ar: Arith<T>, p: Problem<T>, t: Tile, blockX: nat, kb: nat, c: int): T
    requires Shaped(p) && t.bn > 0
  {
    var row, col := kb + c / t.bn, blockX * t.bn + c % t.bn;
    if 0 <= row < p.k && 0 <= col < p.n then AtBounds(row, col, p.k, p.n); p.b[At(row, col, p.n)] else ar.zero
  }

  function Min(a: nat, b: nat): nat { if a < b then a else b }

  /** One product of the inner loop, from shared memory: a real product, or padding past K. */
  lemma SharedProduct<T>(ar: Arith<T>, p: Problem<T>, t: Tile, blockY: nat, blockX: nat, kb: nat, ty: nat, tx: nat,
                         k: nat)
    requires Shaped(p) && Positive(t) && ty < t.bm && tx < t.bn && k < t.bk
    requires blockY * t.bm + ty < p.m && blockX * t.bn + tx < p.n
    ensures var x, y := LoadA(ar, p, t, blockY, kb, At(ty, k, t.bk)), LoadB(ar, p, t, blockX, kb, At(k, tx, t.bn));
            var i, j := blockY * t.bm + ty, blockX * t.bn + tx;
            if kb + k < p.k then
              && 0 <= At(i, kb + k, p.k) < |p.a| && 0 <= At(kb + k, j, p.n) < |p.b|
              && x == p.a[At(i, kb + k, p.k)] && y == p.b[At(kb + k, j, p.n)]
            else x == ar.zero && y == ar.zero
  {
    AtSplits(ty, k, t.bk);
    AtSplits(k, tx, t.bn);
    if kb + k < p.k {
      AtBounds(blockY * t.bm + ty, kb + k, p.m, p.k);
      AtBounds(kb + k, blockX * t.bn + tx, p.k, p.n);
    }
  }

  /** The inner k loop of one thread over the slab in shared memory. */
  method Accumulate<T(!new)>(ar: Arith<T>, ghost p: Problem<T>, t: Tile, ghost blockY: nat, ghost blockX: nat,
                             ghost kb: nat, ty: nat, tx: nat, sA: array<T>, sB: array<T>, acc0: T)
    returns (acc: T)
    requires PadNeutral(ar) && Shaped(p) && Positive(t) && ty < t.bm && tx < t.bn
    requires sA.Length == t.bm * t.bk && sB.Length == t.bk * t.bn
    requires forall c :: 0 <= c < sA.Length ==> sA[c] == LoadA(ar, p, t, blockY, kb, c)
    requires forall c :: 0 <= c < sB.Length ==> sB[c] == LoadB(ar, p, t, blockX, kb, c)
    requires var i, j := blockY * t.bm + ty, blockX * t.bn + tx;
             i < p.m && j < p.n ==> acc0 == Dot(ar, p, i, j, Min(kb, p.k))
    ensures var i, j := blockY * t.bm + ty, blockX * t.bn + tx;
            i < p.m && j < p.n ==> acc == Dot(ar, p, i, j, Min(kb + t.bk, p.k))
  {
    hide At, LoadA, LoadB;
    acc := acc0;
    ghost var i, j := blockY * t.bm + ty, blockX * t.bn + tx;
    for k := 0 to t.bk
      invariant i < p.m && j < p.n ==> acc == Dot(ar, p, i, j, Min(kb + k, p.k))
    {
      AtBounds(ty, k, t.bm, t.bk);
      AtBounds(k, tx, t.bk, t.bn);
      if i < p.m && j < p.n { SharedProduct(ar, p, t, blockY, blockX, kb, ty, tx, k); }
      acc := ar.add(acc, ar.mul(sA[At(ty, k, t.bk)], sB[At(k, tx, t.bn)]));
    }
  }

  /** The accumulator of thread `tid` holds the fold up to kb, if its cell lies inside C. */
  ghost predicate AccOk<T>(ar: Arith<T>, p: Problem<T>, t: Tile, blockY: nat, blockX: nat, tid: int, acc: T, kb: nat)
    requires Shaped(p) && t.bn > 0
  {
    var i, j := blockY * t.bm + tid / t.bn, blockX * t.bn + tid % t.bn;
    0 <= i < p.m && 0 <= j < p.n ==> acc == Dot(ar, p, i, j, Min(kb, p.k))
  }

  /** The compute phase: every thread reads shared memory and writes only its own accumulator. */
  method ComputePhase<T(!new)>(ar: Arith<T>, ghost p: Problem<T>, t: Tile, ghost blockY: nat, ghost blockX: nat,
                               ghost kb: nat, sA: array<T>, sB: array<T>, acc: array<T>)
    requires PadNeutral(ar) && Shaped(p) && Positive(t) && acc != sA && acc != sB
    requires acc.Length == t.bm * t.bn && sA.Length == t.bm * t.bk && sB.Length == t.bk * t.bn
    requires forall c :: 0 <= c < sA.Length ==> sA[c] == LoadA(ar, p, t, blockY, kb, c)
    requires forall c :: 0 <= c < sB.Length ==> sB[c] == LoadB(ar, p, t, blockX, kb, c)
    requires forall c :: 0 <= c < acc.Length ==> AccOk(ar, p, t, blockY, blockX, c, acc[c], kb)
    modifies acc
    ensures forall c :: 0 <= c < acc.Length ==> AccOk(ar, p, t, blockY, blockX, c, acc[c], kb + t.bk)
  {
    hide LoadA, LoadB, Dot, PadNeutral, At;
    for tid := 0 to acc.Length
      invariant forall c :: 0 <= c < tid ==> AccOk(ar, p, t, blockY, blockX, c, acc[c], kb + t.bk)
      invariant forall c :: tid <= c < acc.Length ==> acc[c] == old(acc[c])
    {
      SplitBounds(tid, t.bm, t.bn);
      acc[tid] := Accumulate(ar, p, t, blockY, blockX, kb, tid / t.bn, tid % t.bn, sA, sB, acc[tid]);
    }
  }

  ghost predicate InBlock(t: Tile, blockY: nat, blockX: nat, i: int, j: int) {
    blockY * t.bm <= i < blockY * t.bm + t.bm && blockX * t.bn <= j < blockX * t.bn + t.bn
  }

  /** The thread of a block that computes cell (i, j). */
  function ThreadOf(t: Tile, blockY: nat, blockX: nat, i: int, j: int): int {
    At(i - blockY * t.bm, j - blockX * t.bn, t.bn)
  }

  lemma ThreadCell(t: Tile, blockY: nat, blockX: nat, tid: int)
    requires Positive(t) && 0 <= tid < t.bm * t.bn
    ensures var i, j := blockY * t.bm + tid / t.bn, blockX * t.bn + tid % t.bn;
            InBlock(t, blockY, blockX, i, j) && ThreadOf(t, blockY, blockX, i, j) == tid
  {
    SplitBounds(tid, t.bm, t.bn);
  }

  lemma CellThread(t: Tile, blockY: nat, blockX: nat, i: int, j: int)
    requires Positive(t) && InBlock(t, blockY, blockX, i, j)
    ensures var tid := ThreadOf(t, blockY, blockX, i, j);
            && 0 <= tid < t.bm * t.bn
            && i == blockY * t.bm + tid / t.bn && j == blockX * t.bn + tid % t.bn
  {
    AtBounds(i - blockY * t.bm, j - blockX * t.bn, t.bm, t.bn);
    AtSplits(i - blockY * t.bm, j - blockX * t.bn, t.bn);
  }

  /** Cell (i, j) of C has been stored by a thread below `tid`. */
  ghost predicate Stored(t: Tile, blockY: nat, blockX: nat, tid: int, i: int, j: int) {
    InBlock(t, blockY, blockX, i, j) && ThreadOf(t, blockY, blockX, i, j) < tid
  }

  /** C holds the product where `done` says so and its old contents elsewhere; `writes` counts the stores. */
  ghost predicate Partial<T>(ar: Arith<T>, p: Problem<T>, was: seq<T>, now: seq<T>, writes: multiset<int>,
                             done: (int, int) -> bool)
    requires Shaped(p) && |was| == |now| == p.m * p.n
  {
    forall i, j :: 0 <= i < p.m && 0 <= j < p.n ==> PartialCell(ar, p, was, now, writes, done(i, j), i, j)
  }

  ghost predicate PartialCell<T>(ar: Arith<T>, p: Problem<T>, was: seq<T>, now: seq<T>, writes: multiset<int>,
                                 d: bool, i: int, j: int)
    requires Shaped(p) && |was| == |now| == p.m * p.n && 0 <= i < p.m && 0 <= j < p.n
  {
    AtBounds(i, j, p.m, p.n);
    var c := At(i, j, p.n);
    now[c] == (if d then Dot(ar, p, i, j, p.k) else was[c]) && writes[c] == if d then 1 else 0
  }

  /** Storing one more cell. */
  lemma StoreOne<T>(ar: Arith<T>, p: Problem<T>, was: seq<T>, now: seq<T>, writes: multiset<int>,
                    done: (int, int) -> bool, done': (int, int) -> bool, i: int, j: int, v: T)
    requires Shaped(p) && |was| == |now| == p.m * p.n && 0 <= i < p.m && 0 <= j < p.n
    requires Partial(ar, p, was, now, writes, done) && !done(i, j) && v == Dot(ar, p, i, j, p.k)
    requires forall i', j' :: done'(i', j') <==> done(i', j') || (i' == i && j' == j)
    ensures 0 <= At(i, j, p.n) < |now|
    ensures Partial(ar, p, was, now[At(i, j, p.n) := v], writes + multiset{At(i, j, p.n)}, done')
  {
    AtBounds(i, j, p.m, p.n);
    hide At, Dot, PartialCell, Shaped;
    forall i', j' | 0 <= i' < p.m && 0 <= j' < p.n
      ensures PartialCell(ar, p, was, now[At(i, j, p.n) := v], writes + multiset{At(i, j, p.n)}, done'(i', j'), i', j')
    {
      StoreOneCell(ar, p, was, now, writes, done(i', j'), i, j, v, i', j');
    }
  }

  lemma StoreOneCell<T>(ar: Arith<T>, p: Problem<T>, was: seq<T>, now: seq<T>, writes: multiset<int>, d: bool,
                        i: int, j: int, v: T, i': int, j': int)
    requires Shaped(p) && |was| == |now| == p.m * p.n && 0 <= i < p.m && 0 <= j < p.n && 0 <= At(i, j, p.n) < |now|
    requires 0 <= i' < p.m && 0 <= j' < p.n && PartialCell(ar, p, was, now, writes, d, i', j')
    requires v == Dot(ar, p, i, j, p.k) && (i' == i && j' == j ==> !d)
    ensures PartialCell(ar, p, was, now[At(i, j, p.n) := v], writes + multiset{At(i, j, p.n)},
                        d || (i' == i && j' == j), i', j')
  {
    AtBounds(i', j', p.m, p.n);
    var c, c' := At(i, j, p.n), At(i', j', p.n);
    if c == c' { AtInjective(i', j', i, j, p.n); }
    hide At, Dot;
    assert (writes + multiset{c})[c'] == writes[c'] + if c == c' then 1 else 0;
  }

  /** The final stores of a block. */
  method StorePhase<T(!new)>(ar: Arith<T>, ghost p: Problem<T>, m: nat, n: nat, t: Tile, blockY: nat, blockX: nat,
                             acc: array<T>, cs: array<T>,
                             ghost was: seq<T>, ghost done: (int, int) -> bool, ghost writes0: multiset<int>)
    returns (ghost writes: multiset<int>)
    requires Shaped(p) && Positive(t) && acc != cs && m == p.m && n == p.n
    requires acc.Length == t.bm * t.bn && cs.Length == |was| == p.m * p.n
    requires forall c :: 0 <= c < acc.Length ==> AccOk(ar, p, t, blockY, blockX, c, acc[c], p.k)
    requires Partial(ar, p, was, cs[..], writes0, done)
    requires forall i, j :: InBlock(t, blockY, blockX, i, j) ==> !done(i, j)
    modifies cs
    ensures Partial(ar, p, was, cs[..], writes, (i, j) => done(i, j) || InBlock(t, blockY, blockX, i, j))
  {
    hide Partial, Dot, At, Shaped, InBlock, ThreadOf;
    writes := writes0;
    PartialSame(ar, p, was, cs[..], writes, done, (i, j) => done(i, j) || Stored(t, blockY, blockX, 0, i, j)) by {
      NothingStored(t, blockY, blockX);
    }
    for tid := 0 to acc.Length
      invariant Partial(ar, p, was, cs[..], writes, (i, j) => done(i, j) || Stored(t, blockY, blockX, tid, i, j))
    {
      ThreadCell(t, blockY, blockX, tid);
      StoredNext(t, blockY, blockX, tid);
      var row, col := blockY * t.bm + tid / t.bn, blockX * t.bn + tid % t.bn;
      ghost var before, after := (i, j) => done(i, j) || Stored(t, blockY, blockX, tid, i, j),
                                 (i, j) => done(i, j) || Stored(t, blockY, blockX, tid + 1, i, j);
      if row < m && col < n {
        StoreOne(ar, p, was, cs[..], writes, before, after, row, col, acc[tid]);
        ghost var next := cs[..][At(row, col, n) := acc[tid]];
        cs[At(row, col, n)] := acc[tid];
        writes := writes + multiset{At(row, col, n)};
        assert cs[..] == next;
      } else {
        PartialSame(ar, p, was, cs[..], writes, before, after);
      }
    }
    AllStored(t, blockY, blockX);
    PartialSame(ar, p, was, cs[..], writes, (i, j) => done(i, j) || Stored(t, blockY, blockX, acc.Length, i, j),
      (i, j) => done(i, j) || InBlock(t, blockY, blockX, i, j));
  }

  lemma PartialSame<T>(ar: Arith<T>, p: Problem<T>, was: seq<T>, now: seq<T>, writes: multiset<int>,
                       d: (int, int) -> bool, d': (int, int) -> bool)
    requires Shaped(p) && |was| == |now| == p.m * p.n && Partial(ar, p, was, now, writes, d)
    requires forall i, j :: 0 <= i < p.m && 0 <= j < p.n ==> d(i, j) == d'(i, j)
    ensures Partial(ar, p, was, now, writes, d')
  {
    hide PartialCell;
    forall i, j | 0 <= i < p.m && 0 <= j < p.n ensures PartialCell(ar, p, was, now, writes, d'(i, j), i, j) {
      assert PartialCell(ar, p, was, now, writes, d(i, j), i, j);
    }
  }

  lemma NothingStored(t: Tile, blockY: nat, blockX: nat)
    requires Positive(t)
    ensures forall i, j :: !Stored(t, blockY, blockX, 0, i, j)
  {
    forall i, j | InBlock(t, blockY, blockX, i, j) ensures ThreadOf(t, blockY, blockX, i, j) >= 0 {
      CellThread(t, blockY, blockX, i, j);
    }
  }

  lemma StoredNext(t: Tile, blockY: nat, blockX: nat, tid: nat)
    requires Positive(t) && tid < t.bm * t.bn
    ensures var row, col := blockY * t.bm + tid / t.bn, blockX * t.bn + tid % t.bn;
            && !Stored(t, blockY, blockX, tid, row, col)
            && forall i, j :: Stored(t, blockY, blockX, tid + 1, i, j) <==>
                 Stored(t, blockY, blockX, tid, i, j) || (i == row && j == col)
  {
    ThreadCell(t, blockY, blockX, tid);
    hide InBlock, ThreadOf;
    forall i, j | InBlock(t, blockY, blockX, i, j) && ThreadOf(t, blockY, blockX, i, j) == tid
      ensures i == blockY * t.bm + tid / t.bn && j == blockX * t.bn + tid % t.bn
    {
      CellThread(t, blockY, blockX, i, j);
    }
  }

  lemma AllStored(t: Tile, blockY: nat, blockX: nat)
    requires Positive(t)
    ensures forall i, j :: InBlock(t, blockY, blockX, i, j) <==> Stored(t, blockY, blockX, t.bm * t.bn, i, j)
  {
    forall i, j | InBlock(t, blockY, blockX, i, j) ensures ThreadOf(t, blockY, blockX, i, j) < t.bm * t.bn {
      CellThread(t, blockY, blockX, i, j);
    }
  }

  /** One thread block: load, barrier, compute, barrier, over all slabs; then store. */
  method Block<T(!new)>(ar: Arith<T>, p: Problem<T>, t: Tile, blockY: nat, blockX: nat, cs: array<T>,
                        ghost was: seq<T>, ghost done: (int, int) -> bool, ghost writes0: multiset<int>)
    returns (ghost writes: multiset<int>)
    requires PadNeutral(ar) && Shaped(p) && Positive(t) && cs.Length == |was| == p.m * p.n
    requires Partial(ar, p, was, cs[..], writes0, done)
    requires forall i, j :: InBlock(t, blockY, blockX, i, j) ==> !done(i, j)
    modifies cs
    ensures Partial(ar, p, was, cs[..], writes, (i, j) => done(i, j) || InBlock(t, blockY, blockX, i, j))
  {
    hide Partial, At, Shaped, InBlock, PadNeutral, LoadA, LoadB;
    var sA := new T[t.bm * t.bk](_ => ar.zero);
    var sB := new T[t.bk * t.bn](_ => ar.zero);
    var acc := new T[t.bm * t.bn](_ => ar.zero);
    var threads := t.bm * t.bn;
    assert threads > 0 by { AtLeastOnce(t.bm, t.bn); }
    ghost var c0 := cs[..];
    var kb := 0;
    while kb < p.k
      invariant forall c :: 0 <= c < acc.Length ==> AccOk(ar, p, t, blockY, blockX, c, acc[c], kb)
      invariant cs[..] == c0
    {
      var _ := CooperativeFill(sA, threads, c => LoadA(ar, p, t, blockY, kb, c));
      var _ := CooperativeFill(sB, threads, c => LoadB(ar, p, t, blockX, kb, c));
      ComputePhase(ar, p, t, blockY, blockX, kb, sA, sB, acc);
      kb := kb + t.bk;
    }
    writes := StorePhase(ar, p, p.m, p.n, t, blockY, blockX, acc, cs, was, done, writes0);
  }

  // ---- the launch ----

  function CeilDiv(a: nat, b: nat): nat
    requires b > 0
  {
    (a + b - 1) / b
  }

  lemma CeilDivCovers(a: nat, b: nat)
    requires b > 0
    ensures a <= CeilDiv(a, b) * b
  {
    var x := a + b - 1;
    assert x == At(x / b, x % b, b);
  }

  /** The blocks before (blockY, blockX) in row-major order have finished. */
  ghost predicate GridDone(t: Tile, blockY: nat, blockX: nat, i: int, j: int) {
    i < blockY * t.bm || (i < blockY * t.bm + t.bm && j < blockX * t.bn)
  }

  lemma GridStep(t: Tile, blockY: nat, blockX: nat)
    ensures forall i, j :: InBlock(t, blockY, blockX, i, j) ==> !GridDone(t, blockY, blockX, i, j)
    ensures forall i, j :: 0 <= i && 0 <= j ==>
              (GridDone(t, blockY, blockX + 1, i, j) <==>
                  GridDone(t, blockY, blockX, i, j) || InBlock(t, blockY, blockX, i, j))
  {
    Distribute(blockX, 1, t.bn);
  }

  lemma GridRow(t: Tile, blockY: nat, blockX: nat, n: nat)
    requires n <= blockX * t.bn
    ensures forall i, j :: 0 <= i && 0 <= j < n ==>
              (GridDone(t, blockY + 1, 0, i, j) <==> GridDone(t, blockY, blockX, i, j))
  {
    Distribute(blockY, 1, t.bm);
  }

  /** C is the product: every cell is the left fold over k. */
  ghost predicate IsProduct<T>(ar: Arith<T>, p: Problem<T>, cs: seq<T>)
    requires Shaped(p) && |cs| == p.m * p.n
  {
    forall i, j :: 0 <= i < p.m && 0 <= j < p.n ==>
        0 <= At(i, j, p.n) < |cs| && cs[At(i, j, p.n)] == Dot(ar, p, i, j, p.k)
  }

  /** Every cell of C was stored exactly once. */
  ghost predicate StoredOnce<T>(p: Problem<T>, writes: multiset<int>) {
    forall i, j :: 0 <= i < p.m && 0 <= j < p.n ==> writes[At(i, j, p.n)] == 1
  }

  lemma AllDone<T>(ar: Arith<T>, p: Problem<T>, was: seq<T>, now: seq<T>, writes: multiset<int>,
                   done: (int, int) -> bool)
    requires Shaped(p) && |was| == |now| == p.m * p.n && Partial(ar, p, was, now, writes, done)
    requires forall i, j :: 0 <= i < p.m && 0 <= j < p.n ==> done(i, j)
    ensures IsProduct(ar, p, now) && StoredOnce(p, writes)
  {
    forall i, j | 0 <= i < p.m && 0 <= j < p.n
      ensures 0 <= At(i, j, p.n) < |now| && now[At(i, j, p.n)] == Dot(ar, p, i, j, p.k) && writes[At(i, j, p.n)] == 1
    {
      AtBounds(i, j, p.m, p.n);
      assert PartialCell(ar, p, was, now, writes, done(i, j), i, j);
    }
  }

  /** The kernel over the whole grid, for any tile. */
  method LaunchTile<T(!new)>(ar: Arith<T>, p: Problem<T>, t: Tile, cs: array<T>) returns (ghost writes: multiset<int>)
    requires PadNeutral(ar) && Shaped(p) && Positive(t) && cs.Length == p.m * p.n
    modifies cs
    ensures IsProduct(ar, p, cs[..]) && StoredOnce(p, writes)
  {
    hide Dot, At, Shaped, PadNeutral, InBlock, GridDone, PartialCell, IsProduct, StoredOnce;
    ghost var was := cs[..];
    writes := multiset{};
    NothingDone(ar, p, was, t);
    var gridY, gridX := CeilDiv(p.m, t.bm), CeilDiv(p.n, t.bn);
    CeilDivCovers(p.m, t.bm);
    CeilDivCovers(p.n, t.bn);
    for blockY := 0 to gridY
      invariant Partial(ar, p, was, cs[..], writes, (i, j) => GridDone(t, blockY, 0, i, j))
    {
      for blockX := 0 to gridX
        invariant Partial(ar, p, was, cs[..], writes, (i, j) => GridDone(t, blockY, blockX, i, j))
      {
        GridStep(t, blockY, blockX);
        ghost var done := (i, j) => GridDone(t, blockY, blockX, i, j);
        writes := Block(ar, p, t, blockY, blockX, cs, was, done, writes);
        PartialSame(ar, p, was, cs[..], writes, (i, j) => done(i, j) || InBlock(t, blockY, blockX, i, j),
          (i, j) => GridDone(t, blockY, blockX + 1, i, j));
      }
      GridRow(t, blockY, gridX, p.n);
      PartialSame(ar, p, was, cs[..], writes, (i, j) => GridDone(t, blockY, gridX, i, j),
                  (i, j) => GridDone(t, blockY + 1, 0, i, j));
    }
    GridFull(t, gridY, p.m);
    AllDone(ar, p, was, cs[..], writes, (i, j) => GridDone(t, gridY, 0, i, j));
  }

  lemma NothingDone<T>(ar: Arith<T>, p: Problem<T>, was: seq<T>, t: Tile)
    requires Shaped(p) && |was| == p.m * p.n
    ensures Partial(ar, p, was, was, multiset{}, (i, j) => GridDone(t, 0, 0, i, j))
  {
    forall i, j | 0 <= i < p.m && 0 <= j < p.n
      ensures PartialCell(ar, p, was, was, multiset{}, GridDone(t, 0, 0, i, j), i, j)
    {
      AtBounds(i, j, p.m, p.n);
    }
  }

  lemma GridFull(t: Tile, gridY: nat, m: nat)
    requires m <= gridY * t.bm
    ensures forall i, j :: i < m ==> GridDone(t, gridY, 0, i, j)
  {
  }

  /** The CPU reference. */
  method Naive<T(!new)>(ar: Arith<T>, p: Problem<T>, cs: array<T>)
    requires Shaped(p) && cs.Length == p.m * p.n
    modifies cs
    ensures IsProduct(ar, p, cs[..])
  {
    hide At, Dot;
    for i := 0 to p.m
      invariant forall i', j' :: 0 <= i' < i && 0 <= j' < p.n ==> CellIs(ar, p, cs[..], i', j')
    {
      for j := 0 to p.n
        invariant forall i', j' :: 0 <= i' < i && 0 <= j' < p.n ==> CellIs(ar, p, cs[..], i', j')
        invariant forall j' :: 0 <= j' < j ==> CellIs(ar, p, cs[..], i, j')
      {
        var acc := Row(ar, p, i, j);
        AtBounds(i, j, p.m, p.n);
        ghost var before := cs[..];
        cs[At(i, j, p.n)] := acc;
        assert cs[..] == before[At(i, j, p.n) := acc];
        forall i', j' | 0 <= i' < p.m && 0 <= j' < p.n && (i' != i || j' != j) && CellIs(ar, p, before, i', j')
          ensures CellIs(ar, p, cs[..], i', j')
        {
          if At(i', j', p.n) == At(i, j, p.n) { AtInjective(i', j', i, j, p.n); }
        }
      }
    }
    forall i, j | 0 <= i < p.m && 0 <= j < p.n
      ensures 0 <= At(i, j, p.n) < cs.Length && cs[..][At(i, j, p.n)] == Dot(ar, p, i, j, p.k)
    {
      assert CellIs(ar, p, cs[..], i, j);
    }
  }

  ghost predicate CellIs<T>(ar: Arith<T>, p: Problem<T>, cs: seq<T>, i: int, j: int)
    requires Shaped(p)
  {
    0 <= i < p.m && 0 <= j < p.n && 0 <= At(i, j, p.n) < |cs| && cs[At(i, j, p.n)] == Dot(ar, p, i, j, p.k)
  }

  method Row<T>(ar: Arith<T>, p: Problem<T>, i: nat, j: nat) returns (acc: T)
    requires Shaped(p) && i < p.m && j < p.n
    ensures acc == Dot(ar, p, i, j, p.k)
  {
    acc := ar.zero;
    for k := 0 to p.k
      invariant acc == Dot(ar, p, i, j, k)
    {
      AtBounds(i, k, p.m, p.k);
      AtBounds(k, j, p.k, p.n);
      acc := ar.add(acc, ar.mul(p.a[At(i, k, p.k)], p.b[At(k, j, p.n)]));
    }
  }

  /** The dispatch table: four compiled tiles; any other configuration is an error and leaves C alone. */
  method LaunchMatmul<T(!new)>(ar: Arith<T>, p: Problem<T>, t: Tile, cs: array<T>) returns (ok: bool)
    requires PadNeutral(ar) && Shaped(p) && cs.Length == p.m * p.n
    modifies cs
    ensures ok <==> t in {Tile(16, 16, 16), Tile(32, 16, 16), Tile(32, 32, 16), Tile(32, 32, 32)}
    ensures ok ==> IsProduct(ar, p, cs[..])
    ensures !ok ==> cs[..] == old(cs[..])
  {
    hide Dot, At, Shaped, PadNeutral, IsProduct, StoredOnce;
    ok := t == Tile(16, 16, 16) || t == Tile(32, 16, 16) || t == Tile(32, 32, 16) || t == Tile(32, 32, 32);
    if ok {
      var _ := LaunchTile(ar, p, t, cs);
    }
  }

  /** The laws of zero and one that a unit vector needs. */
  ghost predicate UnitLaws<T(!new)>(ar: Arith<T>, one: T) {
    && (forall x :: ar.mul(one, x) == x && ar.mul(x, one) == x)
    && (forall x :: ar.mul(ar.zero, x) == ar.zero && ar.mul(x, ar.zero) == ar.zero)
    && forall x :: ar.add(x, ar.zero) == x && ar.add(ar.zero, x) == x
  }

  /** The entry at `at` is one if `unit`, else zero. */
  predicate UnitAt<T(==)>(ar: Arith<T>, one: T, s: seq<T>, at: int, unit: bool) {
    0 <= at < |s| && s[at] == if unit then one else ar.zero
  }

  lemma {:induction false} DotUnitRow<T(!new)>(ar: Arith<T>, p: Problem<T>, one: T, i: nat, j: nat, k0: nat, upto: nat)
    requires UnitLaws(ar, one) && Shaped(p) && i < p.m && j < p.n && k0 < p.k && upto <= p.k
    requires forall k: nat :: k < p.k ==> UnitAt(ar, one, p.a, At(i, k, p.k), k == k0)
    ensures 0 <= At(k0, j, p.n) < |p.b|
    ensures Dot(ar, p, i, j, upto) == if k0 < upto then p.b[At(k0, j, p.n)] else ar.zero
  {
    AtBounds(k0, j, p.k, p.n);
    if upto > 0 {
      DotUnitRow(ar, p, one, i, j, k0, upto - 1);
      AtBounds(upto - 1, j, p.k, p.n);
      hide At;
      assert UnitAt(ar, one, p.a, At(i, upto - 1, p.k), upto - 1 == k0);
    }
  }

  lemma {:induction false} DotUnitColumn<T(!new)>(ar: Arith<T>, p: Problem<T>, one: T, i: nat, j: nat, k0: nat,
                                                  upto: nat)
    requires UnitLaws(ar, one) && Shaped(p) && i < p.m && j < p.n && k0 < p.k && upto <= p.k
    requires forall k: nat :: k < p.k ==> UnitAt(ar, one, p.b, At(k, j, p.n), k == k0)
    ensures 0 <= At(i, k0, p.k) < |p.a|
    ensures Dot(ar, p, i, j, upto) == if k0 < upto then p.a[At(i, k0, p.k)] else ar.zero
  {
    AtBounds(i, k0, p.m, p.k);
    if upto > 0 {
      DotUnitColumn(ar, p, one, i, j, k0, upto - 1);
      AtBounds(i, upto - 1, p.m, p.k);
      hide At;
      assert UnitAt(ar, one, p.b, At(upto - 1, j, p.n), upto - 1 == k0);
    }
  }

  /**
   In a product, a row of A that is the k0-th unit vector selects row k0 of B, and a column of B that is the
   k0-th unit vector selects column k0 of A.
   */
  lemma UnitSelects<T(!new)>(ar: Arith<T>, p: Problem<T>, cs: seq<T>, one: T, i: nat, j: nat, k0: nat)
    requires UnitLaws(ar, one) && Shaped(p) && |cs| == p.m * p.n && IsProduct(ar, p, cs)
    requires i < p.m && j < p.n && k0 < p.k
    ensures 0 <= i * p.n + j < |cs| && 0 <= k0 * p.n + j < |p.b| && 0 <= i * p.k + k0 < |p.a|
    ensures (forall k: nat :: k < p.k ==> UnitAt(ar, one, p.a, At(i, k, p.k), k == k0)) ==>
              cs[i * p.n + j] == p.b[k0 * p.n + j]
    ensures (forall k: nat :: k < p.k ==> UnitAt(ar, one, p.b, At(k, j, p.n), k == k0)) ==>
              cs[i * p.n + j] == p.a[i * p.k + k0]
  {
    AtBounds(i, j, p.m, p.n);
    AtBounds(k0, j, p.k, p.n);
    AtBounds(i, k0, p.m, p.k);
    if forall k: nat :: k < p.k ==> UnitAt(ar, one, p.a, At(i, k, p.k), k == k0) {
      DotUnitRow(ar, p, one, i, j, k0, p.k);
    }
    if forall k: nat :: k < p.k ==> UnitAt(ar, one, p.b, At(k, j, p.n), k == k0) {
      DotUnitColumn(ar, p, one, i, j, k0, p.k);
    }
    hide Dot, UnitAt;
  }

  /** The product determines C, so any two tiles and the reference agree on every cell. */
  lemma ProductUnique<T>(ar: Arith<T>, p: Problem<T>, c1: seq<T>, c2: seq<T>)
    requires Shaped(p) && |c1| == |c2| == p.m * p.n && IsProduct(ar, p, c1) && IsProduct(ar, p, c2)
    ensures c1 == c2
  {
    forall x | 0 <= x < |c1| ensures c1[x] == c2[x] {
      assert p.n > 0;
      SplitBounds(x, p.m, p.n);
      assert c1[At(x / p.n, x % p.n, p.n)] == c2[At(x / p.n, x % p.n, p.n)];
    }
  }
}
