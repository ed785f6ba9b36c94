/** The FlashAttention launch: strided tensors, grouped-query heads, tile dispatch and the output layout. */
module FlashForward {
  import opened Grid
  import opened FlashAttention

  /** Q is [B, Hq, Sq, D], K and V are [B, Hkv, Skv, D], all row-major. */
  datatype Tensors = Tensors(
    q: seq<real>, k: seq<real>, v: seq<real>,
    b: nat, hq: nat, hkv: nat, sq: nat, skv: nat, dim: nat, scale: real, causal: bool)

  predicate Shaped(x: Tensors) {
    && x.hkv > 0 && x.hq % x.hkv == 0 && x.skv >= 1
    && |x.q| == x.b * x.hq * x.sq * x.dim
    && |x.k| == |x.v| == x.b * x.hkv * x.skv * x.dim
  }

  /** The address the kernel computes from its strides. */
  function Offset(b: nat, h: nat, s: nat, d: nat, heads: nat, len: nat, dim: nat): int {
    var strideB, strideH, strideS := heads * len * dim, len * dim, dim;
    b * strideB + h * strideH + s * strideS + d
  }

  lemma OffsetNested(b: nat, h: nat, s: nat, d: nat, heads: nat, len: nat, dim: nat)
    ensures Offset(b, h, s, d, heads, len, dim) == At(At(At(b, h, heads), s, len), d, dim)
  {
    var x := b * heads + h;
    Distribute(x * len, s, dim);
    Distribute(b * heads, h, len);
    Distribute(b * heads * len, h * len, dim);
    Reassociate(h, len, dim);
    Reassociate(b, heads * len, dim);
    Reassociate(b, heads, len);
  }

  lemma OffsetBounds(b: nat, h: nat, s: nat, d: nat, batch: nat, heads: nat, len: nat, dim: nat)
    requires b < batch && h < heads && s < len && d < dim
    ensures 0 <= Offset(b, h, s, d, heads, len, dim) < batch * heads * len * dim
  {
    OffsetNested(b, h, s, d, heads, len, dim);
    AtBounds(b, h, batch, heads);
    AtBounds(At(b, h, heads), s, batch * heads, len);
    AtBounds(At(At(b, h, heads), s, len), d, batch * heads * len, dim);
  }

  function Read(t: seq<real>, batch: nat, heads: nat, len: nat, dim: nat, b: int, h: int, s: int, d: int): real
    requires |t| == batch * heads * len * dim
  {
    if 0 <= b < batch && 0 <= h < heads && 0 <= s < len && 0 <= d < dim then
      OffsetBounds(b, h, s, d, batch, heads, len, dim);
      t[Offset(b, h, s, d, heads, len, dim)]
    else 0.0
  }

  /** The KV head a query head reads. */
  function KvHead(hq: nat, hkv: nat, h: nat): nat
    requires hkv > 0 && hq % hkv == 0 && h < hq
  {
    GroupPositive(hq, hkv, h);
    h / (hq / hkv)
  }

  lemma GroupPositive(hq: nat, hkv: nat, h: nat)
    requires hkv > 0 && hq % hkv == 0 && h < hq
    ensures hq / hkv > 0 && hq == hkv * (hq / hkv)
  {
    assert hq == At(hq / hkv, hq % hkv, hkv);
  }

  /** Query heads are grouped evenly: KV head g serves exactly the heads of the g-th group. */
  lemma KvHeadGroups(hq: nat, hkv: nat, h: nat)
    requires hkv > 0 && hq % hkv == 0 && h < hq
    ensures var size, g := hq / hkv, KvHead(hq, hkv, h);
            g < hkv && g * size <= h < g * size + size
  {
    GroupPositive(hq, hkv, h);
    SplitBounds(h, hkv, hq / hkv);
  }

  /** The slice block row `bh` of the launch grid works on. */
  function HeadOf(x: Tensors, bh: int): Head
    requires Shaped(x) && 0 <= bh && x.hq > 0
  {
    var b, h := bh / x.hq, bh % x.hq;
    var g := KvHead(x.hq, x.hkv, h);
    Head((s, d) => Read(x.q, x.b, x.hq, x.sq, x.dim, b, h, s, d),
         (s, d) => Read(x.k, x.b, x.hkv, x.skv, x.dim, b, g, s, d),
         (s, d) => Read(x.v, x.b, x.hkv, x.skv, x.dim, b, g, s, d),
         x.sq, x.skv, x.dim, x.scale, x.causal)
  }

  /** A slice reads its own batch, query head and key head of the row-major tensors. */
  lemma HeadReads(x: Tensors, b: nat, h: nat, s: nat, j: nat, d: nat)
    requires Shaped(x) && b < x.b && h < x.hq && s < x.sq && j < x.skv && d < x.dim
    ensures x.hq / x.hkv > 0
    ensures var head, at := HeadOf(x, At(b, h, x.hq)), At(At(At(b, h, x.hq), s, x.sq), d, x.dim);
            && 0 <= at < |x.q| && head.q(s, d) == x.q[at]
            && head.scale == x.scale && head.causal == x.causal
            && head.sq == x.sq && head.skv == x.skv && head.dim == x.dim
    ensures var head, at := HeadOf(x, At(b, h, x.hq)), At(At(At(b, h / (x.hq / x.hkv), x.hkv), j, x.skv), d, x.dim);
            0 <= at < |x.k| == |x.v| && head.k(j, d) == x.k[at] && head.v(j, d) == x.v[at]
  {
    AtSplits(b, h, x.hq);
    KvHeadGroups(x.hq, x.hkv, h);
    GroupPositive(x.hq, x.hkv, h);
    var g := h / (x.hq / x.hkv);
    OffsetNested(b, h, s, d, x.hq, x.sq, x.dim);
    OffsetBounds(b, h, s, d, x.b, x.hq, x.sq, x.dim);
    OffsetNested(b, g, j, d, x.hkv, x.skv, x.dim);
    OffsetBounds(b, g, j, d, x.b, x.hkv, x.skv, x.dim);
    hide Offset;
  }

  /** Output row r, counted over batch, head and query position, is finished. */
  ghost predicate RowDone(exp: real -> real, x: Tensors, o: seq<real>, lse: seq<real>, r: int)
    requires Shaped(x)
  {
    && x.sq > 0 && x.hq > 0 && 0 <= r < |lse| && 0 <= r * x.dim <= r * x.dim + x.dim <= |o|
    && IsAttention(exp, HeadOf(x, r / x.sq), r % x.sq, o[r * x.dim..r * x.dim + x.dim], lse[r])
  }

  /** Writes one output row and nothing else. */
  method StoreRow(dim: nat, r: nat, row: RowOut, o: array<real>, lse: array<real>)
    requires |row.o| == dim && o != lse && r < lse.Length && 0 <= r * dim <= r * dim + dim <= o.Length
    modifies o, lse
    ensures o[..] == old(o[..r * dim]) + row.o + old(o[r * dim + dim..])
    ensures lse[..] == old(lse[..r]) + [row.lse] + old(lse[r + 1..])
  {
    CopyRow(r * dim, row.o, o);
    lse[r] := row.lse;
  }

  /** Overwrites the cells from `base` on. */
  method CopyRow(base: nat, row: seq<real>, o: array<real>)
    requires base + |row| <= o.Length
    modifies o
    ensures o[..] == old(o[..base]) + row + old(o[base + |row|..])
  {
    for d := 0 to |row|
      invariant forall c :: 0 <= c < o.Length ==> o[c] == if base <= c < base + d then row[c - base] else old(o[c])
    {
      o[base + d] := row[d];
    }
  }

  /** Row `r` holds the given output. */
  ghost predicate Holds(dim: nat, o: seq<real>, lse: seq<real>, r: int, row: RowOut) {
    0 <= r < |lse| && 0 <= r * dim <= r * dim + dim <= |o| && o[r * dim..r * dim + dim] == row.o && lse[r] == row.lse
  }

  /** Outside the rows from `lo` up to `hi` nothing differs. */
  ghost predicate Apart(dim: nat, o: seq<real>, lse: seq<real>, o': seq<real>, lse': seq<real>, lo: int, hi: int) {
    && |o'| == |o| && |lse'| == |lse|
    && (forall c :: 0 <= c < |lse| && !(lo <= c < hi) ==> lse'[c] == lse[c])
    && forall c :: 0 <= c < |o| && !(lo * dim <= c < hi * dim) ==> o'[c] == o[c]
  }

  /** Stores the rows of one finished block. */
  method StoreBlock(dim: nat, first: nat, out: seq<RowOut>, o: array<real>, lse: array<real>)
    requires o != lse && first + |out| <= lse.Length && (first + |out|) * dim <= o.Length
    requires forall r :: 0 <= r < |out| ==> |out[r].o| == dim
    modifies o, lse
    ensures forall r :: 0 <= r < |out| ==> Holds(dim, o[..], lse[..], first + r, out[r])
    ensures Apart(dim, old(o[..]), old(lse[..]), o[..], lse[..], first, first + |out|)
  {
    for r := 0 to |out|
      invariant forall r' :: 0 <= r' < r ==> Holds(dim, o[..], lse[..], first + r', out[r'])
      invariant Apart(dim, old(o[..]), old(lse[..]), o[..], lse[..], first, first + r)
    {
      ghost var o1, lse1 := o[..], lse[..];
      RowGap(first + r, first + |out|, dim);
      StoreRow(dim, first + r, out[r], o, lse);
      RowStored(dim, old(o[..]), old(lse[..]), o1, lse1, o[..], lse[..], first, r, out);
    }
  }

  lemma RowStored(dim: nat, o0: seq<real>, lse0: seq<real>, o: seq<real>, lse: seq<real>, o': seq<real>,
                  lse': seq<real>, first: nat, r: nat, out: seq<RowOut>)
    requires r < |out| && |out[r].o| == dim && first + r < |lse|
    requires 0 <= (first + r) * dim <= (first + r) * dim + dim <= |o|
    requires o' == o[..(first + r) * dim] + out[r].o + o[(first + r) * dim + dim..]
    requires lse' == lse[..first + r] + [out[r].lse] + lse[first + r + 1..]
    requires Apart(dim, o0, lse0, o, lse, first, first + r)
    requires forall r' :: 0 <= r' < r ==> Holds(dim, o, lse, first + r', out[r'])
    ensures forall r' :: 0 <= r' <= r ==> Holds(dim, o', lse', first + r', out[r'])
    ensures Apart(dim, o0, lse0, o', lse', first, first + r + 1)
  {
    forall r' | 0 <= r' <= r ensures Holds(dim, o', lse', first + r', out[r']) {
      if r' < r {
        RowGap(first + r', first + r, dim);
        var lo := (first + r') * dim;
        assert Holds(dim, o, lse, first + r', out[r']);
        assert o'[lo..lo + dim] == o[lo..lo + dim];
      }
    }
    Distribute(first + r, 1, dim);
    Distribute(first, r, dim);
  }

  lemma RowPosition(x: Tensors, bh: nat, row: nat)
    requires Shaped(x) && x.sq > 0 && bh < x.b * x.hq && row < x.sq
    ensures var r := At(bh, row, x.sq);
            && 0 <= r < x.b * x.hq * x.sq && r / x.sq == bh && r % x.sq == row
            && 0 <= r * x.dim && r * x.dim + x.dim <= x.b * x.hq * x.sq * x.dim
  {
    AtBounds(bh, row, x.b * x.hq, x.sq);
    AtSplits(bh, row, x.sq);
    RowGap(At(bh, row, x.sq), x.b * x.hq * x.sq, x.dim);
  }

  /** Rows of a Q tile inside the sequence; the threads of the others return at once. */
  function LiveRows(br: nat, sq: nat, qTile: nat): nat
    requires qTile * br < sq
  {
    if sq - qTile * br < br then sq - qTile * br else br
  }

  /** The row belongs to a complete query tile. */
  predicate InWholeTile(x: Tensors, br: nat, r: int) {
    x.sq > 0 && br > 0 && r % x.sq < x.sq / br * br
  }

  /** The rows of complete query tiles among the first `n` are finished. */
  ghost predicate Done(exp: real -> real, x: Tensors, br: nat, o: seq<real>, lse: seq<real>, n: int)
    requires Shaped(x)
  {
    forall r :: 0 <= r < n && InWholeTile(x, br, r) ==> RowDone(exp, x, o, lse, r)
  }

  lemma DoneKept(exp: real -> real, x: Tensors, br: nat, o: seq<real>, lse: seq<real>, o': seq<real>, lse': seq<real>,
                 lo: int, hi: int)
    requires Shaped(x) && Done(exp, x, br, o, lse, lo) && Apart(x.dim, o, lse, o', lse', lo, hi)
    ensures Done(exp, x, br, o', lse', lo)
  {
    hide IsAttention, Shaped, HeadOf;
    forall r | 0 <= r < lo && InWholeTile(x, br, r) ensures RowDone(exp, x, o', lse', r) {
      assert RowDone(exp, x, o, lse, r);
      RowGap(r, lo, x.dim);
      var base := r * x.dim;
      assert o'[base..base + x.dim] == o[base..base + x.dim];
    }
  }

  /** A complete tile's rows are finished. */
  lemma BlockDone(exp: real -> real, x: Tensors, br: nat, bh: nat, qTile: nat, out: seq<RowOut>, o: seq<real>,
                  lse: seq<real>)
    requires Shaped(x) && bh < x.b * x.hq && x.hq > 0 && br > 0 && qTile * br + br <= x.sq && |out| == br
    requires forall r :: 0 <= r < br ==> IsAttention(exp, HeadOf(x, bh), At(qTile, r, br), out[r].o, out[r].lse)
    requires forall r :: 0 <= r < br ==> Holds(x.dim, o, lse, bh * x.sq + qTile * br + r, out[r])
    requires Done(exp, x, br, o, lse, bh * x.sq + qTile * br)
    ensures Done(exp, x, br, o, lse, bh * x.sq + qTile * br + br)
  {
    hide IsAttention, Shaped, HeadOf;
    var first := bh * x.sq + qTile * br;
    forall r | first <= r < first + br ensures RowDone(exp, x, o, lse, r) {
      RowPosition(x, bh, r - bh * x.sq);
      assert Holds(x.dim, o, lse, first + (r - first), out[r - first]);
    }
  }

  /** The rows of the last tile, if it is not complete, are not counted. */
  lemma LastSkipped(exp: real -> real, x: Tensors, br: nat, bh: nat, qTile: nat, o: seq<real>, lse: seq<real>)
    requires Shaped(x) && br > 0 && qTile * br < x.sq < qTile * br + br
    requires Done(exp, x, br, o, lse, bh * x.sq + qTile * br)
    ensures Done(exp, x, br, o, lse, bh * x.sq + x.sq)
  {
    hide RowDone, Shaped;
    AtSplits(qTile, x.sq - qTile * br, br);
    forall r | bh * x.sq + qTile * br <= r < bh * x.sq + x.sq ensures !InWholeTile(x, br, r) {
      AtSplits(bh, r - bh * x.sq, x.sq);
    }
  }

  /** What a block with missing threads computes from tiles they did not fill: anything. */
  method LastBlock(dim: nat, live: nat) returns (out: seq<RowOut>)
    ensures |out| == live && forall r :: 0 <= r < live ==> |out[r].o| == dim
  {
    out := [];
    for r := 0 to live
      invariant |out| == r && forall r' :: 0 <= r' < r ==> |out[r'].o| == dim
    {
      var o := [];
      for d := 0 to dim
        invariant |o| == d
      {
        var cell: real := *;
        o := o + [cell];
      }
      var sum: real := *;
      out := out + [RowOut(o, sum)];
    }
  }

  /** The query tiles cover the sequence, each beginning inside it. */
  lemma TileCount(sq: nat, br: nat)
    requires br > 0
    ensures var tr := (sq + br - 1) / br;
            tr * br >= sq && forall qTile: nat :: qTile < tr ==> qTile * br < sq
  {
    var tr := (sq + br - 1) / br;
    assert sq + br - 1 == At(tr, (sq + br - 1) % br, br);
    forall qTile: nat | qTile < tr ensures qTile * br < sq {
      RowGap(qTile, tr, br);
    }
  }

  lemma BlockFits(x: Tensors, bh: nat, first: nat, live: nat)
    requires bh < x.b * x.hq && bh * x.sq <= first && first + live <= bh * x.sq + x.sq
    ensures first + live <= x.b * x.hq * x.sq && (first + live) * x.dim <= x.b * x.hq * x.sq * x.dim
  {
    RowGap(bh, x.b * x.hq, x.sq);
    var rows := x.b * x.hq * x.sq;
    if first + live < rows { RowGap(first + live, rows, x.dim); }
  }

  /** One block of the grid: the rows of its tile that exist are written, nothing else. */
  method Block(exp: real -> real, log: real -> real, x: Tensors, br: nat, bc: nat, bh: nat, qTile: nat,
               o: array<real>, lse: array<real>)
    requires IsExp(exp) && IsLog(exp, log) && Shaped(x) && o != lse && br > 0 && bc > 0 && bc % br == 0
    requires bh < x.b * x.hq && qTile * br < x.sq
    requires o.Length == x.b * x.hq * x.sq * x.dim && lse.Length == x.b * x.hq * x.sq
    requires Done(exp, x, br, o[..], lse[..], bh * x.sq + qTile * br)
    modifies o, lse
    ensures Done(exp, x, br, o[..], lse[..], bh * x.sq + qTile * br + LiveRows(br, x.sq, qTile))
    ensures var first := bh * x.sq + qTile * br;
            Apart(x.dim, old(o[..]), old(lse[..]), o[..], lse[..], first, first + LiveRows(br, x.sq, qTile))
  {
    hide Done, IsAttention, IsExp, IsLog, Shaped, HeadOf, Apart, Holds;
    var first := bh * x.sq + qTile * br;
    ghost var o0, lse0 := o[..], lse[..];
    HeadsExist(x.b, x.hq, bh);
    var out := Rows(exp, log, x, br, bc, bh, qTile);
    BlockFits(x, bh, first, |out|);
    StoreBlock(x.dim, first, out, o, lse);
    DoneKept(exp, x, br, o0, lse0, o[..], lse[..], first, first + |out|);
    if |out| == br {
      BlockDone(exp, x, br, bh, qTile, out, o[..], lse[..]);
    } else {
      LastSkipped(exp, x, br, bh, qTile, o[..], lse[..]);
    }
  }

  /** The rows a block computes: attention if its tile is complete. */
  method Rows(exp: real -> real, log: real -> real, x: Tensors, br: nat, bc: nat, bh: nat, qTile: nat)
    returns (out: seq<RowOut>)
    requires IsExp(exp) && IsLog(exp, log) && Shaped(x) && br > 0 && bc > 0 && bc % br == 0
    requires x.hq > 0 && bh < x.b * x.hq && qTile * br < x.sq
    ensures |out| == LiveRows(br, x.sq, qTile) && forall r :: 0 <= r < |out| ==> |out[r].o| == x.dim
    ensures |out| == br ==>
              forall r :: 0 <= r < br ==> IsAttention(exp, HeadOf(x, bh), At(qTile, r, br), out[r].o, out[r].lse)
  {
    hide IsAttention, IsExp, IsLog;
    if LiveRows(br, x.sq, qTile) == br {
      out := FlashBlock(exp, log, HeadOf(x, bh), br, bc, qTile);
      OutLength(exp, x, bh, br, qTile, out);
    } else {
      out := LastBlock(x.dim, LiveRows(br, x.sq, qTile));
    }
  }

  /**
   The whole launch: every output row of a complete query tile is masked softmax attention over the KV head
   of its group, and the tiles are complete exactly when Br divides the query length.
   */
  method Forward(exp: real -> real, log: real -> real, x: Tensors, br: nat, bc: nat, o: array<real>, lse: array<real>)
    requires IsExp(exp) && IsLog(exp, log) && Shaped(x) && o != lse
    requires br > 0 && bc > 0 && bc % br == 0
    requires o.Length == x.b * x.hq * x.sq * x.dim && lse.Length == x.b * x.hq * x.sq
    modifies o, lse
    ensures forall r :: 0 <= r < x.b * x.hq * x.sq && r % x.sq < x.sq / br * br ==> RowDone(exp, x, o[..], lse[..], r)
  {
    hide RowDone, IsAttention, IsExp, IsLog, Shaped, Done, Apart;
    var tr := (x.sq + br - 1) / br;
    TileCount(x.sq, br);
    DoneStart(exp, x, br, o[..], lse[..]);
    for bh := 0 to x.b * x.hq
      invariant Done(exp, x, br, o[..], lse[..], bh * x.sq)
    {
      for qTile := 0 to tr
        invariant Done(exp, x, br, o[..], lse[..], bh * x.sq + if qTile * br < x.sq then qTile * br else x.sq)
      {
        Block(exp, log, x, br, bc, bh, qTile, o, lse);
        Distribute(qTile, 1, br);
      }
      Distribute(bh, 1, x.sq);
    }
    DoneRows(exp, x, br, o[..], lse[..], x.b * x.hq * x.sq);
  }

  /**
   If all values in column d of a key head are the same, every finished row of the query heads in its group has
   that value in column d.
   */
  lemma ConstantValues(exp: real -> real, x: Tensors, o: seq<real>, lse: seq<real>, b: nat, h: nat, s: nat, d: nat,
                       c: real)
    requires Shaped(x) && b < x.b && h < x.hq && s < x.sq && d < x.dim && x.hq / x.hkv > 0
    requires RowDone(exp, x, o, lse, At(At(b, h, x.hq), s, x.sq))
    requires forall j: nat :: j < x.skv ==>
               ValueAt(x, At(At(At(b, h / (x.hq / x.hkv), x.hkv), j, x.skv), d, x.dim), c)
    ensures var at := At(At(At(b, h, x.hq), s, x.sq), d, x.dim); 0 <= at < |o| && o[at] == c
  {
    var bh, r := At(b, h, x.hq), At(At(b, h, x.hq), s, x.sq);
    AtBounds(b, h, x.b, x.hq);
    AtSplits(bh, s, x.sq);
    HeadConstant(x, b, h, s, d, c);
    hide HeadOf, Shaped;
    ConstantColumn(exp, HeadOf(x, bh), s, x.skv, d, c);
    HeadSizes(x, bh);
    assert o[r * x.dim..r * x.dim + x.dim][d] == o[At(r, d, x.dim)];
    SameAverage(Num(exp, HeadOf(x, bh), s, x.skv, d), Den(exp, HeadOf(x, bh), s, x.skv), c);
  }

  lemma HeadSizes(x: Tensors, bh: nat)
    requires Shaped(x) && x.hq > 0
    ensures HeadOf(x, bh).skv == x.skv && HeadOf(x, bh).dim == x.dim
  {
  }

  lemma HeadConstant(x: Tensors, b: nat, h: nat, s: nat, d: nat, c: real)
    requires Shaped(x) && b < x.b && h < x.hq && s < x.sq && d < x.dim && x.hq / x.hkv > 0
    requires forall j: nat :: j < x.skv ==>
               ValueAt(x, At(At(At(b, h / (x.hq / x.hkv), x.hkv), j, x.skv), d, x.dim), c)
    ensures At(b, h, x.hq) >= 0 && forall j: nat :: j < x.skv ==> HeadOf(x, At(b, h, x.hq)).v(j, d) == c
  {
    AtBounds(b, h, x.b, x.hq);
    forall j: nat | j < x.skv ensures HeadOf(x, At(b, h, x.hq)).v(j, d) == c {
      HeadReads(x, b, h, s, j, d);
      hide HeadOf, At;
      assert ValueAt(x, At(At(At(b, h / (x.hq / x.hkv), x.hkv), j, x.skv), d, x.dim), c);
    }
  }

  predicate ValueAt(x: Tensors, at: int, c: real) { 0 <= at < |x.v| && x.v[at] == c }

  lemma {:induction false} ConstantColumn(exp: real -> real, h: Head, row: int, n: nat, d: int, c: real)
    requires forall j: nat :: j < n ==> h.v(j, d) == c
    ensures Num(exp, h, row, n, d) == c * Den(exp, h, row, n)
  {
    hide Term;
    if n > 0 {
      ConstantColumn(exp, h, row, n - 1, d, c);
      Spread(c, Den(exp, h, row, n - 1), Term(exp, h, row, n - 1));
      assert h.v(n - 1, d) == c;
    }
  }

  lemma Spread(a: real, b: real, c: real)
    ensures a * (b + c) == a * b + c * a
  {
  }

  lemma SameAverage(num: real, den: real, c: real)
    requires den > 0.0 && num == c * den
    ensures num / den == c
  {
  }

  lemma DoneStart(exp: real -> real, x: Tensors, br: nat, o: seq<real>, lse: seq<real>)
    requires Shaped(x)
    ensures Done(exp, x, br, o, lse, 0)
  {
  }

  lemma DoneRows(exp: real -> real, x: Tensors, br: nat, o: seq<real>, lse: seq<real>, n: int)
    requires Shaped(x) && br > 0 && Done(exp, x, br, o, lse, n)
    ensures forall r :: 0 <= r < n && x.sq > 0 && r % x.sq < x.sq / br * br ==> RowDone(exp, x, o, lse, r)
  {
    hide RowDone, Shaped;
    assert forall r :: 0 <= r < n && x.sq > 0 && r % x.sq < x.sq / br * br ==> InWholeTile(x, br, r);
  }

  lemma HeadsExist(b: nat, hq: nat, bh: nat)
    requires bh < b * hq
    ensures hq > 0
  {
  }

  lemma OutLength(exp: real -> real, x: Tensors, bh: nat, br: nat, qTile: nat, out: seq<RowOut>)
    requires Shaped(x) && x.hq > 0 && |out| == br
    requires forall r :: 0 <= r < br ==> IsAttention(exp, HeadOf(x, bh), At(qTile, r, br), out[r].o, out[r].lse)
    ensures forall r :: 0 <= r < br ==> |out[r].o| == x.dim
  {
    forall r | 0 <= r < br ensures |out[r].o| == x.dim {
      assert IsAttention(exp, HeadOf(x, bh), At(qTile, r, br), out[r].o, out[r].lse);
    }
  }

  // ---- query lengths ----

  /** In the strided load by `threads` threads of which the first `live` run, cell c is written. */
  predicate Loaded(c: nat, threads: nat, live: nat)
    requires threads > 0
  {
    c % threads < live
  }

  /** The live threads fill a shared tile exactly when none is missing or the tile is as small as they are few. */
  lemma FilledIff(cells: nat, threads: nat, live: nat)
    requires 0 < live <= threads
    ensures (forall c: nat :: c < cells ==> Loaded(c, threads, live)) <==> live == threads || cells <= live
  {
    if live == threads || cells <= live {
      forall c: nat | c < cells ensures Loaded(c, threads, live) {
        if c < live { SplitLow(c, threads); }
      }
    } else {
      SplitLow(live, threads);
      assert !Loaded(live, threads, live);
    }
  }

  ghost predicate TileLoaded(br: nat, bc: nat, dim: nat, sq: nat, qTile: nat)
    requires br > 0 && qTile * br < sq
  {
    forall c: nat :: c < bc * dim ==> Loaded(c, 32 * br, 32 * LiveRows(br, sq, qTile))
  }

  /**
   For the shapes that are launched: every block's K and V tiles are loaded completely if and only if the
   query length is a multiple of Br. Otherwise the last block attends over cells nobody wrote.
   */
  lemma TilesLoadedIff(br: nat, bc: nat, dim: nat, sq: nat)
    requires br > 0 && 32 * br <= bc * dim
    ensures (forall qTile: nat :: qTile * br < sq ==> TileLoaded(br, bc, dim, sq, qTile)) <==> sq % br == 0
  {
    hide Loaded;
    var last := sq / br;
    assert sq == last * br + sq % br;
    if sq % br != 0 {
      FilledIff(bc * dim, 32 * br, 32 * LiveRows(br, sq, last));
      assert !TileLoaded(br, bc, dim, sq, last);
    } else {
      forall qTile: nat | qTile * br < sq ensures TileLoaded(br, bc, dim, sq, qTile) {
        WholeTile(qTile, last, br);
        FilledIff(bc * dim, 32 * br, 32 * LiveRows(br, sq, qTile));
      }
    }
  }

  lemma WholeTile(qTile: nat, last: nat, br: nat)
    requires qTile * br < last * br
    ensures qTile * br + br <= last * br
  {
    if qTile < last { RowGap(qTile, last, br); } else { RowGap(last, qTile + 1, br); }
  }

  // ---- dispatch ----

  datatype Launch = Launched(br: nat, bc: nat) | Unsupported

  function SharedBytes(br: nat, bc: nat, dim: nat): nat {
    (br * dim + 2 * bc * dim + br * bc) * 4
  }

  /** The tile the dispatcher picks, given the shared memory of the device. */
  function PickTile(cfgBr: nat, cfgBc: nat, dim: nat, maxSmem: nat): (l: Launch)
    ensures l.Launched? <==>
            cfgBc in {32, 64} && ((cfgBr >= 32 && dim in {64, 128}) || (cfgBr == 16 && dim == 128))
    ensures l.Launched? ==> l.br == if cfgBr >= 32 then 32 else 16
    ensures l.Launched? ==>
              l.bc == if cfgBc == 64 && (l.br * dim + 128 * dim + 64 * l.br) * 4 <= maxSmem then 64 else 32
    ensures l.Launched? ==> l.br > 0 && l.bc > 0 && l.bc % l.br == 0 && l.br * 32 <= 1024
    ensures l.Launched? ==> 32 * l.br <= l.bc * dim
    ensures l.Launched? ==> l.bc == 64 ==> SharedBytes(l.br, 64, dim) <= maxSmem
  {
    var br := if cfgBr < 32 then cfgBr else 32;
    var bc := if cfgBc == 64 && SharedBytes(br, 64, dim) > maxSmem then 32 else cfgBc;
    if (br, bc, dim) in {(32, 64, 128), (32, 32, 128), (32, 64, 64), (32, 32, 64), (16, 64, 128), (16, 32, 128)}
    then Launched(br, bc) else Unsupported
  }

  ghost predicate IsSqrt(sqrt: real -> real) {
    forall y :: y > 0.0 ==> sqrt(y) > 0.0 && sqrt(y) * sqrt(y) == y
  }

  /** The scale of the scores: the configured one, or one over the root of the head dimension. */
  function ScaleOf(sqrt: real -> real, cfgScale: real, dim: nat): (s: real)
    requires dim > 0 && sqrt(dim as real) > 0.0
    ensures cfgScale > 0.0 ==> s == cfgScale
    ensures cfgScale <= 0.0 && sqrt(dim as real) * sqrt(dim as real) == dim as real ==>
              s > 0.0 && s * s * dim as real == 1.0
  {
    if cfgScale > 0.0 then cfgScale
    else
      var root := sqrt(dim as real);
      InverseRoot(root, dim as real);
      1.0 / root
  }

  lemma InverseRoot(root: real, y: real)
    requires root > 0.0 && y > 0.0
    ensures 1.0 / root > 0.0 && (root * root == y ==> 1.0 / root * (1.0 / root) * y == 1.0)
  {
    var s := 1.0 / root;
    assert s * root == 1.0;
    assert s > 0.0 by { assert s <= 0.0 ==> s * root <= 0.0; }
    assert s * s * (root * root) == (s * root) * (s * root);
  }

  /** The public entry point: an unsupported tile is an error that writes nothing. */
  method Dispatch(exp: real -> real, log: real -> real, sqrt: real -> real, x: Tensors, cfgScale: real, cfgBr: nat,
                  cfgBc: nat, maxSmem: nat, o: array<real>, lse: array<real>)
    returns (l: Launch, scale: real)
    requires IsExp(exp) && IsLog(exp, log) && IsSqrt(sqrt) && Shaped(x) && o != lse
    requires o.Length == x.b * x.hq * x.sq * x.dim && lse.Length == x.b * x.hq * x.sq
    modifies o, lse
    ensures l == PickTile(cfgBr, cfgBc, x.dim, maxSmem)
    ensures l.Launched? && cfgScale > 0.0 ==> scale == cfgScale
    ensures l.Launched? && cfgScale <= 0.0 ==> scale > 0.0 && scale * scale * x.dim as real == 1.0
    ensures l.Launched? ==> forall r :: 0 <= r < x.b * x.hq * x.sq && r % x.sq < x.sq / l.br * l.br ==>
              RowDone(exp, x.(scale := scale), o[..], lse[..], r)
    ensures l.Unsupported? ==> o[..] == old(o[..]) && lse[..] == old(lse[..])
  {
    hide RowDone, IsExp, IsLog;
    l := PickTile(cfgBr, cfgBc, x.dim, maxSmem);
    scale := cfgScale;
    if l.Launched? {
      scale := ScaleOf(sqrt, cfgScale, x.dim);
      Forward(exp, log, x.(scale := scale), l.br, l.bc, o, lse);
    }
  }
}
