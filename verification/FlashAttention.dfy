/**
 The FlashAttention-2 forward kernel over exact reals, against ordinary masked softmax attention.

 `exp` and `log` are parameters with the laws the proof needs.  The kernel's mask value and initial
 maximum, -1e30, is the separate score Masked: its weight relative to any real maximum underflows to
 zero, and relative to itself it is exp(0).
 */
module FlashAttention {
  import opened Grid

  ghost predicate IsExp(exp: real -> real) {
    && (forall x :: exp(x) > 0.0)
    && (forall x, y :: ExpOfSum(exp, x, y))
  }

  ghost predicate ExpOfSum(exp: real -> real, x: real, y: real) {
    exp(x + y) == exp(x) * exp(y)
  }

  ghost predicate IsLog(exp: real -> real, log: real -> real) {
    forall x :: x > 0.0 ==> exp(log(x)) == x
  }

  datatype Score = Masked | Real(v: real)

  function Max(a: Score, b: Score): Score {
    match (a, b)
    case (Masked, _) => b
    case (_, Masked) => a
    case (Real(x), Real(y)) => if x < y then b else a
  }

  /** expf(s - m) for m at least s. */
  function Weight(exp: real -> real, s: Score, m: Score): real
    requires s.Real? ==> m.Real?
  {
    match (s, m)
    case (Masked, Masked) => 1.0
    case (Masked, _) => 0.0
    case (Real(x), Real(y)) => exp(x - y)
  }

  /** One (batch, head) slice: rows of Q, K and V, and the masking parameters. */
  datatype Head = Head(
    q: (int, int) -> real, k: (int, int) -> real, v: (int, int) -> real,
    sq: nat, skv: nat, dim: nat, scale: real, causal: bool)

  // ---- the specification: masked softmax attention ----

  predicate Visible(h: Head, row: int, j: int) {
    j < h.skv && !(h.causal && j > row)
  }

  function Dot(h: Head, row: int, j: int, d: nat): real {
    if d == 0 then 0.0 else Dot(h, row, j, d - 1) + h.q(row, d - 1) * h.k(j, d - 1)
  }

  function ScoreAt(h: Head, row: int, j: int): Score {
    if Visible(h, row, j) then Real(Dot(h, row, j, h.dim) * h.scale) else Masked
  }

  /** Key j's unnormalised weight. */
  function Term(exp: real -> real, h: Head, row: int, j: int): real {
    match ScoreAt(h, row, j) case Masked => 0.0 case Real(x) => exp(x)
  }

  /** The softmax denominator over the first n keys. */
  function Den(exp: real -> real, h: Head, row: int, n: nat): real {
    if n == 0 then 0.0 else Den(exp, h, row, n - 1) + Term(exp, h, row, n - 1)
  }

  /** Column d of the weighted sum of values over the first n keys. */
  function Num(exp: real -> real, h: Head, row: int, n: nat, d: int): real {
    if n == 0 then 0.0 else Num(exp, h, row, n - 1, d) + Term(exp, h, row, n - 1) * h.v(n - 1, d)
  }

  /** The row's output is the softmax-weighted average and exp(lse) its denominator. */
  ghost predicate IsAttention(exp: real -> real, h: Head, row: int, o: seq<real>, lse: real) {
    && |o| == h.dim && Den(exp, h, row, h.skv) > 0.0
    && (forall d :: 0 <= d < h.dim ==> o[d] == Num(exp, h, row, h.skv, d) / Den(exp, h, row, h.skv))
    && exp(lse) == Den(exp, h, row, h.skv)
  }

  // ---- what the specification means ----

  /** The sum of the first `n` values of `f`. */
  ghost function SumOf(f: int -> real, n: nat): real {
    if n == 0 then 0.0 else SumOf(f, n - 1) + f(n - 1)
  }

  lemma {:induction false} SumIs(f: int -> real, g: int -> real, c: real, n: nat)
    requires forall i :: 0 <= i < n ==> f(i) * c == g(i)
    ensures SumOf(f, n) * c == SumOf(g, n)
  {
    if n > 0 { SumIs(f, g, c, n - 1); }
  }

  /** The products of a query row and a key row, column by column. */
  ghost function Products(h: Head, row: int, j: int): (f: int -> real)
    ensures forall i :: f(i) == h.q(row, i) * h.k(j, i)
  {
    i => h.q(row, i) * h.k(j, i)
  }

  ghost function Terms(exp: real -> real, h: Head, row: int): (f: int -> real)
    ensures forall j :: f(j) == Term(exp, h, row, j)
  {
    j => Term(exp, h, row, j)
  }

  /** The scaled dot product of a query row and a key row. */
  ghost function Scaled(h: Head, row: int, j: int): (x: real)
    ensures x == SumOf(Products(h, row, j), h.dim) * h.scale
  {
    SumOf(Products(h, row, j), h.dim) * h.scale
  }

  /** Column d of the values, each under its weight. */
  ghost function Weighted(w: int -> real, h: Head, d: int): (f: int -> real)
    ensures forall j :: f(j) == w(j) * h.v(j, d)
  {
    j => w(j) * h.v(j, d)
  }

  lemma {:induction false} DotIs(h: Head, row: int, j: int, n: nat)
    ensures Dot(h, row, j, n) == SumOf(Products(h, row, j), n)
  {
    if n > 0 { DotIs(h, row, j, n - 1); }
  }

  lemma {:induction false} DenIs(exp: real -> real, h: Head, row: int, n: nat)
    ensures Den(exp, h, row, n) == SumOf(Terms(exp, h, row), n)
  {
    hide Term;
    if n > 0 { DenIs(exp, h, row, n - 1); }
  }

  lemma {:induction false} NumIs(exp: real -> real, h: Head, row: int, n: nat, d: int)
    ensures Num(exp, h, row, n, d) == SumOf(Weighted(Terms(exp, h, row), h, d), n)
  {
    hide Term;
    if n > 0 { NumIs(exp, h, row, n - 1, d); }
  }

  /** The part of key j in the softmax average. */
  ghost function Share(exp: real -> real, h: Head, row: int): int -> real
    requires Den(exp, h, row, h.skv) > 0.0
  {
    j => Term(exp, h, row, j) / Den(exp, h, row, h.skv)
  }

  /**
   An attention row is the average of the values under weights that sum to one. A key after the row has weight
   zero under the causal mask; the others have exp of the scaled dot product of query and key, over exp of `lse`.
   */
  lemma SoftmaxWeights(exp: real -> real, h: Head, row: int, o: seq<real>, lse: real) returns (w: int -> real)
    requires IsAttention(exp, h, row, o, lse)
    ensures forall j :: 0 <= j < h.skv && h.causal && j > row ==> w(j) == 0.0
    ensures forall j :: 0 <= j < h.skv && !(h.causal && j > row) ==>
              w(j) * exp(lse) == exp(Scaled(h, row, j))
    ensures SumOf(w, h.skv) == 1.0
    ensures |o| == h.dim && forall d :: 0 <= d < h.dim ==> o[d] == SumOf(Weighted(w, h, d), h.skv)
  {
    hide Share, Den, Num, SumOf, Scaled, Weighted;
    w := Share(exp, h, row);
    forall j | 0 <= j < h.skv
      ensures if h.causal && j > row then w(j) == 0.0
              else w(j) * exp(lse) == exp(Scaled(h, row, j))
    {
      ShareIs(exp, h, row, j);
    }
    SharesSum(exp, h, row);
    forall d | 0 <= d < h.dim ensures o[d] == SumOf(Weighted(w, h, d), h.skv) { ShareColumn(exp, h, row, d); }
  }

  lemma ShareIs(exp: real -> real, h: Head, row: int, j: int)
    requires Den(exp, h, row, h.skv) > 0.0 && 0 <= j < h.skv
    ensures var x := Share(exp, h, row)(j);
            if h.causal && j > row then x == 0.0
            else x * Den(exp, h, row, h.skv) == exp(Scaled(h, row, j))
  {
    Divided(Term(exp, h, row, j), Den(exp, h, row, h.skv));
    if !(h.causal && j > row) { TermIs(exp, h, row, j); }
    hide Term, Den, Dot, Scaled;
  }

  lemma TermIs(exp: real -> real, h: Head, row: int, j: int)
    requires 0 <= j < h.skv && !(h.causal && j > row)
    ensures Term(exp, h, row, j) == exp(Scaled(h, row, j))
  {
    DotIs(h, row, j, h.dim);
    assert ScoreAt(h, row, j) == Real(Scaled(h, row, j));
  }

  lemma ShareTerms(exp: real -> real, h: Head, row: int)
    requires Den(exp, h, row, h.skv) > 0.0
    ensures forall j :: Share(exp, h, row)(j) * Den(exp, h, row, h.skv) == Terms(exp, h, row)(j)
  {
    hide Term, Den;
    forall j ensures Share(exp, h, row)(j) * Den(exp, h, row, h.skv) == Terms(exp, h, row)(j) {
      Divided(Term(exp, h, row, j), Den(exp, h, row, h.skv));
    }
  }

  lemma SharesSum(exp: real -> real, h: Head, row: int)
    requires Den(exp, h, row, h.skv) > 0.0
    ensures SumOf(Share(exp, h, row), h.skv) == 1.0
  {
    ShareTerms(exp, h, row);
    DenIs(exp, h, row, h.skv);
    hide Term, Share, Terms, Den, SumOf;
    var den := Den(exp, h, row, h.skv);
    SumIs(Share(exp, h, row), Terms(exp, h, row), den, h.skv);
    OneFrom(SumOf(Share(exp, h, row), h.skv), den, SumOf(Terms(exp, h, row), h.skv));
  }

  lemma ShareColumn(exp: real -> real, h: Head, row: int, d: int)
    requires Den(exp, h, row, h.skv) > 0.0
    ensures Num(exp, h, row, h.skv, d) / Den(exp, h, row, h.skv) == SumOf(Weighted(Share(exp, h, row), h, d), h.skv)
  {
    var den, w := Den(exp, h, row, h.skv), Share(exp, h, row);
    ShareTerms(exp, h, row);
    NumIs(exp, h, row, h.skv, d);
    hide Term, Share, Den, Terms, SumOf;
    var terms := Terms(exp, h, row);
    forall j ensures Weighted(w, h, d)(j) * den == Weighted(terms, h, d)(j) {
      assert w(j) * den == terms(j);
      Regroup(h.v(j, d), w(j), den);
    }
    SumIs(Weighted(w, h, d), Weighted(terms, h, d), den, h.skv);
    Divided(Num(exp, h, row, h.skv, d), den);
    SameQuotient(Num(exp, h, row, h.skv, d) / den, SumOf(Weighted(w, h, d), h.skv), den);
  }

  lemma Divided(x: real, y: real)
    requires y > 0.0
    ensures x / y * y == x
  {
  }

  lemma OneFrom(x: real, y: real, product: real)
    requires y > 0.0 && x * y == product && product == y
    ensures x == 1.0
  {
    assert (x - 1.0) * y == product - y;
  }

  lemma SameQuotient(x: real, y: real, z: real)
    requires z > 0.0 && x * z == y * z
    ensures x == y
  {
    assert (x - y) * z == 0.0;
  }

  // ---- the running state of a row ----

  datatype RowState = RowState(m: Score, l: real, o: seq<real>)

  /** m is the largest score among the first n keys. */
  ghost predicate IsMax(h: Head, row: int, n: nat, m: Score) {
    && (forall j :: 0 <= j < n ==> Max(ScoreAt(h, row, j), m) == m)
    && (m.Real? ==> exists j :: 0 <= j < n && ScoreAt(h, row, j) == m)
  }

  /** After n keys: the maximum, the denominator scaled by it, and the normalised average. */
  ghost predicate RowInv(exp: real -> real, h: Head, row: int, n: nat, st: RowState) {
    && |st.o| == h.dim && IsMax(h, row, n, st.m)
    && if n == 0 then st.m == Masked && st.l == 0.0
       else
         && st.m.Real? && Den(exp, h, row, n) > 0.0
         && Times(st.l, exp(st.m.v), Den(exp, h, row, n))
         && forall d :: 0 <= d < h.dim ==> Times(st.o[d], Den(exp, h, row, n), Num(exp, h, row, n, d))
  }

  ghost predicate Times(a: real, b: real, product: real) { a * b == product }

  /** w is key j's weight relative to the maximum m. */
  ghost predicate Weighs(exp: real -> real, h: Head, row: int, j: int, m: real, w: real) {
    w * exp(m) == Term(exp, h, row, j)
  }

  lemma WeightTerm(exp: real -> real, h: Head, row: int, j: int, m: real)
    requires IsExp(exp) && Max(ScoreAt(h, row, j), Real(m)) == Real(m)
    ensures Weighs(exp, h, row, j, m, Weight(exp, ScoreAt(h, row, j), Real(m)))
  {
    match ScoreAt(h, row, j)
    case Masked =>
    case Real(x) =>
      assert ExpOfSum(exp, x - m, m);
      assert (x - m) + m == x;
  }

  lemma ScaledSum(a: real, b: real, e: real)
    ensures (a + b) * e == a * e + b * e
  {
  }

  lemma DenStep(exp: real -> real, h: Head, row: int, n: nat)
    ensures Den(exp, h, row, n + 1) == Den(exp, h, row, n) + Term(exp, h, row, n)
  {
  }

  lemma {:induction false} DenMonotone(exp: real -> real, h: Head, row: int, n: nat, n': nat)
    requires IsExp(exp) && n <= n'
    ensures Den(exp, h, row, n) <= Den(exp, h, row, n')
    decreases n'
  {
    if n < n' { DenMonotone(exp, h, row, n, n' - 1); }
  }

  /** The first key is never masked, so the denominator is positive from the first key on. */
  lemma DenPositive(exp: real -> real, h: Head, row: nat, n: nat)
    requires IsExp(exp) && h.skv >= 1 && n >= 1
    ensures Den(exp, h, row, n) > 0.0
  {
    assert Visible(h, row, 0);
    assert Den(exp, h, row, 1) == Den(exp, h, row, 0) + Term(exp, h, row, 0);
    DenMonotone(exp, h, row, 1, n);
  }

  /** Masked keys contribute nothing. */
  lemma {:induction false} MaskedTail(exp: real -> real, h: Head, row: int, n: nat, n': nat, d: int)
    requires n <= n' && forall j :: n <= j < n' ==> !Visible(h, row, j)
    ensures Den(exp, h, row, n') == Den(exp, h, row, n) && Num(exp, h, row, n', d) == Num(exp, h, row, n, d)
    decreases n'
  {
    if n < n' {
      MaskedTail(exp, h, row, n, n' - 1, d);
      assert Term(exp, h, row, n' - 1) == 0.0;
    }
  }

  /** The new output column: the old average and the tile's sum, both rescaled to the new denominator. */
  function Blend(l: real, alpha: real, lNew: real, o: real, pv: real): real {
    var scOld := if lNew > 0.0 then l * alpha / lNew else 0.0;
    var scNew := if lNew > 0.0 then 1.0 / lNew else 0.0;
    scOld * o + scNew * pv
  }

  /** The rescaling identity behind the online update of one output column. */
  lemma Rescale(l: real, alpha: real, lOld: real, lNew: real, o: real, pv: real, e: real, den: real, den': real,
                num: real, num': real)
    requires lNew > 0.0 && Times(lNew, e, den') && lOld == alpha * l && Times(lOld, e, den)
    requires Times(pv, e, num' - num) && Times(o, den, num)
    ensures Times(Blend(l, alpha, lNew, o, pv), den', num')
  {
    var x, y := l * alpha / lNew, 1.0 / lNew;
    assert x * lNew == l * alpha && y * lNew == 1.0;
    var r := x * o + y * pv;
    assert r * lNew == (x * lNew) * o + (y * lNew) * pv;
    assert r * lNew == l * alpha * o + pv;
    assert r * den' == (r * lNew) * e;
    assert (r * lNew) * e == (l * alpha * o) * e + pv * e;
    assert (l * alpha * o) * e == o * ((alpha * l) * e);
  }

  // ---- the kernel ----

  /** The scores of one row against the keys of a tile: dot products from shared memory, or Masked. */
  method ScoreRow(h: Head, row: nat, kvStart: nat, bc: nat, sQ: seq<real>, sK: array<real>) returns (sS: seq<Score>)
    requires |sQ| == h.dim && sK.Length == bc * h.dim
    requires forall d :: 0 <= d < h.dim ==> sQ[d] == h.q(row, d)
    requires forall c :: 0 <= c < sK.Length ==> sK[c] == TileCell(h.k, h, kvStart, c)
    ensures |sS| == bc && forall j :: 0 <= j < bc ==> sS[j] == ScoreAt(h, row, kvStart + j)
  {
    hide At;
    sS := [];
    for j := 0 to bc
      invariant |sS| == j && forall j' :: 0 <= j' < j ==> sS[j'] == ScoreAt(h, row, kvStart + j')
    {
      var kvAbs := kvStart + j;
      if kvAbs >= h.skv || (h.causal && kvAbs > row) {
        sS := sS + [Masked];
      } else {
        var dot := 0.0;
        for d := 0 to h.dim
          invariant dot == Dot(h, row, kvAbs, d)
        {
          AtBounds(j, d, bc, h.dim);
          AtSplits(j, d, h.dim);
          dot := dot + sQ[d] * sK[At(j, d, h.dim)];
        }
        sS := sS + [Real(dot * h.scale)];
      }
    }
  }

  /** What the cooperative load puts into cell c of a K or V tile: rows past the end are zero. */
  function TileCell(f: (int, int) -> real, h: Head, kvStart: nat, c: int): real {
    if h.dim == 0 then 0.0
    else if 0 <= kvStart + c / h.dim < h.skv then f(kvStart + c / h.dim, c % h.dim) else 0.0
  }

  /** The maximum of a non-empty list of scores. */
  method TileMax(sS: seq<Score>, m0: Score) returns (m: Score)
    ensures Max(m0, m) == m && forall j :: 0 <= j < |sS| ==> Max(sS[j], m) == m
    ensures m == m0 || m in sS
  {
    m := m0;
    for j := 0 to |sS|
      invariant Max(m0, m) == m && forall j' :: 0 <= j' < j ==> Max(sS[j'], m) == m
      invariant m == m0 || m in sS
    {
      m := Max(m, sS[j]);
    }
  }

  /** The weights of the tile relative to the new maximum, and their sum. */
  method TileWeights(exp: real -> real, ghost h: Head, ghost row: nat, ghost kvStart: nat, sS: seq<Score>, m: Score)
    returns (p: seq<real>, lTile: real)
    requires IsExp(exp) && m.Real?
    requires forall j :: 0 <= j < |sS| ==> sS[j] == ScoreAt(h, row, kvStart + j) && Max(sS[j], m) == m
    ensures |p| == |sS| && forall j :: 0 <= j < |p| ==> Weighs(exp, h, row, kvStart + j, m.v, p[j])
    ensures Times(lTile, exp(m.v), Den(exp, h, row, kvStart + |sS|) - Den(exp, h, row, kvStart))
  {
    hide IsExp, Term, ScoreAt, Weight, Max;
    p, lTile := [], 0.0;
    for j := 0 to |sS|
      invariant |p| == j && forall j' :: 0 <= j' < j ==> Weighs(exp, h, row, kvStart + j', m.v, p[j'])
      invariant Times(lTile, exp(m.v), Den(exp, h, row, kvStart + j) - Den(exp, h, row, kvStart))
    {
      assert m == Real(m.v) && sS[j] == ScoreAt(h, row, kvStart + j);
      WeightTerm(exp, h, row, kvStart + j, m.v);
      DenStep(exp, h, row, kvStart + j);
      BelowMax(sS[j], m);
      var w := Weight(exp, sS[j], m);
      assert Weighs(exp, h, row, kvStart + j, m.v, w);
      TimesAdd(exp, h, row, kvStart + j, m.v, w, lTile, Den(exp, h, row, kvStart + j) - Den(exp, h, row, kvStart));
      hide Times, Weighs, Den;
      p := p + [w];
      lTile := lTile + w;
    }
  }

  lemma TimesSum(a: real, b: real, e: real, p: real, q: real)
    requires Times(a, e, p) && Times(b, e, q)
    ensures Times(a + b, e, p + q)
  {
    ScaledSum(a, b, e);
  }

  lemma TimesAdd(exp: real -> real, h: Head, row: int, j: int, m: real, w: real, l: real, den: real)
    requires Weighs(exp, h, row, j, m, w) && Times(l, exp(m), den)
    ensures Times(l + w, exp(m), den + Term(exp, h, row, j))
  {
    hide Term;
    ScaledSum(l, w, exp(m));
  }

  lemma BelowMax(s: Score, m: Score)
    requires Max(s, m) == m
    ensures s.Real? ==> m.Real?
  {
  }

  /** One column of the tile's weighted values. */
  method TileColumn(ghost exp: real -> real, ghost h: Head, ghost row: nat, ghost kvStart: nat, dim: nat,
                    p: seq<real>, sV: array<real>, d: nat, ghost m: real) returns (pv: real)
    requires d < dim == h.dim && sV.Length == |p| * dim
    requires forall j :: 0 <= j < |p| ==> Weighs(exp, h, row, kvStart + j, m, p[j])
    requires forall c :: 0 <= c < sV.Length ==> sV[c] == TileCell(h.v, h, kvStart, c)
    ensures Times(pv, exp(m), Num(exp, h, row, kvStart + |p|, d) - Num(exp, h, row, kvStart, d))
  {
    hide Term, TileCell, At, Weighs;
    pv := 0.0;
    for j := 0 to |p|
      invariant Times(pv, exp(m), Num(exp, h, row, kvStart + j, d) - Num(exp, h, row, kvStart, d))
    {
      AtBounds(j, d, |p|, dim);
      var x := p[j] * sV[At(j, d, dim)];
      TileValue(h, kvStart, j, d);
      hide Num;
      ColumnTerm(exp, h, row, kvStart + j, d, p[j], sV[At(j, d, dim)], m);
      assert Times(x, exp(m), Num(exp, h, row, kvStart + j + 1, d) - Num(exp, h, row, kvStart + j, d));
      TimesSum(pv, x, exp(m), Num(exp, h, row, kvStart + j, d) - Num(exp, h, row, kvStart, d),
               Num(exp, h, row, kvStart + j + 1, d) - Num(exp, h, row, kvStart + j, d));
      hide Times;
      pv := pv + x;
    }
  }

  lemma ColumnTerm(exp: real -> real, h: Head, row: nat, key: nat, d: nat, w: real, v: real, m: real)
    requires d < h.dim && Weighs(exp, h, row, key, m, w) && v == if key < h.skv then h.v(key, d) else 0.0
    ensures (w * v) * exp(m) == Num(exp, h, row, key + 1, d) - Num(exp, h, row, key, d)
  {
    assert (w * v) * exp(m) == (w * exp(m)) * v;
    if key >= h.skv { assert Term(exp, h, row, key) == 0.0; }
  }

  lemma TileValue(h: Head, kvStart: nat, j: nat, d: nat)
    requires d < h.dim
    ensures TileCell(h.v, h, kvStart, At(j, d, h.dim)) == if kvStart + j < h.skv then h.v(kvStart + j, d) else 0.0
  {
    AtSplits(j, d, h.dim);
  }

  /** The new running maximum is a real score: the first key of a processed tile is visible. */
  lemma NewMax(h: Head, row: nat, kvStart: nat, bc: nat, sS: seq<Score>, m: Score, mTile: Score)
    requires bc > 0 && |sS| == bc && IsMax(h, row, kvStart, m) && Visible(h, row, kvStart)
    requires forall j :: 0 <= j < bc ==> sS[j] == ScoreAt(h, row, kvStart + j)
    requires forall j :: 0 <= j < bc ==> Max(sS[j], mTile) == mTile
    requires mTile == Masked || mTile in sS
    ensures var mNew := Max(m, mTile);
            && mNew.Real? && IsMax(h, row, kvStart + bc, mNew) && Max(m, mNew) == mNew
            && forall j :: 0 <= j < bc ==> Max(sS[j], mNew) == mNew
  {
    var mNew := Max(m, mTile);
    assert sS[0].Real? && Max(sS[0], mTile) == mTile;
    forall j | 0 <= j < kvStart + bc ensures Max(ScoreAt(h, row, j), mNew) == mNew {
      if j >= kvStart { assert sS[j - kvStart] == ScoreAt(h, row, j); }
    }
    if mNew == mTile {
      var k :| 0 <= k < bc && sS[k] == mTile;
      assert ScoreAt(h, row, kvStart + k) == mNew;
    } else {
      var j :| 0 <= j < kvStart && ScoreAt(h, row, j) == m;
      assert ScoreAt(h, row, j) == mNew;
    }
  }

  /** Rescaling the old sum to the new maximum. */
  lemma AlphaDen(exp: real -> real, h: Head, row: nat, n: nat, st: RowState, mNew: Score, lOld: real)
    requires IsExp(exp) && RowInv(exp, h, row, n, st) && mNew.Real? && Max(st.m, mNew) == mNew
    requires lOld == Weight(exp, st.m, mNew) * st.l
    ensures Times(lOld, exp(mNew.v), Den(exp, h, row, n))
  {
    hide IsExp, Num;
    if n > 0 {
      hide Den;
      OldScale(exp, st.m.v, mNew.v, st.l, Den(exp, h, row, n));
    }
  }

  lemma OldScale(exp: real -> real, x: real, y: real, l: real, den: real)
    requires IsExp(exp) && Times(l, exp(x), den)
    ensures Times(exp(x - y) * l, exp(y), den)
  {
    assert ExpOfSum(exp, x - y, y);
    assert (x - y) + y == x;
    hide IsExp;
    Regroup(exp(x - y), l, exp(y));
  }

  lemma Regroup(a: real, b: real, c: real)
    ensures a * b * c == b * (a * c)
  {
  }

  /** The online-softmax step of one row over one tile. */
  method UpdateRow(exp: real -> real, h: Head, ghost row: nat, ghost kvStart: nat, bc: nat, sS: seq<Score>,
                   sV: array<real>, st: RowState)
    returns (st': RowState)
    requires IsExp(exp) && h.skv >= 1 && bc > 0 && Visible(h, row, kvStart) && RowInv(exp, h, row, kvStart, st)
    requires |sS| == bc && forall j :: 0 <= j < bc ==> sS[j] == ScoreAt(h, row, kvStart + j)
    requires sV.Length == bc * h.dim && forall c :: 0 <= c < sV.Length ==> sV[c] == TileCell(h.v, h, kvStart, c)
    ensures RowInv(exp, h, row, kvStart + bc, st')
  {
    hide ScoreAt, Term, IsMax, TileCell, Visible, IsExp, Weighs, Times, Blend;
    var mTile := TileMax(sS, Masked);
    var mNew := Max(st.m, mTile);
    NewMax(h, row, kvStart, bc, sS, st.m, mTile);
    var alpha := Weight(exp, st.m, mNew);
    var lOld := alpha * st.l;
    AlphaDen(exp, h, row, kvStart, st, mNew, lOld);
    var p, lTile := TileWeights(exp, h, row, kvStart, sS, mNew);
    var lNew := lOld + lTile;
    LNew(exp, h, row, kvStart, bc, lOld, lTile, mNew.v);
    var o := [];
    for d := 0 to h.dim
      invariant |o| == d
      invariant forall d' :: 0 <= d' < d ==>
              Times(o[d'], Den(exp, h, row, kvStart + bc), Num(exp, h, row, kvStart + bc, d'))
    {
      var pv := TileColumn(exp, h, row, kvStart, h.dim, p, sV, d, mNew.v);
      ColumnUpdate(exp, h, row, kvStart, bc, st, alpha, lOld, lNew, mNew.v, pv, d);
      o := o + [Blend(st.l, alpha, lNew, st.o[d], pv)];
    }
    st' := RowState(mNew, lNew, o);
  }

  lemma LNew(exp: real -> real, h: Head, row: nat, kvStart: nat, bc: nat, lOld: real, lTile: real, m: real)
    requires IsExp(exp) && h.skv >= 1 && bc > 0
    requires Times(lOld, exp(m), Den(exp, h, row, kvStart))
    requires Times(lTile, exp(m), Den(exp, h, row, kvStart + bc) - Den(exp, h, row, kvStart))
    ensures Times(lOld + lTile, exp(m), Den(exp, h, row, kvStart + bc))
    ensures Den(exp, h, row, kvStart + bc) > 0.0 && lOld + lTile > 0.0
  {
    ScaledSum(lOld, lTile, exp(m));
    DenPositive(exp, h, row, kvStart + bc);
    var l := lOld + lTile;
    assert l <= 0.0 ==> l * exp(m) <= 0.0;
  }

  lemma ColumnUpdate(exp: real -> real, h: Head, row: nat, kvStart: nat, bc: nat, st: RowState,
                     alpha: real, lOld: real, lNew: real, m: real, pv: real, d: nat)
    requires d < h.dim && RowInv(exp, h, row, kvStart, st) && lNew > 0.0
    requires lOld == alpha * st.l && Times(lOld, exp(m), Den(exp, h, row, kvStart)) &&
            Times(lNew, exp(m), Den(exp, h, row, kvStart + bc))
    requires Times(pv, exp(m), Num(exp, h, row, kvStart + bc, d) - Num(exp, h, row, kvStart, d))
    ensures Times(Blend(st.l, alpha, lNew, st.o[d], pv), Den(exp, h, row, kvStart + bc),
                  Num(exp, h, row, kvStart + bc, d))
  {
    hide Times, Blend;
    OldColumn(exp, h, row, kvStart, st, d);
    hide RowInv;
    Rescale(st.l, alpha, lOld, lNew, st.o[d], pv, exp(m), Den(exp, h, row, kvStart), Den(exp, h, row, kvStart + bc),
      Num(exp, h, row, kvStart, d), Num(exp, h, row, kvStart + bc, d));
  }

  lemma OldColumn(exp: real -> real, h: Head, row: nat, n: nat, st: RowState, d: nat)
    requires d < h.dim && RowInv(exp, h, row, n, st)
    ensures |st.o| == h.dim && Times(st.o[d], Den(exp, h, row, n), Num(exp, h, row, n, d))
  {
    if n == 0 { assert Den(exp, h, row, 0) == 0.0 && Num(exp, h, row, 0, d) == 0.0; }
  }

  // ---- a block of rows ----

  datatype RowOut = RowOut(o: seq<real>, lse: real)

  /** If Br divides Bc, all rows of a Q tile leave the KV loop at the same tile, so no barrier diverges. */
  lemma BreakUniform(br: nat, bc: nat, qTile: nat, kvTile: nat, r: nat)
    requires br > 0 && bc % br == 0 && r < br
    ensures kvTile * bc > qTile * br <==> kvTile * bc > qTile * br + r
  {
    var q := bc / br;
    assert bc == q * br;
    Reassociate(kvTile, q, br);
    if kvTile * q > qTile { RowGap(qTile, kvTile * q, br); }
    if kvTile * q < qTile { RowGap(kvTile * q, qTile, br); }
  }

  lemma Reassociate(a: int, b: int, c: int)
    ensures a * (b * c) == (a * b) * c
  {
  }

  /** The first row of a Q tile and row `r` of it take the same decision to leave the KV loop. */
  predicate SameChoice(br: nat, bc: nat, qTile: nat, kvTile: nat, r: nat) {
    kvTile * bc > qTile * br <==> kvTile * bc > qTile * br + r
  }

  /** For a tile shape: the rows of every block leave the KV loop together if and only if Br divides Bc. */
  lemma BreakUniformIff(br: nat, bc: nat)
    requires br > 0
    ensures (forall qTile: nat, kvTile: nat, r: nat :: r < br ==> SameChoice(br, bc, qTile, kvTile, r)) <==>
            bc % br == 0
  {
    if bc % br == 0 {
      forall qTile: nat, kvTile: nat, r: nat | r < br ensures SameChoice(br, bc, qTile, kvTile, r) {
        BreakUniform(br, bc, qTile, kvTile, r);
      }
    } else {
      SplitBounds(bc, bc / br + 1, br);
      assert bc == bc / br * br + bc % br;
      assert !SameChoice(br, bc, bc / br, 1, bc % br);
    }
  }

  /** The keys never reached by the KV loop are masked. */
  lemma Finish(exp: real -> real, log: real -> real, h: Head, row: nat, n: nat, st: RowState, lse: real)
    requires IsExp(exp) && IsLog(exp, log) && h.skv >= 1 && n > 0 && RowInv(exp, h, row, n, st)
    requires n >= h.skv || (h.causal && n > row)
    requires st.l > 0.0 ==> lse == st.m.v + log(st.l)
    ensures st.l > 0.0 && IsAttention(exp, h, row, st.o, lse)
  {
    hide IsExp, IsLog, Times, Visible;
    SameTotals(exp, h, row, n, 0);
    var den := Den(exp, h, row, h.skv);
    forall d | 0 <= d < h.dim ensures st.o[d] == Num(exp, h, row, h.skv, d) / den {
      SameTotals(exp, h, row, n, d);
      assert Times(st.o[d], Den(exp, h, row, n), Num(exp, h, row, n, d));
      Quotient(st.o[d], den, Num(exp, h, row, h.skv, d));
    }
    LseIsDen(exp, log, st.m.v, st.l, den);
  }

  lemma SameTotals(exp: real -> real, h: Head, row: nat, n: nat, d: int)
    requires n >= h.skv || (h.causal && n > row)
    ensures Den(exp, h, row, n) == Den(exp, h, row, h.skv) && Num(exp, h, row, n, d) == Num(exp, h, row, h.skv, d)
  {
    if n >= h.skv { MaskedTail(exp, h, row, h.skv, n, d); } else { MaskedTail(exp, h, row, n, h.skv, d); }
  }

  lemma LseIsDen(exp: real -> real, log: real -> real, m: real, l: real, den: real)
    requires IsExp(exp) && IsLog(exp, log) && den > 0.0 && Times(l, exp(m), den)
    ensures l > 0.0 && exp(m + log(l)) == den
  {
    PositiveFactor(l, exp(m), den);
    assert ExpOfSum(exp, m, log(l));
    Commute(l, exp(m));
  }

  lemma Commute(a: real, b: real)
    ensures a * b == b * a
  {
  }

  lemma Quotient(x: real, den: real, num: real)
    requires den > 0.0 && Times(x, den, num)
    ensures x == num / den
  {
  }

  lemma PositiveFactor(x: real, e: real, product: real)
    requires e > 0.0 && product > 0.0 && Times(x, e, product)
    ensures x > 0.0
  {
    assert x <= 0.0 ==> x * e <= 0.0;
  }

  /** One thread block: Br rows against all KV tiles they can see. */
  method FlashBlock(exp: real -> real, log: real -> real, h: Head, br: nat, bc: nat, qTile: nat)
    returns (out: seq<RowOut>)
    requires IsExp(exp) && IsLog(exp, log) && h.skv >= 1 && br > 0 && bc > 0 && bc % br == 0
    ensures |out| == br && forall r :: 0 <= r < br ==> IsAttention(exp, h, At(qTile, r, br), out[r].o, out[r].lse)
  {
    hide IsExp, IsLog, RowInv, TileCell, ScoreAt, IsAttention, Visible;
    var sK := new real[bc * h.dim](_ => 0.0);
    var sV := new real[bc * h.dim](_ => 0.0);
    var rows := StartRows(exp, h, br, qTile);
    var kvTile, kvStart := 0, 0;
    var broke := false;
    while kvStart < h.skv && !broke
      invariant |rows| == br && kvStart == kvTile * bc && (broke ==> h.causal && kvStart > qTile * br)
      invariant forall r :: 0 <= r < br ==> RowInv(exp, h, At(qTile, r, br), kvStart, rows[r])
      decreases !broke, h.skv - kvStart
    {
      if h.causal && kvStart > qTile * br {
        broke := true;
      } else {
        var _ := CooperativeFill(sK, br * 32, c => TileCell(h.k, h, kvStart, c));
        var _ := CooperativeFill(sV, br * 32, c => TileCell(h.v, h, kvStart, c));
        SameBreak(h, br, bc, qTile, kvTile);
        rows := TilePhase(exp, h, br, bc, qTile, kvStart, sK, sV, rows);
        Distribute(kvTile, 1, bc);
        kvTile, kvStart := kvTile + 1, kvStart + bc;
      }
    }
    assert kvStart > 0 by { assert kvTile == 0 ==> kvStart == 0; }
    out := [];
    for r := 0 to br
      invariant |out| == r && forall r' :: 0 <= r' < r ==>
              IsAttention(exp, h, At(qTile, r', br), out[r'].o, out[r'].lse)
    {
      BreakUniform(br, bc, qTile, kvTile, r);
      var st := rows[r];
      RealMax(exp, h, At(qTile, r, br), kvStart, st);
      var lse := st.m.v + log(if st.l > 0.0 then st.l else 1e-30);
      Finish(exp, log, h, At(qTile, r, br), kvStart, st, lse);
      out := out + [RowOut(st.o, lse)];
    }
  }

  lemma RealMax(exp: real -> real, h: Head, row: nat, n: nat, st: RowState)
    requires n > 0 && RowInv(exp, h, row, n, st)
    ensures st.m.Real?
  {
  }

  /** Every row of the block sees the first key of a tile that is processed. */
  lemma SameBreak(h: Head, br: nat, bc: nat, qTile: nat, kvTile: nat)
    requires br > 0 && bc % br == 0 && kvTile * bc < h.skv && !(h.causal && kvTile * bc > qTile * br)
    ensures forall r :: 0 <= r < br ==> Visible(h, At(qTile, r, br), kvTile * bc)
  {
    forall r | 0 <= r < br ensures Visible(h, At(qTile, r, br), kvTile * bc) {
      BreakUniform(br, bc, qTile, kvTile, r);
    }
  }

  method StartRows(ghost exp: real -> real, h: Head, br: nat, ghost qTile: nat) returns (rows: seq<RowState>)
    ensures |rows| == br && forall r :: 0 <= r < br ==> RowInv(exp, h, At(qTile, r, br), 0, rows[r])
  {
    rows := seq(br, _ => RowState(Masked, 0.0, seq(h.dim, _ => 0.0)));
  }

  /** Score phase, barrier, update phase: each row touches only its own scores and registers. */
  method TilePhase(exp: real -> real, h: Head, br: nat, bc: nat, qTile: nat, kvStart: nat, sK: array<real>,
                   sV: array<real>, rows: seq<RowState>)
    returns (rows': seq<RowState>)
    requires IsExp(exp) && h.skv >= 1 && bc > 0 && |rows| == br
    requires sK.Length == bc * h.dim && sV.Length == bc * h.dim
    requires forall c :: 0 <= c < sK.Length ==> sK[c] == TileCell(h.k, h, kvStart, c)
    requires forall c :: 0 <= c < sV.Length ==> sV[c] == TileCell(h.v, h, kvStart, c)
    requires forall r :: 0 <= r < br ==> Visible(h, At(qTile, r, br), kvStart)
    requires forall r :: 0 <= r < br ==> RowInv(exp, h, At(qTile, r, br), kvStart, rows[r])
    ensures |rows'| == br && forall r :: 0 <= r < br ==> RowInv(exp, h, At(qTile, r, br), kvStart + bc, rows'[r])
  {
    hide IsExp, RowInv, TileCell, Visible;
    var sS := [];
    for r := 0 to br
      invariant |sS| == r
      invariant forall r' :: 0 <= r' < r ==> Scored(h, At(qTile, r', br), kvStart, bc, sS[r'])
    {
      var sQ := seq(h.dim, d => h.q(At(qTile, r, br), d));
      var scores := ScoreRow(h, At(qTile, r, br), kvStart, bc, sQ, sK);
      sS := sS + [scores];
    }
    rows' := [];
    for r := 0 to br
      invariant |rows'| == r
      invariant forall r' :: 0 <= r' < r ==> RowInv(exp, h, At(qTile, r', br), kvStart + bc, rows'[r'])
    {
      assert Scored(h, At(qTile, r, br), kvStart, bc, sS[r]);
      var st := UpdateRow(exp, h, At(qTile, r, br), kvStart, bc, sS[r], sV, rows[r]);
      rows' := rows' + [st];
    }
  }

  ghost predicate Scored(h: Head, row: nat, kvStart: nat, bc: nat, sS: seq<Score>) {
    |sS| == bc && forall j :: 0 <= j < bc ==> sS[j] == ScoreAt(h, row, kvStart + j)
  }
}
