/** Speculative decoding: greedy verification over whole runs, and rejection sampling with the code's epsilon. */
module Speculative {

  datatype Verdict = Verdict(accepted: seq<int>, bonus: int)

  // ---- greedy verification ----

  /** The first position of the largest logit; position 0 for an empty vector. */
  function ArgMax(logits: seq<real>): (r: nat)
    ensures logits == [] ==> r == 0
    ensures logits != [] ==> r < |logits|
    ensures forall i :: 0 <= i < |logits| ==> logits[i] <= logits[r] && (i < r ==> logits[i] < logits[r])
  {
    if |logits| <= 1 then 0
    else
      var n := |logits| - 1;
      var r := ArgMax(logits[..n]);
      if logits[r] < logits[n] then n else r
  }

  /** What greedy verification must return: the longest draft prefix that the target would have produced. */
  function GreedyVerdict(draft: seq<int>, target: seq<seq<real>>): Verdict
    requires |target| > |draft|
    decreases |draft|
  {
    if draft == [] then Verdict([], ArgMax(target[0]))
    else if draft[0] != ArgMax(target[0]) then Verdict([], ArgMax(target[0]))
    else var v := GreedyVerdict(draft[1..], target[1..]); Verdict([draft[0]] + v.accepted, v.bonus)
  }

  lemma VerdictStep(draft: seq<int>, target: seq<seq<real>>, i: nat)
    requires i < |draft| < |target|
    ensures GreedyVerdict(draft[i..], target[i..]) ==
            if draft[i] != ArgMax(target[i]) then Verdict([], ArgMax(target[i]))
            else var v := GreedyVerdict(draft[i + 1..], target[i + 1..]); Verdict([draft[i]] + v.accepted, v.bonus)
  {
    hide ArgMax;
    assert draft[i..][1..] == draft[i + 1..] && target[i..][1..] == target[i + 1..];
  }

  lemma VerdictEnd(draft: seq<int>, target: seq<seq<real>>)
    requires |draft| < |target|
    ensures GreedyVerdict(draft[|draft|..], target[|draft|..]) == Verdict([], ArgMax(target[|draft|]))
  {
  }

  /** A target model maps a context to the logits of the next token. */
  type Model = seq<int> -> seq<real>

  /** Plain greedy decoding: n tokens after a context. */
  function Greedy(model: Model, context: seq<int>, n: nat): (out: seq<int>)
    ensures |out| == n
    decreases n
  {
    if n == 0 then []
    else
      var t := ArgMax(model(context));
      [t] + Greedy(model, context + [t], n - 1)
  }

  /** target[i] is the target's output after the context and the first i draft tokens. */
  ghost predicate Scores(model: Model, context: seq<int>, draft: seq<int>, target: seq<seq<real>>) {
    |target| == |draft| + 1 && forall i :: 0 <= i <= |draft| ==> target[i] == model(context + draft[..i])
  }

  /** One step emits exactly the next tokens of plain greedy decoding, whatever the draft was. */
  lemma {:induction false} GreedyStepLossless(model: Model, context: seq<int>, draft: seq<int>, target: seq<seq<real>>)
    requires Scores(model, context, draft, target)
    ensures var v := GreedyVerdict(draft, target);
            v.accepted + [v.bonus] == Greedy(model, context, |v.accepted| + 1)
    decreases |draft|
  {
    assert context + draft[..0] == context;
    if draft == [] || draft[0] != ArgMax(target[0]) {
      assert Greedy(model, context, 1) ==
          [ArgMax(model(context))] + Greedy(model, context + [ArgMax(model(context))], 0);
    } else {
      var t := draft[0];
      forall i | 0 <= i <= |draft| - 1 ensures target[1..][i] == model((context + [t]) + draft[1..][..i]) {
        assert context + draft[..i + 1] == (context + [t]) + draft[1..][..i];
      }
      GreedyStepLossless(model, context + [t], draft[1..], target[1..]);
      var v := GreedyVerdict(draft[1..], target[1..]);
      assert GreedyVerdict(draft, target).accepted + [v.bonus] == [t] + (v.accepted + [v.bonus]);
    }
  }

  /** Greedy decoding composes. */
  lemma {:induction false} GreedyConcat(model: Model, context: seq<int>, n: nat, m: nat)
    ensures Greedy(model, context, n + m) ==
            Greedy(model, context, n) + Greedy(model, context + Greedy(model, context, n), m)
    decreases n
  {
    if n == 0 {
      assert context + [] == context;
    } else {
      var t := ArgMax(model(context));
      GreedyConcat(model, context + [t], n - 1, m);
      var rest := Greedy(model, context + [t], n - 1);
      assert context + ([t] + rest) == (context + [t]) + rest;
    }
  }

  /** The target's outputs after each prefix of the draft. */
  ghost function TargetsOf(model: Model, context: seq<int>, draft: seq<int>): seq<seq<real>> {
    seq(|draft| + 1, i requires 0 <= i <= |draft| => model(context + draft[..i]))
  }

  /** What one step emits. */
  ghost function StepOutput(model: Model, context: seq<int>, draft: seq<int>): seq<int> {
    var v := GreedyVerdict(draft, TargetsOf(model, context, draft));
    v.accepted + [v.bonus]
  }

  /** What a run of speculative steps emits; each draft may depend on anything. */
  ghost function RunOutput(model: Model, context: seq<int>, drafts: seq<seq<int>>): seq<int>
    decreases |drafts|
  {
    if drafts == [] then []
    else
      var out := StepOutput(model, context, drafts[0]);
      out + RunOutput(model, context + out, drafts[1..])
  }

  lemma StepOutputLossless(model: Model, context: seq<int>, draft: seq<int>)
    ensures var out := StepOutput(model, context, draft); out == Greedy(model, context, |out|) && |out| >= 1
  {
    GreedyStepLossless(model, context, draft, TargetsOf(model, context, draft));
  }

  /** Over any number of steps and for any drafts the output is a prefix of plain greedy decoding. */
  lemma {:induction false} GreedyRunLossless(model: Model, context: seq<int>, drafts: seq<seq<int>>)
    ensures var out := RunOutput(model, context, drafts);
            out == Greedy(model, context, |out|) && |out| >= |drafts|
    decreases |drafts|
  {
    if drafts != [] {
      hide StepOutput, Greedy;
      var out := StepOutput(model, context, drafts[0]);
      StepOutputLossless(model, context, drafts[0]);
      GreedyRunLossless(model, context + out, drafts[1..]);
      GreedyConcat(model, context, |out|, |RunOutput(model, context + out, drafts[1..])|);
    }
  }

  // ---- rejection sampling ----

  const EPS: real := 0.000000001

  function Sum(f: int -> real, n: nat): real {
    if n == 0 then 0.0 else Sum(f, n - 1) + f(n - 1)
  }

  function At(p: seq<real>, i: int): real {
    if 0 <= i < |p| then p[i] else 0.0
  }

  function MinReal(a: real, b: real): real { if a < b then a else b }

  /** The probability with which draft token x is accepted. */
  function AcceptProb(pt: seq<real>, pd: seq<real>, x: nat): real {
    var t := At(pt, x);
    var d := if x < |pd| then pd[x] else EPS;
    if d + EPS == 0.0 then 1.0 else MinReal(1.0, t / (d + EPS))
  }

  /** The part of the target above the draft. */
  function Adjusted(pt: seq<real>, pd: seq<real>, i: int): real {
    if At(pt, i) > At(pd, i) then At(pt, i) - At(pd, i) else 0.0
  }

  /** Entry i of a vector, as a function. */
  function Entries(p: seq<real>): int -> real { i => At(p, i) }

  function AdjustedEntries(pt: seq<real>, pd: seq<real>): int -> real { i => Adjusted(pt, pd, i) }

  function AdjustedSum(pt: seq<real>, pd: seq<real>): real { Sum(AdjustedEntries(pt, pd), |pt|) }

  /** Probability that y is drafted and rejected. */
  function Rejected(pt: seq<real>, pd: seq<real>): int -> real {
    y => if y < 0 then 0.0 else At(pd, y) * (1.0 - AcceptProb(pt, pd, y))
  }

  /** The mass of token x after a rejection: normalised adjusted distribution, or uniform if it vanishes. */
  function ResampleMass(pt: seq<real>, pd: seq<real>, x: nat): real
    requires |pt| > 0
  {
    var s := AdjustedSum(pt, pd);
    if s < EPS then 1.0 / (|pt| as real) else Adjusted(pt, pd, x) / s
  }

  /** The probability that a reached position emits x: x drafted and accepted, or anything drafted and rejected. */
  function EmitMass(pt: seq<real>, pd: seq<real>, x: nat): real
    requires |pt| > 0
  {
    At(pd, x) * AcceptProb(pt, pd, x) + Sum(Rejected(pt, pd), |pd|) * ResampleMass(pt, pd, x)
  }

  ghost predicate Distribution(p: seq<real>) {
    (forall i :: 0 <= i < |p| ==> p[i] >= 0.0) && Sum(Entries(p), |p|) == 1.0
  }

  lemma {:induction false} SumPlus(f: int -> real, g: int -> real, h: int -> real, n: nat)
    requires forall i :: 0 <= i < n ==> h(i) == f(i) + g(i)
    ensures Sum(h, n) == Sum(f, n) + Sum(g, n)
  {
    if n > 0 { SumPlus(f, g, h, n - 1); }
  }

  lemma {:induction false} SumBounds(f: int -> real, n: nat, lo: real, hi: real)
    requires forall i :: 0 <= i < n ==> lo <= f(i) <= hi
    ensures n as real * lo <= Sum(f, n) <= n as real * hi
  {
    if n > 0 {
      SumBounds(f, n - 1, lo, hi);
      assert n as real * lo == (n - 1) as real * lo + lo;
      assert n as real * hi == (n - 1) as real * hi + hi;
    }
  }

  lemma {:induction false} SumAtLeast(f: int -> real, n: nat, x: nat)
    requires x < n && forall i :: 0 <= i < n ==> f(i) >= 0.0
    ensures f(x) <= Sum(f, n)
  {
    if x == n - 1 { SumBoundsLow(f, n - 1); } else { SumAtLeast(f, n - 1, x); }
  }

  lemma {:induction false} SumBoundsLow(f: int -> real, n: nat)
    requires forall i :: 0 <= i < n ==> f(i) >= 0.0
    ensures Sum(f, n) >= 0.0
  {
    if n > 0 { SumBoundsLow(f, n - 1); }
  }

  /** Accepting with the code's epsilon loses at most epsilon against the overlap of the two distributions. */
  lemma AcceptLoss(pt: seq<real>, pd: seq<real>, x: nat)
    requires |pt| == |pd| && x < |pd| && pt[x] >= 0.0 && pd[x] >= 0.0
    ensures var acc := pd[x] * AcceptProb(pt, pd, x);
            MinReal(pt[x], pd[x]) - EPS <= acc <= MinReal(pt[x], pd[x])
  {
    var t, d := pt[x], pd[x];
    var q := t / (d + EPS);
    assert q * (d + EPS) == t;
    LossOf(t, d, EPS, q);
  }

  lemma NonNegativeProduct(a: real, b: real)
    requires a >= 0.0 && b >= 0.0
    ensures a * b >= 0.0
  {
  }

  lemma NegativeProduct(a: real, b: real)
    requires a < 0.0 && b > 0.0
    ensures a * b < 0.0
  {
  }

  lemma Expand(a: real, b: real, c: real)
    ensures a * (b + c) == a * b + a * c && a * (b - c) == a * b - a * c
  {
  }

  lemma LossOf(t: real, d: real, eps: real, q: real)
    requires t >= 0.0 && d >= 0.0 && eps > 0.0 && q * (d + eps) == t
    ensures MinReal(t, d) - eps <= d * MinReal(1.0, q) <= MinReal(t, d)
  {
    Expand(q, d, eps);
    if q < 0.0 { NegativeProduct(q, d + eps); }
    if q >= 1.0 {
      NonNegativeProduct(q - 1.0, d + eps);
      Expand(d + eps, q, 1.0);
    } else {
      NonNegativeProduct(d, 1.0 - q);
      Expand(d, 1.0, q);
      NonNegativeProduct(eps, 1.0 - q);
      Expand(eps, 1.0, q);
      NonNegativeProduct(eps, q);
    }
  }

  /** Drafted-and-accepted mass of y, and its shortfall against the overlap. */
  function Accepted(pt: seq<real>, pd: seq<real>): int -> real {
    y => if y < 0 then 0.0 else At(pd, y) * AcceptProb(pt, pd, y)
  }

  function Overlap(pt: seq<real>, pd: seq<real>): int -> real { y => MinReal(At(pt, y), At(pd, y)) }

  function Loss(pt: seq<real>, pd: seq<real>): int -> real { y => Overlap(pt, pd)(y) - Accepted(pt, pd)(y) }

  /** Draft and target split into overlap, loss and adjusted part at every token. */
  ghost predicate Pointwise(pt: seq<real>, pd: seq<real>, y: int) {
    && Entries(pd)(y) == Accepted(pt, pd)(y) + Rejected(pt, pd)(y)
    && Overlap(pt, pd)(y) == Loss(pt, pd)(y) + Accepted(pt, pd)(y)
    && Entries(pt)(y) == Overlap(pt, pd)(y) + AdjustedEntries(pt, pd)(y)
    && 0.0 <= Loss(pt, pd)(y) <= EPS && AdjustedEntries(pt, pd)(y) >= 0.0
  }

  lemma PointwiseHolds(pt: seq<real>, pd: seq<real>, y: nat)
    requires |pt| == |pd| && y < |pt| && pt[y] >= 0.0 && pd[y] >= 0.0
    ensures Pointwise(pt, pd, y)
  {
    AcceptLoss(pt, pd, y);
    hide AcceptProb;
    Expand(pd[y], 1.0, AcceptProb(pt, pd, y));
  }

  /** The rejected mass is the missing target mass plus the accumulated loss. */
  lemma RejectedMass(pt: seq<real>, pd: seq<real>)
    requires |pt| == |pd| && Distribution(pt) && Distribution(pd)
    ensures Sum(Rejected(pt, pd), |pd|) == AdjustedSum(pt, pd) + Sum(Loss(pt, pd), |pd|)
    ensures 0.0 <= Sum(Loss(pt, pd), |pd|) <= |pd| as real * EPS
    ensures AdjustedSum(pt, pd) >= 0.0
  {
    var n := |pd|;
    var acc, rej, over, loss, adj := Accepted(pt, pd), Rejected(pt, pd), Overlap(pt, pd), Loss(pt, pd),
        AdjustedEntries(pt, pd);
    forall y | 0 <= y < n ensures Pointwise(pt, pd, y) { PointwiseHolds(pt, pd, y); }
    hide Accepted, Rejected, Overlap, Loss, AdjustedEntries, Entries;
    forall y | 0 <= y < n
      ensures Entries(pd)(y) == acc(y) + rej(y) && over(y) == loss(y) + acc(y) && Entries(pt)(y) == over(y) + adj(y)
      ensures 0.0 <= loss(y) <= EPS && adj(y) >= 0.0
    {
      assert Pointwise(pt, pd, y);
    }
    hide Pointwise;
    SumPlus(acc, rej, Entries(pd), n);
    SumPlus(loss, acc, over, n);
    SumPlus(over, adj, Entries(pt), n);
    SumBounds(loss, n, 0.0, EPS);
    SumBoundsLow(adj, n);
  }

  /**
   With exact probabilities, rejection sampling with the code's epsilon emits every token with the
   target's probability up to a few epsilon, the degenerate uniform branch included.
   */
  lemma RejectionSamplingClose(pt: seq<real>, pd: seq<real>, x: nat)
    requires |pt| == |pd| && x < |pt| && Distribution(pt) && Distribution(pd)
    ensures -2.0 * EPS <= EmitMass(pt, pd, x) - pt[x] <= (|pt| + 1) as real * EPS
  {
    hide Sum, AcceptProb, Rejected, ResampleMass, Distribution;
    Shares(pt, pd, x);
  }

  lemma Shares(pt: seq<real>, pd: seq<real>, x: nat)
    requires |pt| == |pd| && x < |pt| && Distribution(pt) && Distribution(pd)
    ensures NearTarget(pd[x] * AcceptProb(pt, pd, x), Sum(Rejected(pt, pd), |pd|), ResampleMass(pt, pd, x), pt[x], |pt|)
  {
    AcceptLoss(pt, pd, x);
    hide Sum, Distribution, AcceptProb, Adjusted, AdjustedSum, MinReal, Rejected, Loss, NearTarget;
    RejectedMass(pt, pd);
    AdjustedShare(pt, pd, x);
    Close(pt[x], MinReal(pt[x], pd[x]), pd[x] * AcceptProb(pt, pd, x), Adjusted(pt, pd, x), AdjustedSum(pt, pd),
      Sum(Loss(pt, pd), |pd|), Sum(Rejected(pt, pd), |pd|), |pt|, ResampleMass(pt, pd, x));
  }

  ghost predicate NearTarget(acc: real, rej: real, mass: real, target: real, n: nat) {
    -2.0 * EPS <= acc + rej * mass - target <= (n + 1) as real * EPS
  }

  /** The arithmetic of the two branches. */
  lemma Close(target: real, overlap: real, acc: real, adj: real, s: real, e: real, rej: real, n: nat, mass: real)
    requires n >= 1 && target == overlap + adj && overlap - EPS <= acc <= overlap && 0.0 <= adj <= s
    requires 0.0 <= e <= n as real * EPS && rej == s + e
    requires mass == if s < EPS then 1.0 / (n as real) else adj / s
    ensures NearTarget(acc, rej, mass, target, n)
  {
    var share := rej * mass;
    assert share <= adj + n as real * EPS + EPS && share >= adj - EPS by {
      if s < EPS { UniformShare(rej, n, mass); } else { ShareOf(adj, s, e, rej, mass); }
    }
  }

  lemma AdjustedShare(pt: seq<real>, pd: seq<real>, x: nat)
    requires |pt| == |pd| && x < |pt| && Distribution(pt) && Distribution(pd)
    ensures 0.0 <= Adjusted(pt, pd, x) <= AdjustedSum(pt, pd)
    ensures pt[x] == MinReal(pt[x], pd[x]) + Adjusted(pt, pd, x)
  {
    SumAtLeast(AdjustedEntries(pt, pd), |pt|, x);
  }

  lemma UniformShare(r: real, n: nat, u: real)
    requires n >= 1 && 0.0 <= r <= EPS + n as real * EPS && u == 1.0 / (n as real)
    ensures 0.0 <= r * u <= 2.0 * EPS
  {
    var k := n as real;
    assert u * k == 1.0 && 0.0 < u <= 1.0;
    NonNegativeProduct(r, u);
    NonNegativeProduct(EPS + k * EPS - r, u);
    Expand(u, EPS + k * EPS, r);
    Expand(u, EPS, k * EPS);
    assert u * (k * EPS) == (u * k) * EPS;
    NonNegativeProduct(EPS, 1.0 - u);
  }

  lemma ShareOf(adj: real, s: real, e: real, rej: real, t: real)
    requires s > 0.0 && 0.0 <= adj <= s && e >= 0.0 && rej == s + e && t == adj / s
    ensures adj <= rej * t <= adj + e
  {
    assert t * s == adj;
    if t < 0.0 { NegativeProduct(t, s); }
    if t > 1.0 { NegativeProduct(1.0 - t, s); Expand(s, 1.0, t); }
    Expand(t, s, e);
    NonNegativeProduct(e, t);
    NonNegativeProduct(e, 1.0 - t);
    Expand(e, 1.0, t);
  }

  // ---- the engine ----

  /** Which token a uniform draw r selects: the first whose cumulative probability reaches r. */
  ghost predicate Selects(p: seq<real>, r: real, i: int) {
    && 0 <= i < |p| && (forall k :: 0 < k <= i ==> Sum(Entries(p), k) < r)
    && (r <= Sum(Entries(p), i + 1) || i == |p| - 1)
  }

  lemma {:induction false} CdfMonotone(p: seq<real>, a: nat, b: nat)
    requires a <= b <= |p| && forall i :: 0 <= i < |p| ==> p[i] >= 0.0
    ensures Sum(Entries(p), a) <= Sum(Entries(p), b)
    decreases b
  {
    if a < b { CdfMonotone(p, a, b - 1); }
  }

  /** Inside the support the draws that select token i form an interval as long as its probability. */
  lemma SelectsInterval(p: seq<real>, r: real, i: nat)
    requires (forall k :: 0 <= k < |p| ==> p[k] >= 0.0) && i < |p| && 0.0 < r <= Sum(Entries(p), |p|)
    ensures Selects(p, r, i) <==> Sum(Entries(p), i) < r <= Sum(Entries(p), i + 1)
    ensures Sum(Entries(p), i + 1) - Sum(Entries(p), i) == p[i]
  {
    forall k | 0 < k <= i ensures Sum(Entries(p), k) <= Sum(Entries(p), i) { CdfMonotone(p, k, i); }
  }

  /** The normalised positive part, as a list of probabilities. */
  function Normalised(pt: seq<real>, pd: seq<real>): seq<real>
    requires AdjustedSum(pt, pd) > 0.0
  {
    seq(|pt|, k requires 0 <= k < |pt| => Adjusted(pt, pd, k) / AdjustedSum(pt, pd))
  }

  /** The token drawn after a rejection: from the normalised adjusted distribution, or uniformly. */
  ghost predicate Resamples(pt: seq<real>, pd: seq<real>, r: real, uniform: int, i: int) {
    var s := AdjustedSum(pt, pd);
    if s < EPS then i == uniform
    else Selects(Normalised(pt, pd), r, i)
  }

  lemma {:induction false} SumNormalised(pt: seq<real>, pd: seq<real>, n: nat)
    requires n <= |pt| && AdjustedSum(pt, pd) > 0.0
    ensures Sum(Entries(Normalised(pt, pd)), n) == Sum(AdjustedEntries(pt, pd), n) / AdjustedSum(pt, pd)
  {
    var s := AdjustedSum(pt, pd);
    if n > 0 {
      SumNormalised(pt, pd, n - 1);
      hide AdjustedSum;
      SumQuotient(Sum(AdjustedEntries(pt, pd), n - 1), Adjusted(pt, pd, n - 1), s);
    } else {
      hide AdjustedSum;
      assert 0.0 / s == 0.0;
    }
  }

  lemma SumQuotient(a: real, b: real, s: real)
    requires s > 0.0
    ensures (a + b) / s == a / s + b / s
  {
  }

  /**
   After a rejection the draws that give token i form an interval of the unit draws whose length is the mass the
   token has in the mass theorem; if the positive part vanishes the uniform draw decides, each token alike.
   */
  lemma ResamplesMass(pt: seq<real>, pd: seq<real>, r: real, uniform: int, i: nat)
    requires i < |pt| && 0.0 < r <= 1.0
    ensures AdjustedSum(pt, pd) >= EPS ==>
              var s, f := AdjustedSum(pt, pd), AdjustedEntries(pt, pd);
              && (Resamples(pt, pd, r, uniform, i) <==> Sum(f, i) / s < r <= Sum(f, i + 1) / s)
              && Sum(f, i + 1) / s - Sum(f, i) / s == ResampleMass(pt, pd, i)
    ensures AdjustedSum(pt, pd) < EPS ==>
              && (Resamples(pt, pd, r, uniform, i) <==> i == uniform)
              && ResampleMass(pt, pd, i) == 1.0 / |pt| as real
    ensures Adjusted(pt, pd, i) == if At(pt, i) > At(pd, i) then At(pt, i) - At(pd, i) else 0.0
  {
    if AdjustedSum(pt, pd) >= EPS {
      var p, f := Normalised(pt, pd), AdjustedEntries(pt, pd);
      SumNormalised(pt, pd, i);
      SumNormalised(pt, pd, i + 1);
      SumNormalised(pt, pd, |pt|);
      SumQuotient(Sum(f, i), Adjusted(pt, pd, i), AdjustedSum(pt, pd));
      forall k | 0 <= k < |p| ensures p[k] >= 0.0 { PositiveQuotient(Adjusted(pt, pd, k), AdjustedSum(pt, pd)); }
      One(AdjustedSum(pt, pd));
      SelectsInterval(p, r, i);
      hide Sum, Adjusted, Selects;
    }
  }

  lemma One(s: real)
    requires s > 0.0
    ensures s / s == 1.0
  {
  }

  lemma PositiveQuotient(a: real, s: real)
    requires a >= 0.0 && s > 0.0
    ensures a / s >= 0.0
  {
    var q := a / s;
    assert q * s == a;
    if q < 0.0 { NegativeProduct(q, s); }
  }

  class SpecDecodeEngine {
    var steps: nat
    var draftTokens: nat
    var acceptedTokens: nat
    var rejectedTokens: nat

    /** Every drafted token is counted as accepted or rejected. */
    ghost predicate Valid()
      reads this
    {
      acceptedTokens + rejectedTokens == draftTokens
    }

    constructor ()
      ensures Valid() && steps == 0 && draftTokens == 0
    {
      steps, draftTokens, acceptedTokens, rejectedTokens := 0, 0, 0, 0;
    }

    method VerifyGreedy(draft: seq<int>, target: seq<seq<real>>) returns (v: Verdict)
      requires Valid() && |target| > |draft|
      modifies this
      ensures Valid() && v == GreedyVerdict(draft, target)
      ensures v.accepted <= draft && v.bonus == ArgMax(target[|v.accepted|])
      ensures forall k :: 0 <= k < |v.accepted| ==> draft[k] == ArgMax(target[k])
      ensures |v.accepted| < |draft| ==> draft[|v.accepted|] != v.bonus
      ensures steps == old(steps) + 1 && draftTokens == old(draftTokens) + |draft|
      ensures acceptedTokens == old(acceptedTokens) + |v.accepted|
    {
      hide GreedyVerdict;
      steps, draftTokens := steps + 1, draftTokens + |draft|;
      var accepted := [];
      assert draft[0..] == draft && target[0..] == target;
      for i := 0 to |draft|
        invariant accepted == draft[..i] && steps == old(steps) + 1 && draftTokens == old(draftTokens) + |draft|
        invariant acceptedTokens == old(acceptedTokens) + i && rejectedTokens == old(rejectedTokens)
        invariant forall k :: 0 <= k < i ==> draft[k] == ArgMax(target[k])
        invariant var rest := GreedyVerdict(draft[i..], target[i..]);
                  GreedyVerdict(draft, target) == Verdict(accepted + rest.accepted, rest.bonus)
      {
        var tok := ArgMax(target[i]);
        VerdictStep(draft, target, i);
        if draft[i] == tok {
          accepted := accepted + [draft[i]];
          acceptedTokens := acceptedTokens + 1;
        } else {
          rejectedTokens := rejectedTokens + (|draft| - i);
          return Verdict(accepted, tok);
        }
      }
      VerdictEnd(draft, target);
      v := Verdict(accepted, ArgMax(target[|draft|]));
    }

    /** Categorical sampling by walking the cumulative sum. */
    method SampleFrom(p: seq<real>, r: real) returns (i: int)
      ensures p == [] ==> i == -1
      ensures p != [] ==> Selects(p, r, i)
    {
      var cum := 0.0;
      for k := 0 to |p|
        invariant cum == Sum(Entries(p), k) && forall k' :: 0 < k' <= k ==> Sum(Entries(p), k') < r
      {
        cum := cum + p[k];
        assert cum == Sum(Entries(p), k + 1);
        if r <= cum { return k; }
      }
      i := |p| - 1;
    }

    /** Samples from the normalised adjusted distribution, or uniformly when it vanishes. */
    method SampleFromAdjusted(pt: seq<real>, pd: seq<real>, r: real, uniform: nat) returns (i: int)
      requires uniform < |pt|
      ensures Resamples(pt, pd, r, uniform, i)
    {
      var adj := [];
      var sum := 0.0;
      for k := 0 to |pt|
        invariant |adj| == k && sum == Sum(AdjustedEntries(pt, pd), k)
        invariant forall k' :: 0 <= k' < k ==> adj[k'] == Adjusted(pt, pd, k')
      {
        var d := if k < |pd| then pd[k] else 0.0;
        var a := if 0.0 < pt[k] - d then pt[k] - d else 0.0;
        adj := adj + [a];
        sum := sum + a;
      }
      if sum < EPS { return uniform; }
      var norm := [];
      for k := 0 to |adj|
        invariant |norm| == k && forall k' :: 0 <= k' < k ==> norm[k'] == Adjusted(pt, pd, k') / sum
      {
        norm := norm + [adj[k] / sum];
      }
      assert norm == Normalised(pt, pd);
      i := SampleFrom(norm, r);
    }

    /**
     Rejection-sampling verification: the longest prefix of drafts that pass their acceptance tests,
     then one token from the target or, after a rejection, from the adjusted distribution.  `us`, `r`
     and `uniform` are the draws of the generator.
     */
    method Verify(draft: seq<nat>, pd: seq<seq<real>>, pt: seq<seq<real>>, us: seq<real>, r: real, uniform: nat)
      returns (v: Verdict)
      requires Valid() && |pd| == |draft| && |pt| == |draft| + 1 && |us| == |draft|
      requires forall i :: 0 <= i < |pt| ==> uniform < |pt[i]|
      modifies this
      ensures Valid() && steps == old(steps) + 1 && draftTokens == old(draftTokens) + |draft|
      ensures acceptedTokens == old(acceptedTokens) + |v.accepted|
      ensures v.accepted <= draft
      ensures forall k :: 0 <= k < |v.accepted| ==> us[k] <= AcceptProb(pt[k], pd[k], draft[k])
      ensures var n := |v.accepted|;
              if n == |draft| then Selects(pt[n], r, v.bonus)
              else us[n] > AcceptProb(pt[n], pd[n], draft[n]) && Resamples(pt[n], pd[n], r, uniform, v.bonus)
    {
      steps, draftTokens := steps + 1, draftTokens + |draft|;
      var accepted := [];
      for i := 0 to |draft|
        invariant accepted == draft[..i] && steps == old(steps) + 1 && draftTokens == old(draftTokens) + |draft|
        invariant acceptedTokens == old(acceptedTokens) + i && rejectedTokens == old(rejectedTokens)
        invariant forall k :: 0 <= k < i ==> us[k] <= AcceptProb(pt[k], pd[k], draft[k])
      {
        var x := draft[i];
        if us[i] <= AcceptProb(pt[i], pd[i], x) {
          accepted := accepted + [x];
          acceptedTokens := acceptedTokens + 1;
        } else {
          rejectedTokens := rejectedTokens + (|draft| - i);
          var bonus := SampleFromAdjusted(pt[i], pd[i], r, uniform);
          return Verdict(accepted, bonus);
        }
      }
      var bonus := SampleFrom(pt[|draft|], r);
      v := Verdict(accepted, bonus);
    }
  }
}
