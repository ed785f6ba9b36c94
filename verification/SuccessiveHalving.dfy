/** The successive-halving autotuner and the grid search it is compared with. */
module SuccessiveHalving {

  datatype Item<Cfg> = Item(cfg: Cfg, score: real)

  datatype SHResult<Cfg> = SHResult(best: Cfg, bestScore: real, totalEvals: int)

  datatype Outcome<Cfg> = Ok(value: SHResult<Cfg>) | Error(message: string)

  /** A measurement of a configuration with a number of repetitions; the last argument is the call's number. */
  type Measure<!Cfg> = (Cfg, int, nat) -> real

  /** The measurement depends on the configuration only. */
  ghost predicate Stationary<Cfg(!new)>(measure: Measure<Cfg>, f: Cfg -> real) {
    forall c, reps, call :: measure(c, reps, call) == f(c)
  }

  ghost predicate Sorted<Cfg>(s: seq<Item<Cfg>>) {
    forall i, j :: 0 <= i < j < |s| ==> s[i].score <= s[j].score
  }

  /** Any correct sort by score; equal scores may come in any order. */
  ghost predicate Sorts<Cfg(!new)>(order: seq<Item<Cfg>> -> seq<Item<Cfg>>) {
    forall s :: Sorted(order(s)) && multiset(order(s)) == multiset(s)
  }

  function Max(a: int, b: int): int { if a > b then a else b }
  function Min(a: int, b: int): int { if a < b then a else b }

  /** Conversion to an integer drops the fraction, on either side of zero. */
  function Trunc(x: real): int { if x >= 0.0 then x.Floor else -((-x).Floor) }

  /** How many candidates survive a round. */
  function Keep(n: nat, eta: real): (k: nat)
    requires eta >= 2.0 && n >= 1
    ensures 1 <= k && (n > 1 ==> k < n) && (k > 1 ==> k * eta.Floor <= n)
  {
    QuotientBound(n, eta.Floor);
    Max(1, n / eta.Floor)
  }

  /** Repetitions in the next round. */
  function NextReps(reps: int, maxReps: int, eta: real): int { Min(maxReps, Trunc(reps as real * eta)) }

  /** They are `eta` times as many, without the fraction, up to the limit. */
  lemma NextRepsIs(reps: int, maxReps: int, eta: real)
    ensures var r, x := NextReps(reps, maxReps, eta), reps as real * eta;
            && r <= maxReps
            && if r < maxReps then
                 (if x < 0.0 then (r - 1) as real < x <= r as real else r as real <= x < (r + 1) as real)
               else if x < 0.0 then (r - 1) as real < x else r as real <= x
  {
    var x := reps as real * eta;
    var f := Trunc(x);
    assert if x < 0.0 then (f - 1) as real < x <= f as real else f as real <= x < (f + 1) as real;
  }

  /** In one round the list shrinks exactly when the divisor is at least two. */
  lemma ShrinksIff(n: nat, e: nat)
    requires n > 1 && e >= 1
    ensures Max(1, n / e) < n <==> e >= 2
  {
    if e >= 2 { QuotientBound(n, e); } else { assert n / 1 == n; }
  }

  lemma QuotientBound(n: nat, eta: nat)
    requires eta >= 2 && n >= 1
    ensures 0 <= n / eta < n && n / eta * eta <= n
  {
    Division(n, eta);
    Product(2, n / eta, eta, n / eta);
  }

  lemma Division(n: nat, d: nat)
    requires d > 0
    ensures n / d >= 0 && n / d * d <= n
  {
    assert n == n / d * d + n % d;
  }

  /** Rounds until one candidate is left. */
  function Rounds(n: nat, eta: real): nat
    requires n >= 1 && (n == 1 || eta >= 2.0)
    decreases n
  {
    if n == 1 then 0 else 1 + Rounds(Keep(n, eta), eta)
  }

  /** Repetitions spent: every candidate in every round, and the survivor once more. */
  function Evals(n: nat, reps: int, maxReps: int, eta: real): int
    requires n >= 1 && (n == 1 || eta >= 2.0)
    decreases n
  {
    if n == 1 then maxReps else n * reps + Evals(Keep(n, eta), NextReps(reps, maxReps, eta), maxReps, eta)
  }

  /** Measurements taken before the last one. */
  function Calls(n: nat, eta: real): nat
    requires n >= 1 && (n == 1 || eta >= 2.0)
    decreases n
  {
    if n == 1 then 0 else n + Calls(Keep(n, eta), eta)
  }

  /** The size of the list after one round of the loop; with one candidate the loop has ended. */
  function Survivors(n: nat, eta: real): nat
    requires eta >= 1.0
  {
    if n <= 1 then n else Max(1, n / eta.Floor)
  }

  /** The size of the list after `k` rounds. */
  function Alive(n: nat, eta: real, k: nat): nat
    requires eta >= 1.0
    decreases k
  {
    if k == 0 then n else Alive(Survivors(n, eta), eta, k - 1)
  }

  lemma {:induction false} AliveEnds(n: nat, eta: real)
    requires n >= 1 && eta >= 2.0
    ensures Alive(n, eta, Rounds(n, eta)) == 1
    decreases n
  {
    if n > 1 { AliveEnds(Keep(n, eta), eta); }
  }

  /** Below two the list keeps its size for ever. */
  lemma {:induction false} AliveStays(n: nat, eta: real, k: nat)
    requires n > 1 && 1.0 <= eta < 2.0
    ensures Alive(n, eta, k) == n
    decreases k
  {
    ShrinksIff(n, eta.Floor);
    assert Survivors(n, eta) == n;
    if k > 0 { AliveStays(n, eta, k - 1); }
  }

  /** The loop ends, at one candidate, if and only if there is one to begin with or `eta` is at least two. */
  lemma HalvingEndsIff(n: nat, eta: real)
    requires n >= 1 && eta >= 1.0
    ensures (exists k: nat :: Alive(n, eta, k) == 1) <==> n == 1 || eta >= 2.0
  {
    if n == 1 {
      assert Alive(1, eta, 0) == 1;
    } else if eta >= 2.0 {
      AliveEnds(n, eta);
    } else {
      forall k: nat ensures Alive(n, eta, k) != 1 { AliveStays(n, eta, k); }
    }
  }

  function Pow(b: nat, k: nat): nat { if k == 0 then 1 else b * Pow(b, k - 1) }

  /** With `eta` two the rounds are the binary logarithm of the number of candidates, rounded down. */
  lemma {:induction false} RoundsIsLog(n: nat)
    requires n >= 1
    ensures Pow(2, Rounds(n, 2.0)) <= n < Pow(2, Rounds(n, 2.0) + 1)
    decreases n
  {
    if n > 1 {
      assert Keep(n, 2.0) == n / 2;
      RoundsIsLog(n / 2);
    }
  }

  // ---- the rounds in closed form ----

  /** Candidates measured in round `k`. */
  function SizeAt(n: nat, e: nat, k: nat): (s: nat)
    requires e >= 1
    ensures s >= 1
  {
    PowPositive(e, k);
    Division(n, Pow(e, k));
    if n / Pow(e, k) > 1 then n / Pow(e, k) else 1
  }

  lemma {:induction false} PowPositive(e: nat, k: nat)
    requires e >= 1
    ensures Pow(e, k) >= 1
  {
    if k > 0 {
      PowPositive(e, k - 1);
      Product(1, 1, e, Pow(e, k - 1));
    }
  }

  lemma DivideTwice(n: nat, a: nat, b: nat)
    requires a >= 1 && b >= 1
    ensures a * b >= 1 && n / a / b == n / (a * b)
  {
    var m := n / a;
    var q, r, s := m / b, n % a, m % b;
    Product(1, 1, a, b);
    assert n == m * a + r && m == q * b + s;
    Nested(n, m, q, a, b, r, s);
    QuotientIs(n, q, a * b, s * a + r);
  }

  lemma Nested(n: int, m: int, q: int, a: int, b: int, r: int, s: int)
    requires n == m * a + r && m == q * b + s && 0 <= r < a && 0 <= s < b
    ensures n == q * (a * b) + (s * a + r) && 0 <= s * a + r < a * b
  {
    assert m * a == q * b * a + s * a;
    assert q * b * a == q * (a * b);
    Product(s, a, b - 1, a);
    assert (b - 1) * a == a * b - a;
    Product(0, a, s, a);
  }

  lemma QuotientIs(n: int, q: int, d: int, r: int)
    requires d > 0 && n == q * d + r && 0 <= r < d
    ensures n / d == q
  {
    assert n == n / d * d + n % d;
    FurtherApart(n / d, q, d);
    FurtherApart(q, n / d, d);
  }

  lemma FurtherApart(x: int, y: int, d: int)
    requires d > 0
    ensures x > y ==> x * d >= y * d + d
  {
    if x > y {
      Product(1, d, x - y, d);
      assert (x - y) * d == x * d - y * d;
    }
  }

  /** While more than one candidate is left, a round divides by the whole part of `eta`. */
  lemma SizeStep(n: nat, eta: real, k: nat)
    requires eta >= 2.0 && SizeAt(n, eta.Floor, k) > 1
    ensures Keep(SizeAt(n, eta.Floor, k), eta) == SizeAt(n, eta.Floor, k + 1)
  {
    var e := eta.Floor;
    PowPositive(e, k);
    DivideTwice(n, Pow(e, k), e);
    assert Pow(e, k + 1) == Pow(e, k) * e;
  }

  /** Repetitions in round `k`, for whole `eta`. */
  function RepsAt(minReps: int, maxReps: int, e: nat, k: nat): int {
    if k == 0 || minReps * Pow(e, k) < maxReps then minReps * Pow(e, k) else maxReps
  }

  lemma RepsStep(minReps: int, maxReps: int, eta: real, k: nat)
    requires eta >= 2.0 && eta == eta.Floor as real && minReps >= 1 && maxReps >= 0
    ensures NextReps(RepsAt(minReps, maxReps, eta.Floor, k), maxReps, eta) == RepsAt(minReps, maxReps, eta.Floor, k + 1)
  {
    var e := eta.Floor;
    var r, x := RepsAt(minReps, maxReps, e, k), minReps * Pow(e, k);
    WholeNext(r, maxReps, eta);
    PowPositive(e, k);
    Product(1, 1, minReps, Pow(e, k));
    OneMorePower(minReps, e, k);
    hide Pow, NextReps, Min;
    CappedStep(x, maxReps, e, k == 0);
  }

  lemma WholeNext(reps: int, maxReps: int, eta: real)
    requires eta == eta.Floor as real
    ensures NextReps(reps, maxReps, eta) == Min(maxReps, reps * eta.Floor)
  {
    WholeProduct(reps, eta.Floor);
    NextRepsOf(reps, maxReps, eta, reps as real * eta.Floor as real);
    hide NextReps;
  }

  lemma NextRepsOf(reps: int, maxReps: int, eta: real, x: real)
    requires x == reps as real * eta
    ensures NextReps(reps, maxReps, eta) == Min(maxReps, Trunc(x))
  {
  }

  lemma OneMorePower(m: int, e: nat, k: nat)
    ensures m * Pow(e, k + 1) == m * Pow(e, k) * e
  {
    var p := Pow(e, k);
    assert m * (e * p) == m * p * e;
  }

  /** The limit, once reached, stays. */
  lemma CappedStep(x: int, cap: int, e: nat, first: bool)
    requires x >= 1 && cap >= 0 && e >= 2
    ensures var r := if first || x < cap then x else cap;
            Min(cap, r * e) == if x * e < cap then x * e else cap
  {
    Product(x, 1, x, e);
    Product(cap, 1, cap, e);
  }

  /** The repetitions spent in each round. */
  function CostAt(n: nat, minReps: int, maxReps: int, e: nat): (f: nat -> int)
    requires e >= 1
    ensures forall k: nat ::
              Pow(e, k) >= 1
              && f(k) == (if n / Pow(e, k) > 1 then n / Pow(e, k) else 1)
                         * (if k == 0 || minReps * Pow(e, k) < maxReps then minReps * Pow(e, k) else maxReps)
  {
    forall k: nat ensures Pow(e, k) >= 1 { PowPositive(e, k); }
    (k: nat) => SizeAt(n, e, k) * RepsAt(minReps, maxReps, e, k)
  }

  /** The sum of f from `lo` up to `hi`. */
  function Total(f: nat -> int, lo: nat, hi: nat): int
    decreases hi - lo
  {
    if lo >= hi then 0 else f(lo) + Total(f, lo + 1, hi)
  }

  /** Rounds are played exactly while more than one candidate is left. */
  lemma {:induction false} RoundsFrom(n: nat, eta: real, k: nat)
    requires n >= 1 && eta >= 2.0 && k <= Rounds(n, eta)
    ensures Rounds(SizeAt(n, eta.Floor, k), eta) == Rounds(n, eta) - k
    ensures SizeAt(n, eta.Floor, k) > 1 <==> k < Rounds(n, eta)
  {
    if k == 0 {
      assert n / 1 == n;
    } else {
      RoundsFrom(n, eta, k - 1);
      SizeStep(n, eta, k - 1);
    }
  }

  lemma {:induction false} EvalsFrom(n: nat, minReps: int, maxReps: int, eta: real, k: nat)
    requires n >= 1 && eta >= 2.0 && eta == eta.Floor as real && minReps >= 1 && maxReps >= 0 && k <= Rounds(n, eta)
    ensures var e := eta.Floor;
            Evals(SizeAt(n, e, k), RepsAt(minReps, maxReps, e, k), maxReps, eta) ==
              Total(CostAt(n, minReps, maxReps, e), k, Rounds(n, eta)) + maxReps
    decreases Rounds(n, eta) - k
  {
    RoundsFrom(n, eta, k);
    EvalsStep(SizeAt(n, eta.Floor, k), RepsAt(minReps, maxReps, eta.Floor, k), maxReps, eta);
    if k < Rounds(n, eta) {
      SizeStep(n, eta, k);
      RepsStep(minReps, maxReps, eta, k);
      EvalsFrom(n, minReps, maxReps, eta, k + 1);
    }
    hide Evals, SizeAt, RepsAt, Rounds, Keep, NextReps;
  }

  /**
   For whole `eta` the repetitions spent, in closed form: in round k, n / eta^k candidates with
   min(maxReps, minReps * eta^k) repetitions each, while more than one candidate is left.
   */
  lemma EvalsAre(n: nat, minReps: int, maxReps: int, eta: real)
    requires n >= 1 && eta >= 2.0 && eta == eta.Floor as real && minReps >= 1 && maxReps >= 0
    ensures var e, rounds := eta.Floor, Rounds(n, eta);
            && Evals(n, minReps, maxReps, eta) == Total(CostAt(n, minReps, maxReps, e), 0, rounds) + maxReps
            && forall k: nat :: k <= rounds ==> Pow(e, k) >= 1 && (k < rounds <==> n / Pow(e, k) > 1)
  {
    EvalsFrom(n, minReps, maxReps, eta, 0);
    assert n / 1 == n;
    forall k: nat | k <= Rounds(n, eta)
      ensures Pow(eta.Floor, k) >= 1 && (k < Rounds(n, eta) <==> n / Pow(eta.Floor, k) > 1)
    {
      PowPositive(eta.Floor, k);
      RoundsFrom(n, eta, k);
    }
  }

  lemma Product(a: int, b: int, c: int, d: int)
    requires 0 <= a && a <= c && b <= d && 0 <= d
    ensures a * b <= c * d
  {
    assert a * b <= a * d;
    assert a * d <= c * d;
  }

  /** Each round costs no more than the first: the survivors shrink as fast as the repetitions grow. */
  lemma {:induction false} EvalsBound(n: nat, reps: int, maxReps: int, eta: real, budget: nat)
    requires eta >= 2.0 && eta == eta.Floor as real && n >= 1 && (n > 1 ==> n * reps <= budget)
    ensures Evals(n, reps, maxReps, eta) <= budget * Rounds(n, eta) + maxReps
    decreases n
  {
    if n > 1 {
      var e := eta.Floor;
      var k, r := Keep(n, eta), NextReps(reps, maxReps, eta);
      WholeProduct(reps, e);
      if k > 1 { RoundShrinks(n, k, reps, r, e, budget); }
      EvalsBound(k, r, maxReps, eta, budget);
      OneMoreRound(budget, Rounds(k, eta));
    }
  }

  /** Scaling by a whole number is exact. */
  lemma WholeProduct(reps: int, e: int)
    ensures Trunc(reps as real * e as real) == reps * e
  {
    if reps >= 0 { RealProduct(reps, e); } else { RealProduct(-reps, e); }
    assert reps as real * e as real == (reps * e) as real;
  }

  lemma {:induction false} RealProduct(a: nat, e: int)
    ensures a as real * e as real == (a * e) as real
  {
    if a > 0 {
      RealProduct(a - 1, e);
      assert a * e == (a - 1) * e + e;
      assert a as real * e as real == (a - 1) as real * e as real + e as real;
    }
  }

  lemma OneMoreRound(budget: nat, rounds: nat)
    ensures budget * (1 + rounds) == budget + budget * rounds
  {
  }

  lemma RoundShrinks(n: nat, k: nat, reps: int, r: int, eta: nat, budget: nat)
    requires k * eta <= n && r <= reps * eta && n * reps <= budget
    ensures k * r <= budget
  {
    assert k * r <= k * (reps * eta);
    assert k * (reps * eta) == (k * eta) * reps;
    if reps >= 0 { Product(k * eta, reps, n, reps); }
    else { assert (k * eta) * reps <= 0; }
  }

  /** Every candidate is matched or beaten by an item. */
  ghost predicate Covers<Cfg>(alive: seq<Item<Cfg>>, candidates: seq<Cfg>, f: Cfg -> real) {
    forall c :: c in candidates ==> exists i :: 0 <= i < |alive| && f(alive[i].cfg) <= f(c)
  }

  ghost predicate From<Cfg>(alive: seq<Item<Cfg>>, candidates: seq<Cfg>) {
    forall i :: 0 <= i < |alive| ==> alive[i].cfg in candidates
  }

  lemma SortKeepsItems<Cfg(!new)>(s: seq<Item<Cfg>>, t: seq<Item<Cfg>>)
    requires multiset(t) == multiset(s)
    ensures |t| == |s| && forall x :: x in s <==> x in t
  {
    assert |multiset(t)| == |t| && |multiset(s)| == |s|;
    assert forall x :: x in s <==> x in multiset(s);
    assert forall x :: x in t <==> x in multiset(t);
  }

  /** A round with a stationary measure: the best item comes first, so it survives. */
  lemma RoundKeepsBest<Cfg(!new)>(alive: seq<Item<Cfg>>, sorted: seq<Item<Cfg>>, keep: nat, candidates: seq<Cfg>,
                                  f: Cfg -> real)
    requires Sorted(sorted) && multiset(sorted) == multiset(alive) && 1 <= keep <= |alive|
    requires forall i :: 0 <= i < |alive| ==> alive[i].score == f(alive[i].cfg)
    requires Covers(alive, candidates, f)
    ensures keep <= |sorted| && Covers(sorted[..keep], candidates, f)
  {
    SortKeepsItems(alive, sorted);
    forall x | x in sorted ensures x.score == f(x.cfg) && sorted[0].score <= x.score {
      assert x in alive;
    }
    assert sorted[0] in sorted;
    forall c | c in candidates ensures f(sorted[..keep][0].cfg) <= f(c) {
      var i :| 0 <= i < |alive| && f(alive[i].cfg) <= f(c);
      assert alive[i] in sorted;
    }
  }

  lemma RoundKeepsSource<Cfg(!new)>(alive: seq<Item<Cfg>>, sorted: seq<Item<Cfg>>, keep: nat, candidates: seq<Cfg>)
    requires multiset(sorted) == multiset(alive) && keep <= |alive| && From(alive, candidates)
    ensures keep <= |sorted| && From(sorted[..keep], candidates)
  {
    SortKeepsItems(alive, sorted);
    forall i | 0 <= i < keep ensures sorted[i].cfg in candidates {
      assert sorted[i] in sorted;
      assert sorted[i] in alive;
    }
  }

  // ---- the rounds of one search ----

  /** One round: the items with their new scores, in the order they were measured, and how. */
  datatype RoundLog<Cfg> = RoundLog(items: seq<Item<Cfg>>, reps: int, calls: nat)

  /** Every item was measured once, one call after the other, with the round's repetitions. */
  ghost predicate MeasuredOnce<Cfg(!new)>(measure: Measure<Cfg>, log: RoundLog<Cfg>) {
    forall i :: 0 <= i < |log.items| ==> log.items[i].score == measure(log.items[i].cfg, log.reps, log.calls + i)
  }

  /** The list that the next round works on: all candidates at first, then the best of the last round. */
  ghost predicate Enters<Cfg(!new)>(candidates: seq<Cfg>, order: seq<Item<Cfg>> -> seq<Item<Cfg>>, eta: real,
                                    past: seq<RoundLog<Cfg>>, items: seq<Item<Cfg>>) {
    if past == [] then
      |items| == |candidates| && forall i :: 0 <= i < |items| ==> items[i].cfg == candidates[i]
    else
      var last := past[|past| - 1].items;
      && eta.Floor > 0 && |items| == Max(1, |last| / eta.Floor) && |items| <= |order(last)|
      && forall i :: 0 <= i < |items| ==> items[i].cfg == order(last)[i].cfg
  }

  /** How the next round measures: repetitions grow by `eta` up to the limit, calls are numbered in sequence. */
  ghost predicate Measures<Cfg(!new)>(minReps: int, maxReps: int, eta: real, past: seq<RoundLog<Cfg>>, reps: int,
                                      calls: nat) {
    if past == [] then reps == minReps && calls == 0
    else
      var last := past[|past| - 1];
      && reps == NextReps(last.reps, maxReps, eta) && calls == last.calls + |last.items|
  }

  /** A round as the source plays it, while more than one item is left. */
  ghost predicate Plays<Cfg(!new)>(candidates: seq<Cfg>, measure: Measure<Cfg>, minReps: int, maxReps: int, eta: real,
                                   order: seq<Item<Cfg>> -> seq<Item<Cfg>>, past: seq<RoundLog<Cfg>>,
                                   log: RoundLog<Cfg>) {
    && |log.items| > 1 && MeasuredOnce(measure, log) && Enters(candidates, order, eta, past, log.items)
    && Measures(minReps, maxReps, eta, past, log.reps, log.calls)
  }

  ghost predicate Follows<Cfg(!new)>(candidates: seq<Cfg>, measure: Measure<Cfg>, minReps: int, maxReps: int, eta: real,
                                     order: seq<Item<Cfg>> -> seq<Item<Cfg>>, trace: seq<RoundLog<Cfg>>) {
    forall k :: 0 <= k < |trace| ==>
      Plays(candidates, measure, minReps, maxReps, eta, order, trace[..k], trace[k])
  }

  /** One more round. */
  lemma Played<Cfg(!new)>(candidates: seq<Cfg>, measure: Measure<Cfg>, minReps: int, maxReps: int, eta: real,
                          order: seq<Item<Cfg>> -> seq<Item<Cfg>>, trace: seq<RoundLog<Cfg>>, items: seq<Item<Cfg>>,
                          log: RoundLog<Cfg>, alive: seq<Item<Cfg>>)
    requires Follows(candidates, measure, minReps, maxReps, eta, order, trace) && eta >= 2.0
    requires Enters(candidates, order, eta, trace, items) && |log.items| == |items| > 1
    requires Measures(minReps, maxReps, eta, trace, log.reps, log.calls) && MeasuredOnce(measure, log)
    requires forall i :: 0 <= i < |items| ==> log.items[i].cfg == items[i].cfg
    requires |alive| == Max(1, |items| / eta.Floor) && |alive| <= |order(log.items)|
    requires alive == order(log.items)[..|alive|]
    ensures Follows(candidates, measure, minReps, maxReps, eta, order, trace + [log])
    ensures Enters(candidates, order, eta, trace + [log], alive)
    ensures Measures(minReps, maxReps, eta, trace + [log], NextReps(log.reps, maxReps, eta), log.calls + |items|)
  {
    PlayedNow(candidates, measure, minReps, maxReps, eta, order, trace, items, log);
    PlayedOn(candidates, measure, minReps, maxReps, eta, order, trace, log);
    NextList(candidates, order, eta, trace, log, alive);
    NextMeasures(minReps, maxReps, eta, trace, log);
    hide Plays, Follows, Enters, Measures, NextReps;
  }

  lemma PlayedNow<Cfg(!new)>(candidates: seq<Cfg>, measure: Measure<Cfg>, minReps: int, maxReps: int, eta: real,
                             order: seq<Item<Cfg>> -> seq<Item<Cfg>>, trace: seq<RoundLog<Cfg>>,
                             items: seq<Item<Cfg>>, log: RoundLog<Cfg>)
    requires Enters(candidates, order, eta, trace, items) && |log.items| == |items| > 1
    requires forall i :: 0 <= i < |items| ==> log.items[i].cfg == items[i].cfg
    requires Measures(minReps, maxReps, eta, trace, log.reps, log.calls) && MeasuredOnce(measure, log)
    ensures Plays(candidates, measure, minReps, maxReps, eta, order, trace, log)
  {
    hide MeasuredOnce, Measures;
  }

  lemma PlayedOn<Cfg(!new)>(candidates: seq<Cfg>, measure: Measure<Cfg>, minReps: int, maxReps: int, eta: real,
                            order: seq<Item<Cfg>> -> seq<Item<Cfg>>, trace: seq<RoundLog<Cfg>>, log: RoundLog<Cfg>)
    requires Follows(candidates, measure, minReps, maxReps, eta, order, trace)
    requires Plays(candidates, measure, minReps, maxReps, eta, order, trace, log)
    ensures Follows(candidates, measure, minReps, maxReps, eta, order, trace + [log])
  {
    hide Plays;
    var t := trace + [log];
    forall k | 0 <= k < |t| ensures Plays(candidates, measure, minReps, maxReps, eta, order, t[..k], t[k]) {
      if k < |trace| { assert t[..k] == trace[..k]; } else { assert t[..k] == trace; }
    }
  }

  lemma NextList<Cfg(!new)>(candidates: seq<Cfg>, order: seq<Item<Cfg>> -> seq<Item<Cfg>>, eta: real,
                            trace: seq<RoundLog<Cfg>>, log: RoundLog<Cfg>, alive: seq<Item<Cfg>>)
    requires eta >= 2.0 && |alive| == Max(1, |log.items| / eta.Floor) && |alive| <= |order(log.items)|
    requires alive == order(log.items)[..|alive|]
    ensures Enters(candidates, order, eta, trace + [log], alive)
  {
  }

  lemma NextMeasures<Cfg(!new)>(minReps: int, maxReps: int, eta: real, trace: seq<RoundLog<Cfg>>, log: RoundLog<Cfg>)
    ensures Measures(minReps, maxReps, eta, trace + [log], NextReps(log.reps, maxReps, eta), log.calls + |log.items|)
  {
    hide NextReps;
  }

  lemma NothingPlayed<Cfg(!new)>(candidates: seq<Cfg>, measure: Measure<Cfg>, minReps: int, maxReps: int, eta: real,
                                 order: seq<Item<Cfg>> -> seq<Item<Cfg>>, items: seq<Item<Cfg>>)
    requires |items| == |candidates| && forall i :: 0 <= i < |items| ==> items[i].cfg == candidates[i]
    ensures Follows(candidates, measure, minReps, maxReps, eta, order, [])
    ensures Enters(candidates, order, eta, [], items) && Measures<Cfg>(minReps, maxReps, eta, [], minReps, 0)
  {
  }

  lemma Ends<Cfg(!new)>(candidates: seq<Cfg>, order: seq<Item<Cfg>> -> seq<Item<Cfg>>, eta: real,
                        trace: seq<RoundLog<Cfg>>, alive: seq<Item<Cfg>>, score: real)
    requires Enters(candidates, order, eta, trace, alive) && |alive| == 1
    ensures Enters(candidates, order, eta, trace, [Item(alive[0].cfg, score)])
  {
  }

  /**
   The autotuner. `f` is the score of each configuration when measurements are stationary. The count of
   repetitions is exact; the result is then a configuration of least score.
   */
  method Halve<Cfg(!new)>(
      candidates: seq<Cfg>, measure: Measure<Cfg>, minReps: int, maxReps: int, eta: real,
      order: seq<Item<Cfg>> -> seq<Item<Cfg>>, ghost f: Cfg -> real)
      returns (r: Outcome<Cfg>, ghost trace: seq<RoundLog<Cfg>>)
    requires (|candidates| <= 1 || eta >= 2.0) && Sorts(order)
    ensures r.Error? <==> candidates == []
    ensures Follows(candidates, measure, minReps, maxReps, eta, order, trace)
    ensures r.Ok? ==> Enters(candidates, order, eta, trace, [Item(r.value.best, r.value.bestScore)])
    ensures r.Ok? && eta >= 2.0 && eta == eta.Floor as real && minReps >= 1 && maxReps >= 0 ==>
              && r.value.totalEvals ==
                   Total(CostAt(|candidates|, minReps, maxReps, eta.Floor), 0, |trace|) + maxReps
              && forall k: nat :: k <= |trace| ==>
                   Pow(eta.Floor, k) >= 1 && (k < |trace| <==> |candidates| / Pow(eta.Floor, k) > 1)
    ensures r.Ok? ==> r.value.best in candidates && r.value.totalEvals == Evals(|candidates|, minReps, maxReps, eta)
    ensures r.Ok? ==> r.value.bestScore == measure(r.value.best, maxReps, Calls(|candidates|, eta))
    ensures r.Ok? && Stationary(measure, f) ==>
              r.value.bestScore == f(r.value.best) && forall c :: c in candidates ==> r.value.bestScore <= f(c)
  {
    hide Evals, Calls, Rounds, Keep, Sorts, Stationary, Covers, From, Follows, Enters, Measures, MeasuredOnce, NextReps,
      Total, CostAt;
    trace := [];
    if candidates == [] {
      NothingPlayed(candidates, measure, minReps, maxReps, eta, order, []);
      return Error("successive_halving: candidates is empty"), [];
    }
    var alive := Enter(candidates, f);
    NothingPlayed(candidates, measure, minReps, maxReps, eta, order, alive);
    var totalEvals, calls;
    alive, totalEvals, calls, trace := Play(alive, candidates, measure, minReps, maxReps, eta, order, f);
    Survivor(alive, candidates, f);
    var score := measure(alive[0].cfg, maxReps, calls);
    Measured(measure, f, alive[0].cfg, maxReps, calls);
    totalEvals := totalEvals + maxReps;
    if eta >= 2.0 && eta == eta.Floor as real && minReps >= 1 && maxReps >= 0 {
      EvalsAre(|candidates|, minReps, maxReps, eta);
    }
    Ends(candidates, order, eta, trace, alive, score);
    r := Ok(SHResult(alive[0].cfg, score, totalEvals));
  }

  /** All rounds, until one item is left. */
  method Play<Cfg(!new)>(
      items: seq<Item<Cfg>>, ghost candidates: seq<Cfg>, measure: Measure<Cfg>, minReps: int, maxReps: int, eta: real,
      order: seq<Item<Cfg>> -> seq<Item<Cfg>>, ghost f: Cfg -> real)
      returns (alive: seq<Item<Cfg>>, totalEvals: int, calls: nat, ghost trace: seq<RoundLog<Cfg>>)
    requires |items| >= 1 && (|items| == 1 || eta >= 2.0) && Sorts(order) && From(items, candidates)
    requires Covers(items, candidates, f) && Enters(candidates, order, eta, [], items)
    requires Follows(candidates, measure, minReps, maxReps, eta, order, [])
    requires Measures<Cfg>(minReps, maxReps, eta, [], minReps, 0)
    ensures |alive| == 1 && From(alive, candidates) && (Stationary(measure, f) ==> Covers(alive, candidates, f))
    ensures totalEvals + maxReps == Evals(|items|, minReps, maxReps, eta) && calls == Calls(|items|, eta)
    ensures Follows(candidates, measure, minReps, maxReps, eta, order, trace)
    ensures Enters(candidates, order, eta, trace, alive) && |trace| == Rounds(|items|, eta)
  {
    hide Evals, Calls, Rounds, Keep, Sorts, Stationary, Covers, From, Follows, Enters, Measures, MeasuredOnce, NextReps;
    var reps;
    alive, totalEvals, reps, calls, trace := items, 0, minReps, 0, [];
    while |alive| > 1
      invariant |alive| >= 1 && (|alive| > 1 ==> eta >= 2.0) && From(alive, candidates)
      invariant totalEvals + Evals(|alive|, reps, maxReps, eta) == Evals(|items|, minReps, maxReps, eta)
      invariant calls + Calls(|alive|, eta) == Calls(|items|, eta)
      invariant Stationary(measure, f) ==> Covers(alive, candidates, f)
      invariant Follows(candidates, measure, minReps, maxReps, eta, order, trace)
      invariant Enters(candidates, order, eta, trace, alive) && Measures(minReps, maxReps, eta, trace, reps, calls)
      invariant |trace| + Rounds(|alive|, eta) == Rounds(|items|, eta)
      decreases |alive|
    {
      EvalsStep(|alive|, reps, maxReps, eta);
      ghost var scored;
      ghost var before, calls0 := alive, calls;
      alive, totalEvals, calls, scored := Round(alive, totalEvals, measure, reps, calls, eta, order, candidates, f);
      Played(candidates, measure, minReps, maxReps, eta, order, trace, before, RoundLog(scored, reps, calls0), alive);
      trace := trace + [RoundLog(scored, reps, calls0)];
      reps := NextReps(reps, maxReps, eta);
      if reps >= maxReps && |alive| == 1 { break; }
    }
    EvalsStep(1, reps, maxReps, eta);
  }

  lemma EvalsStep(n: nat, reps: int, maxReps: int, eta: real)
    requires n >= 1 && (n == 1 || eta >= 2.0)
    ensures Evals(n, reps, maxReps, eta) ==
            if n == 1 then maxReps else n * reps + Evals(Keep(n, eta), NextReps(reps, maxReps, eta), maxReps, eta)
    ensures Calls(n, eta) == if n == 1 then 0 else n + Calls(Keep(n, eta), eta)
    ensures Rounds(n, eta) == if n == 1 then 0 else 1 + Rounds(Keep(n, eta), eta)
  {
  }

  lemma Survivor<Cfg(!new)>(alive: seq<Item<Cfg>>, candidates: seq<Cfg>, f: Cfg -> real)
    requires |alive| == 1 && From(alive, candidates)
    ensures alive[0].cfg in candidates
    ensures Covers(alive, candidates, f) ==> forall c :: c in candidates ==> f(alive[0].cfg) <= f(c)
  {
  }

  lemma Measured<Cfg(!new)>(measure: Measure<Cfg>, f: Cfg -> real, c: Cfg, reps: int, call: nat)
    ensures Stationary(measure, f) ==> measure(c, reps, call) == f(c)
  {
  }

  /** Every candidate enters unscored. */
  method Enter<Cfg(!new)>(candidates: seq<Cfg>, ghost f: Cfg -> real) returns (alive: seq<Item<Cfg>>)
    ensures forall i :: 0 <= i < |candidates| ==> i < |alive| && alive[i].cfg == candidates[i]
    ensures |alive| == |candidates| && From(alive, candidates) && Covers(alive, candidates, f)
  {
    alive := [];
    for i := 0 to |candidates|
      invariant |alive| == i && forall j :: 0 <= j < i ==> alive[j] == Item(candidates[j], 0.0)
    {
      alive := alive + [Item(candidates[i], 0.0)];
    }
    forall c | c in candidates ensures exists i :: 0 <= i < |alive| && f(alive[i].cfg) <= f(c) {
      var i :| 0 <= i < |candidates| && candidates[i] == c;
      assert f(alive[i].cfg) <= f(c);
    }
  }

  /** Measure, sort and drop the worst. */
  method Round<Cfg(!new)>(
      items: seq<Item<Cfg>>, evals: int, measure: Measure<Cfg>, reps: int, calls: nat, eta: real,
      order: seq<Item<Cfg>> -> seq<Item<Cfg>>, ghost candidates: seq<Cfg>, ghost f: Cfg -> real)
      returns (alive: seq<Item<Cfg>>, evals': int, calls': nat, ghost scored: seq<Item<Cfg>>)
    requires eta >= 2.0 && Sorts(order) && |items| > 1 && From(items, candidates)
    ensures |alive| == Keep(|items|, eta) == Max(1, |items| / eta.Floor) && From(alive, candidates)
    ensures |scored| == |items| && forall i :: 0 <= i < |items| ==> scored[i].cfg == items[i].cfg
    ensures MeasuredOnce(measure, RoundLog(scored, reps, calls))
    ensures |alive| <= |order(scored)| && alive == order(scored)[..|alive|]
    ensures evals' == evals + |items| * reps && calls' == calls + |items|
    ensures Stationary(measure, f) && Covers(items, candidates, f) ==> Covers(alive, candidates, f)
  {
    hide Stationary, Covers;
    var rescored;
    rescored, evals', calls' := Rescore(items, evals, measure, reps, calls, f);
    scored := rescored;
    var sorted := order(rescored);
    var keep := Keep(|items|, eta);
    if Stationary(measure, f) && Covers(items, candidates, f) {
      RescoredCovers(items, scored, candidates, f);
      RoundKeepsBest(scored, sorted, keep, candidates, f);
    }
    RoundKeepsSource(scored, sorted, keep, candidates);
    alive := sorted[..keep];
  }

  lemma RescoredCovers<Cfg(!new)>(before: seq<Item<Cfg>>, alive: seq<Item<Cfg>>, candidates: seq<Cfg>, f: Cfg -> real)
    requires Covers(before, candidates, f) && |alive| == |before|
    requires forall i :: 0 <= i < |alive| ==> alive[i].cfg == before[i].cfg
    ensures Covers(alive, candidates, f)
  {
    forall c | c in candidates ensures exists i :: 0 <= i < |alive| && f(alive[i].cfg) <= f(c) {
      var i :| 0 <= i < |before| && f(before[i].cfg) <= f(c);
      assert f(alive[i].cfg) <= f(c);
    }
  }

  /** Measure every item once. */
  method Rescore<Cfg(!new)>(
      items: seq<Item<Cfg>>, evals: int, measure: Measure<Cfg>, reps: int, calls: nat, ghost f: Cfg -> real)
      returns (alive: seq<Item<Cfg>>, evals': int, calls': nat)
    ensures |alive| == |items| && evals' == evals + |items| * reps && calls' == calls + |items|
    ensures forall i :: 0 <= i < |items| ==> alive[i].cfg == items[i].cfg
    ensures MeasuredOnce(measure, RoundLog(alive, reps, calls))
    ensures Stationary(measure, f) ==> forall i :: 0 <= i < |alive| ==> alive[i].score == f(alive[i].cfg)
  {
    alive, evals', calls' := items, evals, calls;
    for j := 0 to |items|
      invariant |alive| == |items| && evals' == evals + j * reps && calls' == calls + j
      invariant forall i :: 0 <= i < |items| ==> alive[i].cfg == items[i].cfg
      invariant forall i :: 0 <= i < j ==> alive[i].score == measure(alive[i].cfg, reps, calls + i)
      invariant Stationary(measure, f) ==> forall i :: 0 <= i < j ==> alive[i].score == f(alive[i].cfg)
    {
      alive := alive[j := alive[j].(score := measure(alive[j].cfg, reps, calls'))];
      evals' := evals' + reps;
      calls' := calls' + 1;
    }
  }

  /** With `eta` two and at least one repetition: at most N * minReps * floor(log2 N) + maxReps repetitions. */
  lemma EvalsLogBound(n: nat, minReps: int, maxReps: int)
    requires n >= 1 && minReps >= 1
    ensures Evals(n, minReps, maxReps, 2.0) <= n * minReps * Rounds(n, 2.0) + maxReps
    ensures Pow(2, Rounds(n, 2.0)) <= n < Pow(2, Rounds(n, 2.0) + 1)
  {
    Product(0, 0, n, minReps);
    EvalsBound(n, minReps, maxReps, 2.0, n * minReps);
    RoundsIsLog(n);
  }

  const HUGE: real := 1000000000000000000.0

  /** Candidate `i` is the first with the result's score. */
  ghost predicate FirstLeast<Cfg(!new)>(candidates: seq<Cfg>, measure: Measure<Cfg>, reps: int, i: nat,
                                        r: SHResult<Cfg>)
    requires i < |candidates|
  {
    && r.best == candidates[i] && r.bestScore == measure(candidates[i], reps, i)
    && forall j :: 0 <= j < i ==> measure(candidates[j], reps, j) > r.bestScore
  }

  /** Grid search: the least score below its starting value, and the first configuration to reach it. */
  method GridSearch<Cfg(!new)>(candidates: seq<Cfg>, measure: Measure<Cfg>, reps: int, none: Cfg, ghost f: Cfg -> real)
      returns (r: SHResult<Cfg>)
    ensures r.totalEvals == |candidates| * reps
    ensures r.bestScore <= 1000000000000000000.0 && (r.bestScore == 1000000000000000000.0 ==> r.best == none)
    ensures forall i :: 0 <= i < |candidates| ==> r.bestScore <= measure(candidates[i], reps, i)
    ensures r.bestScore < 1000000000000000000.0 ==>
              exists i :: 0 <= i < |candidates| && FirstLeast(candidates, measure, reps, i, r)
    ensures Stationary(measure, f) ==>
              && r.bestScore <= HUGE && (forall c :: c in candidates ==> r.bestScore <= f(c))
              && (r.bestScore < HUGE ==> r.best in candidates && f(r.best) == r.bestScore)
              && (r.bestScore == HUGE ==> r.best == none)
  {
    var best, bestS, evals := none, HUGE, 0;
    for i := 0 to |candidates|
      invariant evals == i * reps && bestS <= HUGE && (bestS == HUGE ==> best == none)
      invariant forall j :: 0 <= j < i ==> bestS <= measure(candidates[j], reps, j)
      invariant bestS < HUGE ==>
                  exists j :: 0 <= j < i && FirstLeast(candidates, measure, reps, j, SHResult(best, bestS, evals))
      invariant Stationary(measure, f) ==>
                  && bestS <= HUGE && (forall j :: 0 <= j < i ==> bestS <= f(candidates[j]))
                  && (bestS < HUGE ==> best in candidates && f(best) == bestS)
                  && (bestS == HUGE ==> best == none)
    {
      var s := measure(candidates[i], reps, i);
      evals := evals + reps;
      if s < bestS {
        bestS, best := s, candidates[i];
        assert FirstLeast(candidates, measure, reps, i, SHResult(best, bestS, evals));
      } else if bestS < HUGE {
        ghost var j :| 0 <= j < i && FirstLeast(candidates, measure, reps, j, SHResult(best, bestS, evals - reps));
        assert FirstLeast(candidates, measure, reps, j, SHResult(best, bestS, evals));
      }
    }
    return SHResult(best, bestS, evals);
  }

  /** Both searches on one stationary measure: the scores agree exactly when some candidate scores at most 1e18. */
  method Compare<Cfg(!new)>(
      candidates: seq<Cfg>, measure: Measure<Cfg>, minReps: int, maxReps: int, eta: real,
      order: seq<Item<Cfg>> -> seq<Item<Cfg>>, none: Cfg, ghost f: Cfg -> real)
      returns (halved: Outcome<Cfg>, grid: SHResult<Cfg>)
    requires (|candidates| <= 1 || eta >= 2.0) && Sorts(order) && Stationary(measure, f) && candidates != []
    ensures halved.Ok? && halved.value.best in candidates && halved.value.bestScore == f(halved.value.best)
    ensures forall c :: c in candidates ==> halved.value.bestScore <= f(c) && grid.bestScore <= f(c)
    ensures grid.bestScore < HUGE ==> grid.best in candidates && f(grid.best) == grid.bestScore
    ensures grid.bestScore <= HUGE && (grid.bestScore == HUGE ==> grid.best == none)
    ensures halved.value.bestScore == grid.bestScore <==> exists c :: c in candidates && f(c) <= HUGE
  {
    ghost var trace;
    halved, trace := Halve(candidates, measure, minReps, maxReps, eta, order, f);
    grid := GridSearch(candidates, measure, maxReps, none, f);
    assert f(halved.value.best) == halved.value.bestScore;
  }
}
