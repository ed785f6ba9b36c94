/** Without the hypothesis of `PoolConcurrent.RunSafe`: a run in which a recycled pop breaks the pool. */
module PoolRecycling {
  import opened DistinctSeqs
  import opened FreeStack
  import opened PoolConcurrent

  /** Two pages on one shard, page 1 above page 0, and two idle threads. */
  ghost const START: State :=
    State([1], [-1, 0], [0, 0], [Thread(Idle, {}), Thread(Idle, {})], {})

  /** The first thread snapshots page 1 above page 0. */
  ghost const SNAPSHOT: seq<Action> := [LoadHead(0, 0), LoadNext(0)]

  /** The second thread pops both pages, one after the other, and pushes page 1 back. */
  ghost const POP: seq<Action> := [LoadHead(1, 0), LoadNext(1), PopCas(1, false)]
  ghost const PUSH_BACK: seq<Action> := [StartPush(1, 1), StoreNext(1), PushCas(1, false)]

  lemma StepTo(st: State, a: Action, rest: seq<Action>, mid: State, end: State)
    requires Enabled(st, a) && Exec(st, a) == mid && !(a.PopCas? && CasWins(st, a) && a.t in st.stale)
    requires Legal(mid, rest) && NoRecycledPop(mid, rest) && After(mid, rest) == end
    ensures Legal(st, [a] + rest) && NoRecycledPop(st, [a] + rest) && After(st, [a] + rest) == end
  {
    assert ([a] + rest)[1..] == rest;
  }

  lemma {:induction false} RunConcat(st: State, r1: seq<Action>, r2: seq<Action>)
    requires Legal(st, r1) && NoRecycledPop(st, r1)
    requires Legal(After(st, r1), r2) && NoRecycledPop(After(st, r1), r2)
    ensures Legal(st, r1 + r2) && NoRecycledPop(st, r1 + r2)
    ensures After(st, r1 + r2) == After(After(st, r1), r2)
    decreases |r1|
  {
    if r1 == [] {
      assert r1 + r2 == r2;
    } else {
      RunConcat(Exec(st, r1[0]), r1[1..], r2);
      assert r1 + r2 == [r1[0]] + (r1[1..] + r2);
      StepTo(st, r1[0], r1[1..] + r2, Exec(st, r1[0]), After(Exec(st, r1[0]), r1[1..] + r2));
    }
  }

  lemma TakeSnapshot()
    ensures Legal(START, SNAPSHOT) && NoRecycledPop(START, SNAPSHOT)
    ensures After(START, SNAPSHOT)
         == State([1], [-1, 0], [0, 0], [Thread(PopNext(0, 1, 0), {}), Thread(Idle, {})], {})
  {
    var s0 := START;
    var s1 := s0.(threads := [Thread(PopTop(0, 1), {}), Thread(Idle, {})]);
    var s2 := s0.(threads := [Thread(PopNext(0, 1, 0), {}), Thread(Idle, {})]);
    StepTo(s1, LoadNext(0), [], s2, s2);
    StepTo(s0, LoadHead(0, 0), [LoadNext(0)] + [], s1, s2);
    assert SNAPSHOT == [LoadHead(0, 0)] + ([LoadNext(0)] + []);
  }

  /** An undisturbed pop by the second thread. */
  lemma PopAlone(th: Thread, p: int, next: seq<int>, hand: set<int>)
    requires |next| == 2 && 0 <= p < 2
    ensures var st := State([p], next, [0, 0], [th, Thread(Idle, hand)], {});
            && Legal(st, POP) && NoRecycledPop(st, POP)
            && After(st, POP) == State([next[p]], next, [0, 0], [th, Thread(Idle, hand + {p})], {})
  {
    var s0 := State([p], next, [0, 0], [th, Thread(Idle, hand)], {});
    var s1 := s0.(threads := [th, Thread(PopTop(0, p), hand)]);
    var s2 := s0.(threads := [th, Thread(PopNext(0, p, next[p]), hand)]);
    var s3 := s0.(heads := [next[p]], threads := [th, Thread(Idle, hand + {p})]);
    StepTo(s2, PopCas(1, false), [], s3, s3);
    StepTo(s1, LoadNext(1), [PopCas(1, false)] + [], s2, s3);
    StepTo(s0, LoadHead(1, 0), [LoadNext(1)] + ([PopCas(1, false)] + []), s1, s3);
    assert POP == [LoadHead(1, 0)] + ([LoadNext(1)] + ([PopCas(1, false)] + []));
  }

  lemma PushBack()
    ensures var th := Thread(PopNext(0, 1, 0), {});
            var st := State([-1], [-1, 0], [0, 0], [th, Thread(Idle, {0, 1})], {});
            && Legal(st, PUSH_BACK) && NoRecycledPop(st, PUSH_BACK)
            && After(st, PUSH_BACK) == State([1], [-1, -1], [0, 0], [th, Thread(Idle, {0})], {0})
  {
    var th := Thread(PopNext(0, 1, 0), {});
    var s0 := State([-1], [-1, 0], [0, 0], [th, Thread(Idle, {0, 1})], {});
    var s1 := s0.(threads := [th, Thread(PushTop(1, -1), {0, 1})]);
    var s2 := s0.(next := [-1, -1], threads := [th, Thread(PushReady(1, -1), {0, 1})]);
    var s3 := State([1], [-1, -1], [0, 0], [th, Thread(Idle, {0})], {0});
    assert (set u: nat | 0 <= u < |s2.threads| && Snapshots(s2.threads[u], 1)) == {0} by {
      assert Snapshots(s2.threads[0], 1) && !Snapshots(s2.threads[1], 1);
    }
    assert {0, 1} - {1} == {0};
    StepTo(s2, PushCas(1, false), [], s3, s3);
    StepTo(s1, StoreNext(1), [PushCas(1, false)] + [], s2, s3);
    StepTo(s0, StartPush(1, 1), [StoreNext(1)] + ([PushCas(1, false)] + []), s1, s3);
    assert PUSH_BACK == [StartPush(1, 1)] + ([StoreNext(1)] + ([PushCas(1, false)] + []));
  }

  lemma StartInv()
    ensures Inv(START, [[1, 0]])
  {
    var stacks := [[1, 0]];
    assert stacks[0][1..] == [0] && [0][1..] == [];
    assert Linked(-1, START.next, []);
    assert Linked(0, START.next, [0]);
    assert Linked(1, START.next, stacks[0]);
    assert Stacked(START, stacks, 0) && Stacked(START, stacks, 1);
  }

  /**
   Without the hypothesis the pool can break: after the snapshot, both pops and the push back, the
   first thread's compare-exchange wins with page 0 as the new head although the second thread still
   holds page 0, and no list of stacks describes the pool any more.
   */
  lemma RecycledPopBreaksPool()
    ensures var run := SNAPSHOT + POP + POP + PUSH_BACK;
            && Inv(START, [[1, 0]]) && Legal(START, run) && NoRecycledPop(START, run)
            && var last := PopCas(0, false);
               && Enabled(After(START, run), last) && CasWins(After(START, run), last)
               && !exists stacks :: Safe(Exec(After(START, run), last), stacks)
  {
    StartInv();
    TakeSnapshot();
    var th := Thread(PopNext(0, 1, 0), {});
    PopAlone(th, 1, [-1, 0], {});
    RunConcat(START, SNAPSHOT, POP);
    PopAlone(th, 0, [-1, 0], {} + {1});
    RunConcat(START, SNAPSHOT + POP, POP);
    PushBack();
    assert {} + {1} + {0} == {0, 1};
    RunConcat(START, SNAPSHOT + POP + POP, PUSH_BACK);
    var stacks := RunSafe(START, [[1, 0]], SNAPSHOT + POP + POP + PUSH_BACK);
    PopSafeIff(After(START, SNAPSHOT + POP + POP + PUSH_BACK), stacks, PopCas(0, false));
  }
}
