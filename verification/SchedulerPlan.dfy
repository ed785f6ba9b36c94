/**
 What one call of `schedule` does to the scheduler's state: a sequence of moves, each an admission from
 the waiting queue, a grant of pages to a running sequence, or a preemption.
 */
module SchedulerPlan {
  import opened DistinctSeqs
  import opened SchedulerModel

  /** `n` is the number of tokens the pages are asked for, `out` the pages granted. */
  datatype Move = AdmitMove(n: int, out: seq<int>) | FundMove(id: int, n: int, out: seq<int>) | PreemptMove(id: int)

  ghost predicate CanDo(c: Core, m: Move) {
    match m
    case AdmitMove(_, out) =>
      && c.waiting != [] && c.waiting[0] in c.seqs && c.seqs[c.waiting[0]].state == WAITING
      && Distinct(out) && SetOf(out) <= c.free
    case FundMove(id, _, out) =>
      && id in c.running && id in c.seqs && c.seqs[id].state in {PREFILL, DECODE}
      && Distinct(out) && SetOf(out) <= c.free
    case PreemptMove(id) => id in c.running && id in c.seqs && c.seqs[id].state == DECODE
  }

  ghost function Do(c: Core, m: Move): Core
    requires CanDo(c, m)
  {
    match m
    case AdmitMove(_, out) => Admit(Grant(c, c.waiting[0], out))
    case FundMove(id, _, out) => Grant(c, id, out)
    case PreemptMove(id) => Preempt(c, id)
  }

  /** The state after a plan, skipping moves that cannot be made. */
  ghost function Performed(c: Core, plan: seq<Move>): Core
    decreases |plan|
  {
    if plan == [] then c
    else
      var n := |plan| - 1;
      var c1 := Performed(c, plan[..n]);
      if CanDo(c1, plan[n]) then Do(c1, plan[n]) else c1
  }

  /** The plan can be made, move by move, and leads from `c` to `c'`. */
  ghost predicate Performs(c: Core, plan: seq<Move>, c': Core) {
    && Performed(c, plan) == c'
    && forall k :: 0 <= k < |plan| ==> CanDo(Performed(c, plan[..k]), plan[k])
  }

  lemma PerformsNothing(c: Core)
    ensures Performs(c, [], c)
  {
  }

  lemma PerformsNone(c: Core, c': Core)
    requires Performs(c, [], c')
    ensures c' == c
  {
  }

  lemma PerformsMore(c: Core, plan: seq<Move>, c1: Core, m: Move)
    requires Performs(c, plan, c1) && CanDo(c1, m)
    ensures Performs(c, plan + [m], Do(c1, m))
  {
    hide CanDo, Do;
    var p := plan + [m];
    assert p[..|plan|] == plan;
    forall k | 0 <= k < |p| ensures CanDo(Performed(c, p[..k]), p[k]) {
      if k < |plan| { assert p[..k] == plan[..k] && p[k] == plan[k]; }
    }
  }

  lemma {:induction false} PerformsConcat(c: Core, p: seq<Move>, c1: Core, q: seq<Move>, c2: Core)
    requires Performs(c, p, c1) && Performs(c1, q, c2)
    ensures Performs(c, p + q, c2)
    decreases |q|
  {
    hide CanDo, Do, Performs, Performed;
    if q == [] {
      assert p + q == p;
      PerformsNone(c1, c2);
    } else {
      var n := |q| - 1;
      var mid := Performed(c1, q[..n]);
      PerformsInit(c1, q, c2);
      PerformsConcat(c, p, c1, q[..n], mid);
      PerformsMore(c, p + q[..n], mid, q[n]);
      assert p + q == (p + q[..n]) + [q[n]];
    }
  }

  lemma PerformsInit(c: Core, plan: seq<Move>, c': Core)
    requires Performs(c, plan, c') && plan != []
    ensures var n := |plan| - 1; var c1 := Performed(c, plan[..n]);
            Performs(c, plan[..n], c1) && CanDo(c1, plan[n]) && c' == Do(c1, plan[n])
  {
    hide CanDo, Do;
    var n := |plan| - 1;
    forall k | 0 <= k < n ensures CanDo(Performed(c, plan[..n][..k]), plan[..n][k]) {
      assert plan[..n][..k] == plan[..k];
    }
  }

  /** The sequences preempted by a plan, in order. */
  function Victims(plan: seq<Move>): seq<int>
    decreases |plan|
  {
    if plan == [] then []
    else
      var n := |plan| - 1;
      Victims(plan[..n]) + if plan[n].PreemptMove? then [plan[n].id] else []
  }

  lemma {:induction false} VictimsConcat(p: seq<Move>, q: seq<Move>)
    ensures Victims(p + q) == Victims(p) + Victims(q)
    decreases |q|
  {
    if q == [] {
      assert p + q == p;
    } else {
      var n := |q| - 1;
      assert (p + q)[..|p| + n] == p + q[..n];
      VictimsConcat(p, q[..n]);
    }
  }

  function Reversed(s: seq<int>): seq<int>
    decreases |s|
  {
    if s == [] then [] else Reversed(s[1..]) + [s[0]]
  }

  /** Everything a plan keeps of a sequence it does not preempt: it can only gain pages and be admitted. */
  ghost predicate Carried(s: Sequence, s': Sequence) {
    && s' == s.(pages := s'.pages, state := s'.state) && s.pages <= s'.pages
    && (s'.state == s.state || (s.state == WAITING && s'.state == PREFILL))
  }

  /** The sequences after a plan: none appears or disappears, and what is not preempted is carried over. */
  ghost predicate Framed(c: Core, c': Core, victims: seq<int>) {
    && c'.seqs.Keys == c.seqs.Keys && c'.nextId == c.nextId && c'.log == c.log && c'.orphans == c.orphans
    && c'.running + c'.waiting == c.running + c.waiting
    && forall id :: id in c.seqs ==> KeptOrLost(c.seqs[id], c'.seqs[id], id in victims)
  }

  ghost predicate KeptOrLost(s: Sequence, s': Sequence, preempted: bool) {
    if preempted then s' == s.(pages := [], state := WAITING, cursor := 0, output := [])
    else Carried(s, s')
  }

  /** During a plan: framed, and the sequences preempted so far are in the running list without pages. */
  ghost predicate Underway(c: Core, c': Core, victims: seq<int>) {
    && Framed(c, c', victims)
    && forall id :: id in victims ==> id in c'.running && id in c'.seqs && c'.seqs[id].state == WAITING
  }

  lemma FrontNotRunning(c: Core)
    requires Ascending(c.running + c.waiting) && c.waiting != []
    ensures c.waiting[0] !in c.running
  {
    var all := c.running + c.waiting;
    assert all[|c.running|] == c.waiting[0];
    assert forall i :: 0 <= i < |c.running| ==> all[i] == c.running[i];
  }

  lemma AdmitUnderway(c: Core, c1: Core, victims: seq<int>, m: Move)
    requires Ascending(c.running + c.waiting) && Underway(c, c1, victims) && m.AdmitMove? && CanDo(c1, m)
    ensures Underway(c, Do(c1, m), victims)
  {
    hide Distinct, Ascending;
    FrontNotRunning(c1);
    var id := c1.waiting[0];
    assert id !in victims;
    assert KeptOrLost(c.seqs[id], c1.seqs[id], false);
    assert c1.waiting == [id] + c1.waiting[1..];
    assert (c1.running + [id]) + c1.waiting[1..] == c1.running + c1.waiting;
  }

  lemma FundUnderway(c: Core, c1: Core, victims: seq<int>, m: Move)
    requires Underway(c, c1, victims) && m.FundMove? && CanDo(c1, m)
    ensures Underway(c, Do(c1, m), victims)
  {
    hide Distinct;
    assert m.id !in victims;
    assert KeptOrLost(c.seqs[m.id], c1.seqs[m.id], false);
  }

  lemma PreemptUnderway(c: Core, c1: Core, victims: seq<int>, m: Move)
    requires Underway(c, c1, victims) && m.PreemptMove? && CanDo(c1, m)
    ensures Underway(c, Do(c1, m), victims + [m.id])
  {
    assert m.id !in victims;
    assert KeptOrLost(c.seqs[m.id], c1.seqs[m.id], false);
    assert forall id :: id in victims + [m.id] <==> id in victims || id == m.id;
  }

  /**
   A plan changes nothing but what its moves say: sequences that it does not preempt keep prompt, output,
   limits, progress and the pages they had, and the order of arrival stays.
   */
  lemma {:induction false} PlanFrame(c: Core, plan: seq<Move>, c': Core)
    requires Ascending(c.running + c.waiting) && Performs(c, plan, c')
    ensures Underway(c, c', Victims(plan))
    decreases |plan|
  {
    if plan == [] {
      assert forall id :: id in c.seqs ==> Carried(c.seqs[id], c.seqs[id]);
    } else {
      hide Underway, CanDo, Do, Ascending;
      var n := |plan| - 1;
      var c1, m := Performed(c, plan[..n]), plan[n];
      PerformsInit(c, plan, c');
      PlanFrame(c, plan[..n], c1);
      if m.AdmitMove? {
        AdmitUnderway(c, c1, Victims(plan[..n]), m);
      } else if m.FundMove? {
        FundUnderway(c, c1, Victims(plan[..n]), m);
      } else {
        PreemptUnderway(c, c1, Victims(plan[..n]), m);
      }
    }
  }

  // ---- what the source's allocations look like in a plan ----

  /** The pages a sequence lacks for `n` more tokens. */
  function Lacks(pageSize: int, s: Sequence, n: int): nat
    requires pageSize > 0
  {
    var more := PagesNeeded(pageSize, s.TotalTokens() + n) - |s.pages|;
    if more > 0 then more else 0
  }

  /** The grant is what is lacking, or nothing if the pool has too few pages. */
  ghost predicate Sized(pageSize: int, c: Core, m: Move)
    requires pageSize > 0
  {
    match m
    case AdmitMove(n, out) =>
      c.waiting != [] && c.waiting[0] in c.seqs && |out| == Lacks(pageSize, c.seqs[c.waiting[0]], n)
    case FundMove(id, n, out) =>
      && id in c.seqs
      && var more := Lacks(pageSize, c.seqs[id], n);
         |out| == if more <= |c.free| then more else 0
    case PreemptMove(_) => true
  }

  /** The pool has too few pages for `n` more tokens of the sequence. */
  ghost predicate Short(pageSize: int, c: Core, id: int, n: int)
    requires pageSize > 0
  {
    id in c.seqs && Lacks(pageSize, c.seqs[id], n) > |c.free|
  }

  ghost predicate Refused(pageSize: int, c: Core, m: Move)
    requires pageSize > 0
  {
    m.FundMove? && Short(pageSize, c, m.id, m.n)
  }

  /** Grants are sized, and a preemption comes right after a refused grant. */
  ghost predicate RightAt(pageSize: int, c: Core, plan: seq<Move>, k: nat)
    requires pageSize > 0 && k < |plan|
  {
    && Sized(pageSize, Performed(c, plan[..k]), plan[k])
    && (plan[k].PreemptMove? ==> k > 0 && Refused(pageSize, Performed(c, plan[..k - 1]), plan[k - 1]))
  }

  ghost predicate Rightful(pageSize: int, c: Core, plan: seq<Move>)
    requires pageSize > 0
  {
    forall k :: 0 <= k < |plan| ==> RightAt(pageSize, c, plan, k)
  }

  lemma {:induction false} PerformedConcat(c: Core, p: seq<Move>, q: seq<Move>)
    ensures Performed(c, p + q) == Performed(Performed(c, p), q)
    decreases |q|
  {
    hide CanDo, Do;
    if q == [] {
      assert p + q == p;
    } else {
      assert (p + q)[..|p| + |q| - 1] == p + q[..|q| - 1];
      PerformedConcat(c, p, q[..|q| - 1]);
    }
  }

  lemma RightfulConcat(pageSize: int, c: Core, p: seq<Move>, q: seq<Move>)
    requires pageSize > 0 && Rightful(pageSize, c, p) && Rightful(pageSize, Performed(c, p), q)
    ensures Rightful(pageSize, c, p + q)
  {
    hide Sized, Refused, Performed;
    forall k | 0 <= k < |p + q| ensures RightAt(pageSize, c, p + q, k) {
      if k < |p| {
        assert RightAt(pageSize, c, p, k);
        assert (p + q)[..k] == p[..k];
        if k > 0 { assert (p + q)[..k - 1] == p[..k - 1]; }
      } else {
        var j := k - |p|;
        assert RightAt(pageSize, Performed(c, p), q, j);
        assert (p + q)[..k] == p + q[..j];
        PerformedConcat(c, p, q[..j]);
        if j > 0 {
          assert (p + q)[..k - 1] == p + q[..j - 1];
          PerformedConcat(c, p, q[..j - 1]);
        }
      }
    }
  }

  // ---- stamps ----

  /** The pages a move puts into use. */
  function Taken(m: Move): seq<int> { if m.PreemptMove? then [] else m.out }

  ghost predicate GrantedIn(plan: seq<Move>, p: int) { exists m :: m in plan && p in Taken(m) }

  function Stamp(touch: seq<nat>, pages: seq<int>, now: nat): seq<nat> {
    seq(|touch|, i requires 0 <= i < |touch| => if i in pages then now else touch[i])
  }

  lemma StampNothing(touch: seq<nat>, now: nat)
    ensures Stamp(touch, [], now) == touch
  {
  }

  lemma StampBounded(touch: seq<nat>, pages: seq<int>, now: nat)
    ensures var touch' := Stamp(touch, pages, now);
            (forall p :: 0 <= p < |touch| ==> touch[p] <= now) ==> forall p :: 0 <= p < |touch'| ==> touch'[p] <= now
  {
  }

  /** After a plan at time `now`, the pages in use that it granted have that stamp, the others keep theirs. */
  ghost predicate StampedBy(touch: seq<nat>, touch': seq<nat>, free: set<int>, plan: seq<Move>, now: nat) {
    && |touch'| == |touch|
    && forall p :: 0 <= p < |touch| && p !in free ==> touch'[p] == if GrantedIn(plan, p) then now else touch[p]
  }

  /** A single grant stamps its pages. */
  lemma MoveStamps(touch: seq<nat>, free: set<int>, m: Move, now: nat)
    ensures StampedBy(touch, Stamp(touch, Taken(m), now), free, [m], now)
  {
    assert forall p :: GrantedIn([m], p) <==> p in Taken(m);
  }

  /** Pages leave the free set only by being granted. */
  lemma {:induction false} FreedOrGranted(c: Core, plan: seq<Move>, c': Core, p: int)
    requires Performs(c, plan, c') && p in c.free && p !in c'.free
    ensures GrantedIn(plan, p)
    decreases |plan|
  {
    if plan == [] {
      PerformsNone(c, c');
    } else {
      var n := |plan| - 1;
      var c1 := Performed(c, plan[..n]);
      PerformsInit(c, plan, c');
      hide Performs, Performed;
      if p in c1.free {
        assert plan[n] in plan && p in Taken(plan[n]);
      } else {
        FreedOrGranted(c, plan[..n], c1, p);
        var m :| m in plan[..n] && p in Taken(m);
        assert m in plan;
      }
    }
  }

  lemma StampedConcat(touch: seq<nat>, t1: seq<nat>, t2: seq<nat>, c1: Core, c2: Core, p: seq<Move>, q: seq<Move>,
                      now: nat)
    requires StampedBy(touch, t1, c1.free, p, now) && StampedBy(t1, t2, c2.free, q, now) && Performs(c1, q, c2)
    ensures StampedBy(touch, t2, c2.free, p + q, now)
  {
    hide Performs;
    forall x | 0 <= x < |touch| && x !in c2.free
      ensures t2[x] == if GrantedIn(p + q, x) then now else touch[x]
    {
      GrantedConcat(p, q, x);
      if x in c1.free { FreedOrGranted(c1, q, c2, x); }
      hide GrantedIn;
    }
  }

  lemma GrantedConcat(p: seq<Move>, q: seq<Move>, x: int)
    ensures GrantedIn(p + q, x) <==> GrantedIn(p, x) || GrantedIn(q, x)
  {
    assert forall m :: m in p + q <==> m in p || m in q;
  }

  // ---- plans as the scheduler makes them ----

  /** The scheduler's state and the stamps of the pool's pages. */
  datatype Snap = Snap(core: Core, touch: seq<nat>)

  /** The plan leads from one state to the other, rightfully, and leaves these stamps. */
  ghost predicate Makes(pageSize: int, s: Snap, plan: seq<Move>, now: nat, s': Snap) {
    && pageSize > 0 && Performs(s.core, plan, s'.core) && Rightful(pageSize, s.core, plan)
    && StampedBy(s.touch, s'.touch, s'.core.free, plan, now)
  }

  lemma ReachedBy(pageSize: int, s: Snap, plan: seq<Move>, now: nat, s': Snap)
    requires Makes(pageSize, s, plan, now, s')
    ensures Performed(s.core, plan) == s'.core
  {
  }

  lemma MakesNothing(pageSize: int, s: Snap, now: nat)
    requires pageSize > 0
    ensures Makes(pageSize, s, [], now, s) && Victims([]) == []
  {
  }

  lemma MakesConcat(pageSize: int, s: Snap, p: seq<Move>, s1: Snap, q: seq<Move>, s2: Snap, now: nat)
    requires Makes(pageSize, s, p, now, s1) && Makes(pageSize, s1, q, now, s2)
    ensures Makes(pageSize, s, p + q, now, s2) && Victims(p + q) == Victims(p) + Victims(q)
  {
    assert Performed(s.core, p) == s1.core;
    hide Performs, Performed, Rightful, StampedBy;
    VictimsConcat(p, q);
    PerformsConcat(s.core, p, s1.core, q, s2.core);
    RightfulConcat(pageSize, s.core, p, q);
    StampedConcat(s.touch, s1.touch, s2.touch, s1.core, s2.core, p, q, now);
  }

  /** The state after one admission or grant. */
  ghost function Granted(s: Snap, m: Move, now: nat): Snap
    requires CanDo(s.core, m)
  {
    Snap(Do(s.core, m), Stamp(s.touch, Taken(m), now))
  }

  /** The state after a preemption: its pages lose their stamps. */
  ghost function Dropped(s: Snap, id: int): Snap
    requires CanDo(s.core, PreemptMove(id))
  {
    Snap(Do(s.core, PreemptMove(id)), Stamp(s.touch, s.core.seqs[id].pages, 0))
  }

  lemma MakesGrant(pageSize: int, s: Snap, m: Move, now: nat)
    requires pageSize > 0 && CanDo(s.core, m) && !m.PreemptMove? && Sized(pageSize, s.core, m)
    ensures Makes(pageSize, s, [m], now, Granted(s, m, now)) && Victims([m]) == []
  {
    hide CanDo, Do, Sized, Rightful, StampedBy;
    PerformsNothing(s.core);
    PerformsMore(s.core, [], s.core, m);
    assert [] + [m] == [m] && [m][..0] == [];
    RightfulOne(pageSize, s.core, m);
    MoveStamps(s.touch, Do(s.core, m).free, m, now);
    hide Performs, Stamp;
  }

  lemma RightfulOne(pageSize: int, c: Core, m: Move)
    requires pageSize > 0 && !m.PreemptMove? && Sized(pageSize, c, m)
    ensures Rightful(pageSize, c, [m])
  {
    hide Sized;
    assert [m][..0] == [] && Performed(c, []) == c;
  }

  /** A preemption after a refused grant. */
  lemma MakesPreempt(pageSize: int, s: Snap, m: Move, id: int, now: nat)
    requires pageSize > 0 && CanDo(s.core, m) && m.FundMove?
    requires Sized(pageSize, s.core, m) && Refused(pageSize, s.core, m)
    requires CanDo(Do(s.core, m), PreemptMove(id))
    ensures Makes(pageSize, s, [m, PreemptMove(id)], now, Dropped(Granted(s, m, now), id))
    ensures Victims([m, PreemptMove(id)]) == [id]
  {
    var c, p := s.core, PreemptMove(id);
    var c1, plan := Do(c, m), [m, p];
    PerformsNothing(c);
    PerformsMore(c, [], c, m);
    assert [] + [m] == [m] && [m] + [p] == plan && plan[..0] == [] && plan[..1] == [m] && [m][..0] == [];
    PerformsMore(c, [m], c1, p);
    assert Performed(c, []) == c && Performed(c, [m]) == c1;
    assert Victims([m]) == [];
    assert m.out == [];
    assert forall x :: !GrantedIn(plan, x);
    assert RightAt(pageSize, c, plan, 0) && RightAt(pageSize, c, plan, 1);
    PreemptFrees(c1, p);
    hide Performs, Performed, CanDo, Do, Sized, Refused, RightAt;
  }

  lemma PreemptFrees(c: Core, p: Move)
    requires p.PreemptMove? && CanDo(c, p)
    ensures p.id in c.seqs && forall x :: x in c.seqs[p.id].pages ==> x in Do(c, p).free
  {
  }
}
