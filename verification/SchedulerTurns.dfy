/**
 The turns of one scheduling round. Given the state before it, a turn leaves nothing open but which free pages
 are granted: who is asked for how much, who is preempted, and what remains of the token budget.
 */
module SchedulerTurns {
  import opened DistinctSeqs
  import opened SchedulerModel
  import opened SchedulerPlan

  datatype Config = Config(
    pageSize: int, maxPages: nat, maxBatchTokens: int, maxSeqsRunning: int, maxWaiting: int, maxPrefillPerStep: int)

  function Min(a: int, b: int): int { if a < b then a else b }

  predicate AsksFor(m: Move, id: int, n: int) { m.FundMove? && m.id == id && m.n == n }

  // ---- admissions ----

  /** The pool cannot fund the oldest waiting sequence with one more page of tokens. */
  ghost predicate Starved(cfg: Config, c: Core)
    requires cfg.pageSize > 0
  {
    c.waiting != [] && Short(cfg.pageSize, c, c.waiting[0], cfg.pageSize)
  }

  /** Every admission finds room in the running list. */
  ghost predicate AdmitStage(cfg: Config, c: Core, plan: seq<Move>) {
    forall k :: 0 <= k < |plan| ==>
      plan[k].AdmitMove? && plan[k].n == cfg.pageSize && |Performed(c, plan[..k]).running| < cfg.maxSeqsRunning
  }

  /** Why admissions stop. */
  ghost predicate AdmitsEnd(cfg: Config, c: Core)
    requires cfg.pageSize > 0
  {
    c.waiting == [] || |c.running| >= cfg.maxSeqsRunning || Starved(cfg, c)
  }

  lemma AdmitStageMore(cfg: Config, c: Core, plan: seq<Move>, m: Move)
    requires AdmitStage(cfg, c, plan) && m.AdmitMove? && m.n == cfg.pageSize
    requires |Performed(c, plan).running| < cfg.maxSeqsRunning
    ensures AdmitStage(cfg, c, plan + [m])
  {
    hide Performed;
    forall k | 0 <= k < |plan + [m]|
      ensures (plan + [m])[k].AdmitMove? && (plan + [m])[k].n == cfg.pageSize
      ensures |Performed(c, (plan + [m])[..k]).running| < cfg.maxSeqsRunning
    {
      assert (plan + [m])[..k] == plan[..k];
      if k == |plan| { assert plan[..k] == plan; }
    }
  }

  // ---- prefill turns ----

  /** What the turns so far leave: the decode candidates not preempted, and the token budget. */
  datatype Left = Left(decode: seq<int>, budget: int)

  function ChunkFor(cfg: Config, s: Sequence, budget: int): int {
    Min(s.RemainingPrefill(), Min(cfg.maxPrefillPerStep, budget))
  }

  /**
   The moves that ask for `n` tokens: once if the pool can fund them or there is nobody to preempt, and
   otherwise again after the preemption of the youngest decode candidate.
   */
  ghost predicate Asked(pageSize: int, c: Core, plan: seq<Move>, id: int, n: int, decode: seq<int>, decode': seq<int>,
                        ok: bool)
    requires pageSize > 0
  {
    if !Short(pageSize, c, id, n) || decode == [] then
      |plan| == 1 && AsksFor(plan[0], id, n) && decode' == decode && ok == !Short(pageSize, c, id, n)
    else
      && |plan| == 3 && AsksFor(plan[0], id, n) && AsksFor(plan[2], id, n)
      && plan[1] == PreemptMove(decode[|decode| - 1]) && decode' == decode[..|decode| - 1]
      && ok == !Short(pageSize, Performed(c, plan[..2]), id, n)
  }

  /** The turn of a prefill candidate. */
  ghost predicate PrefillForm(cfg: Config, c: Core, plan: seq<Move>, id: int, l: Left, l': Left)
    requires cfg.pageSize > 0
  {
    && l.budget > 0 && id in c.seqs
    && var n := ChunkFor(cfg, c.seqs[id], l.budget);
       if n <= 0 then plan == [] && l' == l
       else
         && Asked(cfg.pageSize, c, plan, id, n, l.decode, l'.decode, l'.budget != l.budget)
         && l'.budget in {l.budget, l.budget - n}
  }

  /**
   What a prefill turn comes to. It asks for the least of the prompt left, the per-step limit and the budget.
   Pages are there for it afterwards, or the pool is still short of them and there was nobody to preempt or
   somebody has been; and nobody is preempted while the pool has enough.
   */
  lemma PrefillTurnMeans(cfg: Config, c: Core, plan: seq<Move>, id: int, l: Left, l': Left, c': Core) returns (n: int)
    requires cfg.pageSize > 0 && PrefillForm(cfg, c, plan, id, l, l') && Performs(c, plan, c')
    requires Rightful(cfg.pageSize, c, plan) && forall jd :: jd in l.decode ==> jd != id
    ensures id in c.seqs && id in c'.seqs
    ensures n <= c.seqs[id].RemainingPrefill() && n <= cfg.maxPrefillPerStep && n <= l.budget
    ensures n in {c.seqs[id].RemainingPrefill(), cfg.maxPrefillPerStep, l.budget}
    ensures n <= 0 ==> c' == c && l' == l
    ensures n > 0 ==>
              var needed := PagesNeeded(cfg.pageSize, c.seqs[id].TotalTokens() + n);
              if needed <= |c'.seqs[id].pages| then l'.budget == l.budget - n
              else
                && l'.budget == l.budget && needed > |c'.seqs[id].pages| + |c'.free|
                && (l.decode == [] || l'.decode != l.decode)
    ensures n > 0 && l'.decode != l.decode ==>
              && PagesNeeded(cfg.pageSize, c.seqs[id].TotalTokens() + n) > |c.seqs[id].pages| + |c.free|
              && l.decode != [] && l'.decode == l.decode[..|l.decode| - 1]
  {
    n := ChunkFor(cfg, c.seqs[id], l.budget);
    ShortPlan(c, plan, c');
    GrantsSized(cfg.pageSize, c, plan);
    hide Performs, Rightful, Performed, PagesNeeded, Lacks, CanDo, Do, Sized, Short;
    if n > 0 && |plan| == 1 {
      GrantedEnough(cfg.pageSize, c, plan[0], c', id, n);
    } else if n > 0 {
      var victim := l.decode[|l.decode| - 1];
      assert victim in l.decode;
      var c1, c2 := Do(c, plan[0]), Performed(c, plan[..2]);
      GrantedEnough(cfg.pageSize, c, plan[0], c1, id, n);
      OthersStay(c1, victim, id);
      GrantedEnough(cfg.pageSize, c2, plan[2], c', id, n);
    }
  }

  lemma GrantsSized(pageSize: int, c: Core, plan: seq<Move>)
    requires pageSize > 0 && Rightful(pageSize, c, plan)
    ensures |plan| >= 1 ==> Sized(pageSize, Performed(c, plan[..0]), plan[0])
    ensures |plan| >= 3 ==> Sized(pageSize, Performed(c, plan[..2]), plan[2])
  {
    hide Sized, Performed, Refused;
    if |plan| >= 1 { assert RightAt(pageSize, c, plan, 0); }
    if |plan| >= 3 { assert RightAt(pageSize, c, plan, 2); }
  }

  lemma OthersStay(c: Core, victim: int, id: int)
    requires CanDo(c, PreemptMove(victim)) && victim != id && id in c.seqs
    ensures var c' := Do(c, PreemptMove(victim)); id in c'.seqs && c'.seqs[id] == c.seqs[id]
  {
  }

  /** The states of a plan of at most three moves. */
  lemma ShortPlan(c: Core, plan: seq<Move>, c': Core)
    requires Performs(c, plan, c')
    ensures plan == [] ==> c' == c
    ensures |plan| >= 1 ==> plan[..0] == [] && Performed(c, plan[..0]) == c && CanDo(c, plan[0])
    ensures |plan| == 1 ==> c' == Do(c, plan[0])
    ensures |plan| >= 2 ==> Performed(c, plan[..1]) == Do(c, plan[0]) && CanDo(Do(c, plan[0]), plan[1])
    ensures |plan| == 2 ==> c' == Do(Do(c, plan[0]), plan[1])
    ensures |plan| == 3 ==>
              var c2 := Performed(c, plan[..2]);
              c2 == Do(Do(c, plan[0]), plan[1]) && CanDo(c2, plan[2]) && c' == Do(c2, plan[2])
  {
    hide CanDo, Do;
    if |plan| == 1 { assert plan[..1] == plan; }
    if |plan| >= 1 { assert CanDo(Performed(c, plan[..0]), plan[0]); }
    if |plan| >= 2 {
      assert CanDo(Performed(c, plan[..1]), plan[1]);
      assert plan[..1][..0] == [] && plan[..2][..1] == plan[..1];
    }
    if |plan| == 2 { assert plan[..2] == plan; }
    if |plan| == 3 { assert CanDo(Performed(c, plan[..2]), plan[2]); }
  }

  /** A grant of the size lacking leaves enough pages, or a pool that is short. */
  lemma GrantedEnough(pageSize: int, c: Core, m: Move, c': Core, id: int, n: int)
    requires pageSize > 0 && AsksFor(m, id, n) && CanDo(c, m) && c' == Do(c, m) && Sized(pageSize, c, m)
    ensures id in c.seqs && id in c'.seqs && c'.seqs[id] == c.seqs[id].(pages := c'.seqs[id].pages)
    ensures var needed := PagesNeeded(pageSize, c.seqs[id].TotalTokens() + n);
            && (Short(pageSize, c, id, n) <==> needed > |c.seqs[id].pages| + |c.free|)
            && (if Short(pageSize, c, id, n) then c' == c else needed <= |c'.seqs[id].pages|)
  {
    hide Distinct, PagesNeeded;
    if m.out == [] { GrantNothing(c, id); }
  }

  /** The turns of the prefill candidates, one after the other. */
  ghost predicate PrefillStage(cfg: Config, c: Core, plan: seq<Move>, ids: seq<int>, l: Left, l': Left)
    requires cfg.pageSize > 0
    decreases |ids|, 0
  {
    if ids == [] then plan == [] && l' == l else exists cut, mid :: PrefillCut(cfg, c, plan, ids, l, l', cut, mid)
  }

  /** The last turn begins at `cut`. */
  ghost predicate PrefillCut(cfg: Config, c: Core, plan: seq<Move>, ids: seq<int>, l: Left, l': Left, cut: nat,
                             mid: Left)
    requires cfg.pageSize > 0 && ids != []
    decreases |ids| - 1, 1
  {
    && cut <= |plan| && PrefillStage(cfg, c, plan[..cut], ids[..|ids| - 1], l, mid)
    && PrefillForm(cfg, Performed(c, plan[..cut]), plan[cut..], ids[|ids| - 1], mid, l')
  }

  lemma PrefillStageMore(cfg: Config, c: Core, plan: seq<Move>, ids: seq<int>, l: Left, mid: Left, more: seq<Move>,
                         id: int, l': Left)
    requires cfg.pageSize > 0 && PrefillStage(cfg, c, plan, ids, l, mid)
    requires PrefillForm(cfg, Performed(c, plan), more, id, mid, l')
    ensures PrefillStage(cfg, c, plan + more, ids + [id], l, l')
  {
    hide PrefillForm, Performed;
    var ids' := ids + [id];
    assert ids'[..|ids'| - 1] == ids && (plan + more)[..|plan|] == plan && (plan + more)[|plan|..] == more;
    assert PrefillCut(cfg, c, plan + more, ids', l, l', |plan|, mid);
  }

  // ---- decode turns ----

  /** The turn of a decode candidate: funded with one token, or preempted itself. */
  ghost predicate DecodeForm(pageSize: int, c: Core, plan: seq<Move>, id: int, budget: int, budget': int)
    requires pageSize > 0
  {
    && budget > 0 && plan != [] && AsksFor(plan[0], id, 1)
    && if Short(pageSize, c, id, 1) then |plan| == 2 && plan[1] == PreemptMove(id) && budget' == budget
       else |plan| == 1 && budget' == budget - 1
  }

  /** What a decode turn comes to: a page list that holds one more token, or preemption for want of pages. */
  lemma DecodeTurnMeans(pageSize: int, c: Core, plan: seq<Move>, id: int, budget: int, budget': int, c': Core)
    requires pageSize > 0 && DecodeForm(pageSize, c, plan, id, budget, budget') && Performs(c, plan, c')
    requires Rightful(pageSize, c, plan)
    ensures id in c.seqs && id in c'.seqs
    ensures var needed := PagesNeeded(pageSize, c.seqs[id].TotalTokens() + 1);
            if needed <= |c.seqs[id].pages| + |c.free| then
              budget' == budget - 1 && needed <= |c'.seqs[id].pages| && c'.seqs[id].state == c.seqs[id].state
            else budget' == budget && c'.seqs[id].state == WAITING && c'.seqs[id].pages == []
  {
    ShortPlan(c, plan, c');
    hide Distinct, PagesNeeded;
    assert RightAt(pageSize, c, plan, 0);
    GrantedEnough(pageSize, c, plan[0], Do(c, plan[0]), id, 1);
  }

  /** The turns of the decode candidates, one after the other. */
  ghost predicate DecodeStage(pageSize: int, c: Core, plan: seq<Move>, ids: seq<int>, budget: int, budget': int)
    requires pageSize > 0
    decreases |ids|, 0
  {
    if ids == [] then plan == [] && budget' == budget
    else exists cut, mid :: DecodeCut(pageSize, c, plan, ids, budget, budget', cut, mid)
  }

  /** The last turn begins at `cut`. */
  ghost predicate DecodeCut(pageSize: int, c: Core, plan: seq<Move>, ids: seq<int>, budget: int, budget': int, cut: nat,
                            mid: int)
    requires pageSize > 0 && ids != []
    decreases |ids| - 1, 1
  {
    && cut <= |plan| && DecodeStage(pageSize, c, plan[..cut], ids[..|ids| - 1], budget, mid)
    && DecodeForm(pageSize, Performed(c, plan[..cut]), plan[cut..], ids[|ids| - 1], mid, budget')
  }

  lemma DecodeStageMore(pageSize: int, c: Core, plan: seq<Move>, ids: seq<int>, budget: int, mid: int, more: seq<Move>,
                        id: int, budget': int)
    requires pageSize > 0 && DecodeStage(pageSize, c, plan, ids, budget, mid)
    requires DecodeForm(pageSize, Performed(c, plan), more, id, mid, budget')
    ensures DecodeStage(pageSize, c, plan + more, ids + [id], budget, budget')
  {
    hide DecodeForm, Performed;
    var ids' := ids + [id];
    assert ids'[..|ids'| - 1] == ids && (plan + more)[..|plan|] == plan && (plan + more)[|plan|..] == more;
    assert DecodeCut(pageSize, c, plan + more, ids', budget, budget', |plan|, mid);
  }

  // ---- rounds ----

  /** The moves of one round in its three stages, how many candidates had their turn, and what the turns left. */
  datatype RoundPlan = RoundPlan(admits: seq<Move>, prefills: seq<Move>, prefillTurns: nat, mid: Left,
                                 decodes: seq<Move>, decodeTurns: nat, budget: int)
  {
    function Moves(): seq<Move> { admits + prefills + decodes }
  }

  /**
   First admissions until the queue is empty, the running list full or the front unfundable; then the turns of
   the prefill candidates, and then those of the decode candidates left, in order, while there is budget.
   */
  ghost predicate PlanShape(cfg: Config, c: Core, plan: RoundPlan, prefilling: seq<int>, candidates: seq<int>)
    requires cfg.pageSize > 0
  {
    var c1 := Performed(c, plan.admits);
    var c2 := Performed(c1, plan.prefills);
    && AdmitStage(cfg, c, plan.admits) && AdmitsEnd(cfg, c1)
    && plan.prefillTurns <= |prefilling|
    && PrefillStage(cfg, c1, plan.prefills, prefilling[..plan.prefillTurns], Left(candidates, cfg.maxBatchTokens),
                    plan.mid)
    && (plan.prefillTurns == |prefilling| || plan.mid.budget <= 0)
    && plan.decodeTurns <= |plan.mid.decode|
    && DecodeStage(cfg.pageSize, c2, plan.decodes, plan.mid.decode[..plan.decodeTurns], plan.mid.budget, plan.budget)
    && (plan.decodeTurns == |plan.mid.decode| || plan.budget <= 0)
  }
}
