/**
 Whole runs of the scheduler: any interleaving of requests, cancellations and alternating
 schedule / step_complete calls, as sequences of the actions the scheduler's methods perform.
 */
module SchedulerRuns {
  import opened DistinctSeqs
  import opened FreeStack
  import opened Pool
  import opened SchedulerModel
  import opened SchedulerPlan
  import opened SchedulerTurns
  import opened SchedulerBatch
  import opened SchedulerRound
  import opened Scheduling

  datatype Pending = NoBatch | Batch(entries: seq<BatchEntry>)

  datatype System = System(
    core: Core, touch: seq<nat>, clock: nat, pending: Pending, rounds: nat, credit: int)

  datatype Action =
    | Request(s: Sequence)
    | Refuse
    | Cancel(id: int)
    | Plan(m: Move, now: nat)
    | Publish(entries: seq<BatchEntry>)
    | Complete(toks: seq<int>, now: nat, stale: set<int>)

  /** When the program can take an action; a batched sequence is not cancelled or preempted. */
  ghost predicate Enabled(s: System, a: Action) {
    var c := s.core;
    match a
    case Request(q) => q.state == WAITING && q.pages == [] && q.output == [] && q.cursor == 0
    case Refuse => true
    case Cancel(id) => id in c.seqs && (s.pending.Batch? ==> !InBatch(s.pending.entries, id))
    case Plan(m, now) => s.pending.NoBatch? && CanDo(c, m) && now > 0 && now >= s.clock
    case Publish(entries) => s.pending.NoBatch? && BatchFits(c, entries)
    case Complete(toks, now, stale) =>
      && s.pending.Batch? && now > 0 && now >= s.clock
      && forall p :: p in stale <==> Expired(c, s.touch, s.pending.entries, now, p)
  }

  ghost function Apply(s: System, a: Action): System
    requires Enabled(s, a)
  {
    var c := s.core;
    match a
    case Request(q) => s.(core := Enqueue(c, q), credit := s.credit + RequestWork(q))
    case Refuse => s.(core := c.(nextId := c.nextId + 1))
    case Cancel(id) => s.(core := Abort(c, id), touch := Stamp(s.touch, c.seqs[id].pages, 0))
    case Plan(m, now) => s.(core := Do(c, m), touch := Stamp(s.touch, Taken(m), now), clock := now)
    case Publish(entries) => s.(pending := Batch(entries))
    case Complete(toks, now, stale) =>
      var entries := s.pending.entries;
      s.(core := Reclaim(AfterRound(c, entries, toks), stale), clock := now, pending := NoBatch,
         touch := seq(|s.touch|, i requires 0 <= i < |s.touch| =>
           if i in stale then 0 else if DecodedPage(c, entries, i) then now else s.touch[i]),
         rounds := s.rounds + if entries == [] then 0 else 1)
  }

  /** The hypothesis: when a round completes, no surviving sequence's page is older than the time to live. */
  ghost predicate WithinTtl(s: System, a: Action)
    requires Enabled(s, a)
  {
    a.Complete? ==> LivePagesFresh(s.core, s.touch, s.pending.entries, a.toks, a.now)
  }

  ghost predicate Legal(s: System, run: seq<Action>)
    decreases |run|
  {
    run == [] || (Enabled(s, run[0]) && WithinTtl(s, run[0]) && Legal(Apply(s, run[0]), run[1..]))
  }

  ghost function After(s: System, run: seq<Action>): System
    requires Legal(s, run)
    decreases |run|
  {
    if run == [] then s else After(Apply(s, run[0]), run[1..])
  }

  ghost predicate SysInv(nPages: nat, s: System) {
    && Inv(nPages, s.core) && Settled(s.core) && |s.touch| == nPages
    && s.rounds + TotalWork(s.core) <= s.credit
    && (s.pending.Batch? ==> BatchFits(s.core, s.pending.entries))
  }

  /** A pending batch survives what happens to sequences outside it. */
  lemma PendingKept(c: Core, c': Core, entries: seq<BatchEntry>)
    requires BatchFits(c, entries)
    requires forall id :: InBatch(entries, id) && id in c.running ==> id in c'.running
    requires forall id :: InBatch(entries, id) && id in c.seqs ==> id in c'.seqs && c'.seqs[id] == c.seqs[id]
    ensures BatchFits(c', entries)
  {
    forall i | 0 <= i < |entries| ensures EntryFits(c', entries[i]) {
      assert EntryFits(c, entries[i]) && InBatch(entries, entries[i].id);
    }
  }

  lemma QueueStep(nPages: nat, s: System, a: Action)
    requires SysInv(nPages, s) && Enabled(s, a) && (a.Request? || a.Refuse? || a.Cancel?)
    ensures SysInv(nPages, Apply(s, a))
  {
    var c, c' := s.core, Apply(s, a).core;
    if a.Request? {
      EnqueueSettled(nPages, c, a.s);
      assert c.nextId !in c.seqs;
    } else if a.Refuse? {
      SkipId(nPages, c);
    } else {
      AbortSettled(nPages, c, a.id);
      AbortKeeps(nPages, c, a.id);
    }
    hide Inv, TotalWork, Settled;
    if s.pending.Batch? {
      PendingKept(c, c', s.pending.entries);
    }
  }

  lemma PlanStep(nPages: nat, s: System, a: Action)
    requires SysInv(nPages, s) && Enabled(s, a) && (a.Plan? || a.Publish?)
    ensures SysInv(nPages, Apply(s, a))
  {
    hide Inv, TotalWork;
    var c := s.core;
    if a.Plan? {
      match a.m
      case AdmitMove(_, out) => AdmitSettled(nPages, c, out);
      case FundMove(id, _, out) => FundKeeps(nPages, c, id, out);
      case PreemptMove(id) => PreemptWork(nPages, c, id);
    }
  }

  lemma PreemptWork(nPages: nat, c: Core, id: int)
    requires Inv(nPages, c) && id in c.running && id in c.seqs && c.seqs[id].state == DECODE
    ensures Inv(nPages, Preempt(c, id)) && TotalWork(Preempt(c, id)) <= TotalWork(c)
  {
    PreemptKeeps(nPages, c, id);
    assert RunningOk(c.seqs[id], c.log[id]);
    UpdateWork(c, Preempt(c, id), id);
  }

  /** The end of a round keeps the invariant if and only if no surviving sequence's page is too old. */
  lemma CompleteKeepsIff(nPages: nat, s: System, a: Action)
    requires SysInv(nPages, s) && Enabled(s, a) && a.Complete?
    ensures SysInv(nPages, Apply(s, a)) <==> WithinTtl(s, a)
  {
    hide Inv, TotalWork, Settled, Applied, RetireAll, Expired, LivePagesFresh;
    var c, entries := s.core, s.pending.entries;
    var r := AfterRound(c, entries, a.toks);
    RoundOwners(nPages, c, entries, a.toks);
    RetireSettles(nPages, Applied(c, entries, a.toks));
    StaleOwnedIff(nPages, c, s.touch, entries, a.toks, a.now, a.stale);
    ReclaimSettled(nPages, r, a.stale);
  }

  lemma StaleOwnedIff(nPages: nat, c: Core, touch: seq<nat>, entries: seq<BatchEntry>, toks: seq<int>, now: nat,
                      stale: set<int>)
    requires Inv(nPages, c) && BatchFits(c, entries) && |touch| == nPages
    requires forall p :: p in stale <==> Expired(c, touch, entries, now, p)
    ensures LivePagesFresh(c, touch, entries, toks, now) <==>
            forall id, p :: Owns(AfterRound(c, entries, toks).seqs, id, p) ==> p !in stale
    ensures forall p :: p in stale ==> 0 <= p < nPages
  {
    RoundOwners(nPages, c, entries, toks);
    var r := AfterRound(c, entries, toks);
    forall id, p | Owns(r.seqs, id, p)
      ensures p in stale <==> !Decoded(entries, id) && now - touch[p] > TTL_MS * 1000
    {
      assert Owns(c.seqs, id, p);
      OwnerDecoded(nPages, c, entries, id, p);
    }
  }

  /**
   Over every run within the time to live: each page is in exactly one place, waiting and preempted
   sequences own none, prefills are contiguous, and work is never created except by requests.
   */
  lemma {:induction false} RunKeeps(nPages: nat, s: System, run: seq<Action>)
    requires SysInv(nPages, s) && Legal(s, run)
    ensures SysInv(nPages, After(s, run))
    decreases |run|
  {
    hide SysInv, Enabled, WithinTtl;
    if run != [] {
      var a := run[0];
      if a.Request? || a.Refuse? || a.Cancel? {
        QueueStep(nPages, s, a);
      } else if a.Complete? {
        CompleteKeepsIff(nPages, s, a);
      } else {
        PlanStep(nPages, s, a);
      }
      RunKeeps(nPages, Apply(s, a), run[1..]);
    }
  }

  /** The work brought in by the accepted requests of a run. */
  function Requested(run: seq<Action>): int {
    if run == [] then 0 else (if run[0].Request? then RequestWork(run[0].s) else 0) + Requested(run[1..])
  }

  /** A request brings its prompt and at least one token, or as many as it may generate; other actions nothing. */
  lemma {:induction false} RequestedMeans(run: seq<Action>, a: Action)
    ensures Requested(run + [a]) == Requested(run) + Requested([a])
    ensures Requested([]) == 0
    ensures Requested([a]) == if a.Request? then |a.s.prompt| + (if a.s.maxNew > 1 then a.s.maxNew else 1) else 0
    decreases |run|
  {
    assert [a][1..] == [];
    if run == [] {
      assert run + [a] == [a];
    } else {
      assert (run + [a])[1..] == run[1..] + [a];
      RequestedMeans(run[1..], a);
    }
  }

  lemma {:induction false} CreditIsRequested(s: System, run: seq<Action>)
    requires Legal(s, run)
    ensures After(s, run).credit == s.credit + Requested(run)
    decreases |run|
  {
    hide Enabled, WithinTtl;
    if run != [] { CreditIsRequested(Apply(s, run[0]), run[1..]); }
  }

  ghost predicate Initial(nPages: nat, s: System) {
    && s.core.seqs == map[] && s.core.waiting == s.core.running == [] && s.core.orphans == {}
    && (forall p :: p in s.core.free <==> 0 <= p < nPages)
    && |s.touch| == nPages && s.pending.NoBatch? && s.rounds == 0 && s.credit == 0
  }

  /** Non-empty rounds are bounded by the prompts and the token limits of the requests. */
  lemma RoundsBounded(nPages: nat, s: System, run: seq<Action>)
    requires Initial(nPages, s) && Legal(s, run)
    ensures After(s, run).rounds <= Requested(run)
    ensures Inv(nPages, After(s, run).core)
  {
    EmptyCore(nPages, s.core);
    RunKeeps(nPages, s, run);
    CreditIsRequested(s, run);
    WorkNonNegative(nPages, After(s, run).core);
  }

  /** When a sequence decodes, every prompt position has been prefilled exactly once. */
  lemma PrefilledOnceBeforeDecode(nPages: nat, s: System, run: seq<Action>, id: int, k: int)
    requires SysInv(nPages, s) && Legal(s, run)
    requires var c := After(s, run).core; id in c.running && id in c.seqs && c.seqs[id].state == DECODE
    ensures var c := After(s, run).core;
            && id in c.log
            && (0 <= k < |c.seqs[id].prompt| <==> exists i :: 0 <= i < |c.log[id]| && Within(c.log[id][i], k))
            && forall i, j ::
                 0 <= i < |c.log[id]| && 0 <= j < |c.log[id]| && Within(c.log[id][i], k) && Within(c.log[id][j], k) ==>
                   i == j
  {
    RunKeeps(nPages, s, run);
    var c := After(s, run).core;
    assert RunningOk(c.seqs[id], c.log[id]);
    CoversOnce(c.log[id], |c.seqs[id].prompt|, k);
  }

  // ---- the calls of the scheduler are runs ----

  lemma {:induction false} RunConcat(s: System, r1: seq<Action>, r2: seq<Action>)
    requires Legal(s, r1) && Legal(After(s, r1), r2)
    ensures Legal(s, r1 + r2) && After(s, r1 + r2) == After(After(s, r1), r2)
    decreases |r1|
  {
    hide Enabled, WithinTtl, Apply;
    if r1 == [] {
      assert r1 + r2 == r2;
    } else {
      assert r1 + r2 == [r1[0]] + (r1[1..] + r2);
      RunConcat(Apply(s, r1[0]), r1[1..], r2);
    }
  }

  function Steps(plan: seq<Move>, now: nat): seq<Action> {
    seq(|plan|, i requires 0 <= i < |plan| => Plan(plan[i], now))
  }

  /** A legal run up to time `now` that makes a plan: it ends with core `c'`, no batch pending, in the same round. */
  ghost predicate RunsTo(s: System, run: seq<Action>, plan: seq<Move>, now: nat, c': Core) {
    && Legal(s, run)
    && var s' := After(s, run);
       && s'.core == c' && s'.pending.NoBatch? && s'.clock <= now && s'.rounds == s.rounds && s'.credit == s.credit
       && StampedBy(s.touch, s'.touch, c'.free, plan, now)
  }

  /** The moves of a plan, made at one time, are a legal run to the state and the stamps the plan leads to. */
  lemma {:induction false} PlanIsRun(s: System, plan: seq<Move>, now: nat, c': Core)
    requires s.pending.NoBatch? && now > 0 && now >= s.clock && Performs(s.core, plan, c')
    ensures RunsTo(s, Steps(plan, now), plan, now, c')
    decreases |plan|
  {
    hide CanDo, Do, Performs, Performed, RunsTo, Steps;
    if plan == [] {
      PerformsNone(s.core, c');
      RunsNowhere(s, now);
    } else {
      var n := |plan| - 1;
      var c1 := Performed(s.core, plan[..n]);
      PerformsInit(s.core, plan, c');
      PlanIsRun(s, plan[..n], now, c1);
      RunsOn(s, Steps(plan[..n], now), plan[..n], now, c1, plan[n]);
      StepsMore(plan, now);
      assert plan == plan[..n] + [plan[n]];
    }
  }

  lemma RunsNowhere(s: System, now: nat)
    requires s.pending.NoBatch? && now >= s.clock
    ensures RunsTo(s, Steps([], now), [], now, s.core)
  {
    assert Steps([], now) == [];
  }

  lemma StepsMore(plan: seq<Move>, now: nat)
    requires plan != []
    ensures var n := |plan| - 1; Steps(plan, now) == Steps(plan[..n], now) + [Plan(plan[n], now)]
  {
  }

  lemma RunsOn(s: System, run: seq<Action>, plan: seq<Move>, now: nat, c: Core, m: Move)
    requires RunsTo(s, run, plan, now, c) && CanDo(c, m) && now > 0
    ensures RunsTo(s, run + [Plan(m, now)], plan + [m], now, Do(c, m))
  {
    var mid := After(s, run);
    MoveAction(mid, m, now);
    MoveStamps(mid.touch, Do(c, m).free, m, now);
    hide Apply, Enabled, WithinTtl, CanDo, Do, StampedBy, Performs;
    OneAction(mid, Plan(m, now));
    RunConcat(s, run, [Plan(m, now)]);
    hide Legal, After;
    PerformsNothing(c);
    PerformsMore(c, [], c, m);
    assert [] + [m] == [m];
    StampedConcat(s.touch, mid.touch, Stamp(mid.touch, Taken(m), now), c, Do(c, m), plan, [m], now);
  }

  lemma MoveAction(s: System, m: Move, now: nat)
    requires s.pending.NoBatch? && CanDo(s.core, m) && now > 0 && now >= s.clock
    ensures var a := Plan(m, now);
            && Enabled(s, a) && WithinTtl(s, a)
            && var s' := Apply(s, a);
               && s'.core == Do(s.core, m) && s'.touch == Stamp(s.touch, Taken(m), now)
               && s'.pending.NoBatch? && s'.clock == now
               && s'.rounds == s.rounds && s'.credit == s.credit
  {
  }

  lemma OneAction(s: System, a: Action)
    requires Enabled(s, a) && WithinTtl(s, a)
    ensures Legal(s, [a]) && After(s, [a]) == Apply(s, a)
  {
    hide Enabled, WithinTtl, Apply;
    assert [a][1..] == [];
  }

  /** The stamps agree on the pages in use; a free page's stamp means nothing. */
  ghost predicate Agree(touch: seq<nat>, touch': seq<nat>, free: set<int>) {
    |touch'| == |touch| && forall p :: 0 <= p < |touch| && p !in free ==> touch'[p] == touch[p]
  }

  lemma AgreeAfter(c: Core, c': Core, plan: seq<Move>, now: nat, a: seq<nat>, a': seq<nat>, b: seq<nat>, b': seq<nat>)
    requires Performs(c, plan, c') && Agree(a, b, c.free)
    requires StampedBy(a, a', c'.free, plan, now) && StampedBy(b, b', c'.free, plan, now)
    ensures Agree(a', b', c'.free)
  {
    hide Performs, GrantedIn;
    forall p | 0 <= p < |a'| && p !in c'.free ensures b'[p] == a'[p] {
      if p in c.free { FreedOrGranted(c, plan, c', p); }
    }
  }

  /** A call of `schedule` that makes a plan and returns a batch is a legal run that publishes the batch. */
  lemma ScheduleIsRun(s: System, pageSize: int, t: Snap, plan: seq<Move>, now: nat, t': Snap, entries: seq<BatchEntry>)
    requires s.pending.NoBatch? && now > 0 && now >= s.clock && s.core == t.core && Agree(s.touch, t.touch, t.core.free)
    requires Makes(pageSize, t, plan, now, t') && BatchFits(t'.core, entries)
    ensures var run := Steps(plan, now) + [Publish(entries)];
            && Legal(s, run)
            && var s' := After(s, run);
               && s'.core == t'.core && Agree(s'.touch, t'.touch, t'.core.free) && s'.pending == Batch(entries)
               && s'.rounds == s.rounds && s'.credit == s.credit && s'.clock <= now
  {
    PlanIsRun(s, plan, now, t'.core);
    hide Performs, BatchFits, StampedBy, Agree, Rightful;
    var mid := After(s, Steps(plan, now));
    AgreeAfter(s.core, t'.core, plan, now, s.touch, mid.touch, t.touch, t'.touch);
    OneAction(mid, Publish(entries));
    RunConcat(s, Steps(plan, now), [Publish(entries)]);
    hide Legal, After;
  }

  /** A call of `step_complete` is the action that ends the round, and its condition is the action's. */
  lemma CompleteIsAction(nPages: nat, s: System, touch: seq<nat>, touch': seq<nat>, toks: seq<int>, now: nat,
                         stale: set<int>)
    requires s.pending.Batch? && now > 0 && now >= s.clock && Agree(s.touch, touch, s.core.free)
    requires Inv(nPages, s.core) && BatchFits(s.core, s.pending.entries)
    requires forall p :: p in stale <==> Expired(s.core, touch, s.pending.entries, now, p)
    requires StampedRound(s.core, touch, touch', s.pending.entries, now, stale)
    ensures var a := Complete(toks, now, stale);
            && Enabled(s, a)
            && (WithinTtl(s, a) <==> LivePagesFresh(s.core, touch, s.pending.entries, toks, now))
            && Apply(s, a).core == Reclaim(AfterRound(s.core, s.pending.entries, toks), stale)
            && Agree(Apply(s, a).touch, touch', Apply(s, a).core.free)
  {
    var c, entries := s.core, s.pending.entries;
    SameFresh(nPages, c, s.touch, touch, entries, toks, now);
    SameExpired(c, s.touch, touch, entries, now);
    RoundFree(nPages, c, entries, toks);
    hide Inv, BatchFits, Expired, LivePagesFresh, Agree, StampedRound, AfterRound;
    CompleteDoes(s, toks, now, stale);
    hide Apply, Enabled, WithinTtl;
    AgreeRound(c, s.touch, Apply(s, Complete(toks, now, stale)).touch, touch, touch', entries, now, stale);
  }

  lemma CompleteDoes(s: System, toks: seq<int>, now: nat, stale: set<int>)
    requires s.pending.Batch? && now > 0 && now >= s.clock
    requires forall p :: p in stale <==> Expired(s.core, s.touch, s.pending.entries, now, p)
    ensures var a := Complete(toks, now, stale);
            && Enabled(s, a)
            && (WithinTtl(s, a) <==> LivePagesFresh(s.core, s.touch, s.pending.entries, toks, now))
            && Apply(s, a).core == Reclaim(AfterRound(s.core, s.pending.entries, toks), stale)
            && StampedRound(s.core, s.touch, Apply(s, a).touch, s.pending.entries, now, stale)
  {
    hide Expired, LivePagesFresh, AfterRound, DecodedPage;
  }

  lemma RoundFree(nPages: nat, c: Core, entries: seq<BatchEntry>, toks: seq<int>)
    requires Inv(nPages, c) && BatchFits(c, entries)
    ensures AfterRound(c, entries, toks).free == c.free
  {
    hide Inv, BatchFits, AfterRound;
    RoundOwners(nPages, c, entries, toks);
  }

  lemma SameExpired(c: Core, touch: seq<nat>, touch': seq<nat>, entries: seq<BatchEntry>, now: nat)
    requires Agree(touch, touch', c.free)
    ensures forall p :: Expired(c, touch, entries, now, p) <==> Expired(c, touch', entries, now, p)
  {
    hide DecodedPage;
  }

  lemma SameFresh(nPages: nat, c: Core, touch: seq<nat>, touch': seq<nat>, entries: seq<BatchEntry>, toks: seq<int>,
                  now: nat)
    requires Inv(nPages, c) && BatchFits(c, entries) && Agree(touch, touch', c.free)
    ensures LivePagesFresh(c, touch, entries, toks, now) <==> LivePagesFresh(c, touch', entries, toks, now)
  {
    RoundOwners(nPages, c, entries, toks);
    InUse(nPages, c);
    hide Inv, AfterRound, Decoded, BatchFits;
  }

  lemma AgreeRound(c: Core, a: seq<nat>, a': seq<nat>, b: seq<nat>, b': seq<nat>, entries: seq<BatchEntry>, now: nat,
                   stale: set<int>)
    requires Agree(a, b, c.free)
    requires StampedRound(c, a, a', entries, now, stale) && StampedRound(c, b, b', entries, now, stale)
    ensures Agree(a', b', c.free + stale)
  {
    hide DecodedPage;
  }

  lemma InUse(nPages: nat, c: Core)
    requires Inv(nPages, c)
    ensures forall id, p :: Owns(c.seqs, id, p) ==> p !in c.free
  {
  }

  /** The object's state is the machine's. */
  ghost predicate Simulated(sch: Scheduler, s: System)
    reads sch, sch.pool
  {
    && s.core == sch.C() && Agree(s.touch, sch.pool.touchUs, s.core.free)
    && s.clock <= sch.clock && s.rounds == sch.rounds && s.credit == sch.credit
  }

  /** A call of `add_request` is one action. */
  method OneRequest(sch: Scheduler, prompt: seq<int>, maxNew: int, eos: int, ghost s: System)
      returns (r: AddResult, ghost a: Action)
    requires sch.Valid() && Simulated(sch, s)
    modifies sch
    ensures a == if r.Queued? then Request(Sequence(prompt, [], maxNew, eos, WAITING, [], 0)) else Refuse
    ensures sch.Valid() && Enabled(s, a) && Simulated(sch, Apply(s, a))
    ensures r == if |s.core.waiting| >= sch.cfg.maxWaiting then QueueFull else Queued(s.core.nextId)
  {
    hide Inv, Settled, TotalWork, PagePoolFast.Valid, PagePoolFast.Free;
    r := sch.AddRequest(prompt, maxNew, eos);
    a := if r.Queued? then Request(Sequence(prompt, [], maxNew, eos, WAITING, [], 0)) else Refuse;
  }

  /** A call of `abort_request` for a known sequence outside the pending batch is one action. */
  method OneCancel(sch: Scheduler, id: int, ghost s: System)
    requires sch.Valid() && Simulated(sch, s) && id in sch.seqs
    requires s.pending.Batch? ==> !InBatch(s.pending.entries, id)
    modifies sch, sch.pool
    ensures sch.Valid() && Enabled(s, Cancel(id)) && Simulated(sch, Apply(s, Cancel(id)))
  {
    hide Inv, Settled, TotalWork, PagePoolFast.Valid, PagePoolFast.Free;
    sch.AbortRequest(id);
  }

  /**
   One round of the scheduler's own methods, from any state of the machine that the object is in. The call
   of `schedule` is a legal run that publishes its batch, which is what `step_complete` asks for; that call
   is the action that ends the round, and leaves the object valid if and only if the action is legal.
   */
  method OneRound(sch: Scheduler, ts: nat, toks: seq<int>, now: nat, ghost s: System)
      returns (batch: ScheduledBatch, ghost prefilling: seq<int>, ghost candidates: seq<int>, ghost plan: RoundPlan,
               ghost mid: System, ghost last: Action)
    requires sch.Ready(ts) && now >= ts && Simulated(sch, s) && s.pending.NoBatch?
    modifies sch, sch.pool
    ensures var run := Steps(plan.Moves(), ts) + [Publish(batch.entries)]; Legal(s, run) && mid == After(s, run)
    ensures sch.cfg.pageSize > 0 && Rightful(sch.cfg.pageSize, s.core, plan.Moves())
    ensures Candidates(s.core, candidates) && Prefilling(mid.core, prefilling)
    ensures PlanShape(sch.cfg, s.core, plan, prefilling, candidates) && Preempted(plan, candidates)
    ensures BatchWellFormed(sch.cfg, mid.core, batch) && Exhaustive(sch.cfg, mid.core, batch)
    ensures batch.totalTokens == sch.cfg.maxBatchTokens - plan.budget
    ensures last.Complete? && last.toks == toks && last.now == now && Enabled(mid, last)
    ensures Simulated(sch, Apply(mid, last)) && (sch.Valid() <==> WithinTtl(mid, last))
    ensures sch.Valid() ==> sch.rounds <= sch.credit
  {
    hide Inv, TotalWork, Settled, PagePoolFast.Valid, PagePoolFast.Free, Performs, StampedBy, Rightful, Framed,
      PlanShape, Preempted, Candidates, Prefilling, Exhaustive, Victims, BatchWellFormed, LivePagesFresh,
      StampedRound, Expired, Legal, After, Enabled, WithinTtl, Apply, Agree, BatchFits;
    ghost var t := sch.S();
    batch, prefilling, candidates, plan := sch.Schedule(ts);
    ghost var t' := sch.S();
    FundedFits(sch.cfg, sch.C(), batch);
    ScheduleIsRun(s, sch.cfg.pageSize, t, plan.Moves(), ts, t', batch.entries);
    mid := After(s, Steps(plan.Moves(), ts) + [Publish(batch.entries)]);
    ghost var stale, _, _ := sch.StepComplete(batch.entries, toks, now);
    last := Complete(toks, now, stale);
    CompleteIsAction(sch.cfg.maxPages, mid, t'.touch, sch.pool.touchUs, toks, now, stale);
    CompleteCounts(mid, last);
    if sch.Valid() { WorkNonNegative(sch.cfg.maxPages, sch.C()); }
  }

  lemma CompleteCounts(s: System, a: Action)
    requires Enabled(s, a) && a.Complete?
    ensures var s' := Apply(s, a);
            && s'.rounds == s.rounds + (if s.pending.entries == [] then 0 else 1) && s'.credit == s.credit
            && s'.clock == a.now
  {
  }

  lemma FundedFits(cfg: Config, c: Core, b: ScheduledBatch)
    requires BatchWellFormed(cfg, c, b)
    ensures BatchFits(c, b.entries)
  {
    forall i | 0 <= i < |b.entries| ensures EntryFits(c, b.entries[i]) {
      assert EntryFunded(cfg.pageSize, c, b.entries[i]);
    }
  }

  // ---- a live page that outlives the scan's limit ----

  const QUIET: Sequence := Sequence([7], [], 1, -1, WAITING, [], 0)
  const LATE: nat := 2 + TTL_MS * 1000

  const EMPTY: System := System(Core(map[], [], [], 0, {0}, {}, map[]), [0], 0, NoBatch, 0, 0)

  /** The request waits. */
  const QUEUED: System := EMPTY.(core := Core(map[0 := QUIET], [0], [], 1, {0}, {}, map[0 := []]), credit := 2)

  /** It has been admitted with page 0. */
  const ADMITTED: System :=
    QUEUED.(core := Core(map[0 := QUIET.(state := PREFILL, pages := [0])], [], [0], 1, {}, {}, map[0 := []]),
            touch := [1], clock := 1)

  lemma RequestQuiet()
    ensures Enabled(EMPTY, Request(QUIET)) && Apply(EMPTY, Request(QUIET)) == QUEUED
  {
  }

  lemma AdmitQuiet()
    ensures Enabled(QUEUED, Plan(AdmitMove(1, [0]), 1)) && Apply(QUEUED, Plan(AdmitMove(1, [0]), 1)) == ADMITTED
  {
    var c, zero := QUEUED.core, [0];
    assert SetOf(zero) == {0} && Distinct(zero);
    var g := Grant(c, 0, zero);
    assert QUIET.pages + zero == zero && zero[1..] == [] && [] + zero == zero;
    assert g.free == {};
    var q := QUIET.(pages := zero);
    assert g.seqs == map[0 := q];
    assert Admit(g).seqs == map[0 := q.(state := PREFILL)];
    var s := Stamp(zero, zero, 1);
    assert |s| == 1 && s[0] == 1;
    assert s == [1];
  }

  lemma PublishNothing()
    ensures Enabled(ADMITTED, Publish([])) && Apply(ADMITTED, Publish([])) == ADMITTED.(pending := Batch([]))
  {
  }

  /**
   Without the hypothesis a round breaks exclusive ownership: a request is admitted with page 0 and then
   not scheduled until the scan takes the page back, which leaves it both free and owned.
   */
  lemma StaleOwnerReachable() returns (s: System, run: seq<Action>, last: Action)
    ensures Initial(1, s) && Legal(s, run)
    ensures last.Complete? && Enabled(After(s, run), last) && !WithinTtl(After(s, run), last)
    ensures var c := Apply(After(s, run), last).core; 0 in c.free && Owns(c.seqs, 0, 0) && !Inv(1, c)
  {
    hide Enabled, Apply, Inv, Owns;
    s, run, last := EMPTY, [Request(QUIET), Plan(AdmitMove(1, [0]), 1), Publish([])], Complete([], LATE, {0});
    RequestQuiet();
    AdmitQuiet();
    PublishNothing();
    ThreeActions(s, run[0], run[1], run[2], QUEUED, ADMITTED);
    TakenBack(ADMITTED.(pending := Batch([])));
  }

  lemma TakenBack(s: System)
    requires s.core.running == [0] && 0 in s.core.seqs && s.core.seqs[0].state == PREFILL && s.core.seqs[0].pages == [0]
    requires s.core.free == {} && s.touch == [1] && s.clock == 1 && s.pending == Batch([])
    ensures var last := Complete([], LATE, {0});
            && Enabled(s, last) && !WithinTtl(s, last)
            && var c := Apply(s, last).core; 0 in c.free && Owns(c.seqs, 0, 0) && !Inv(1, c)
  {
    var last := Complete([], LATE, {0});
    forall p ensures p in {0} <==> Expired(s.core, s.touch, [], LATE, p) { }
    NothingRetired(s.core);
    hide AfterRound;
    assert Owns(s.core.seqs, 0, 0) && !Decoded([], 0);
    var c := Apply(s, last).core;
    assert Owns(c.seqs, 0, 0) && 0 in c.free;
  }

  lemma ThreeActions(s: System, a1: Action, a2: Action, a3: Action, s1: System, s2: System)
    requires Enabled(s, a1) && WithinTtl(s, a1) && s1 == Apply(s, a1)
    requires Enabled(s1, a2) && WithinTtl(s1, a2) && s2 == Apply(s1, a2)
    requires Enabled(s2, a3) && WithinTtl(s2, a3)
    ensures Legal(s, [a1, a2, a3]) && After(s, [a1, a2, a3]) == Apply(s2, a3)
  {
    hide Enabled, WithinTtl, Apply;
    OneAction(s2, a3);
    assert [a1, a2, a3][1..] == [a2, a3] && [a2, a3][1..] == [a3];
  }

  /** A round without a batch retires nobody who is not finished. */
  lemma NothingRetired(c: Core)
    requires c.running == [0] && 0 in c.seqs && c.seqs[0].state == PREFILL
    ensures AfterRound(c, [], []) == c
  {
    var ids: seq<int> := [0];
    assert ids[..|ids| - 1] == [] && ids[|ids| - 1] == 0;
    assert Applied(c, [], []) == c && RetireAll(c, []) == c;
    assert RetireAll(c, ids) == c;
  }
}
