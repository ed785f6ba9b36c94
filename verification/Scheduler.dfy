/**
 The continuous-batching scheduler over `PagePoolFast`. The contract of every call gives the new state in
 terms of the actions of SchedulerModel, the plans of SchedulerPlan and the turns of SchedulerTurns.
 */
module Scheduling {
  import opened DistinctSeqs
  import opened FreeStack
  import opened Pool
  import opened SchedulerModel
  import opened SchedulerPlan
  import opened SchedulerTurns
  import opened SchedulerBatch
  import opened SchedulerRound

  datatype AddResult = Queued(id: int) | QueueFull

  class Scheduler {
    const cfg: Config
    const pool: PagePoolFast
    var seqs: map<int, Sequence>
    var waiting: seq<int>
    var running: seq<int>
    var nextId: int
    var totalRequests: nat
    var completed: nat
    var preemptions: nat
    var tokensGenerated: nat
    var reported: seq<Completion>  // the completion callbacks made, in order
    ghost var orphans: set<int>
    ghost var log: map<int, seq<Chunk>>
    ghost var clock: nat   // the latest time any call has seen
    ghost var rounds: nat  // completed rounds with a non-empty batch
    ghost var credit: int  // work brought in by all queued requests

    ghost function C(): Core
      reads this`seqs, this`waiting, this`running, this`nextId, this`orphans, this`log, pool`shard, pool`stacks
    {
      Core(seqs, waiting, running, nextId, pool.Free(), orphans, log)
    }

    ghost function S(): Snap
      reads this`seqs, this`waiting, this`running, this`nextId, this`orphans, this`log, pool`shard, pool`stacks,
        pool`touchUs
    {
      Snap(C(), pool.touchUs)
    }

    /** The invariant, up to finished sequences still in the running list. */
    ghost predicate Ok()
      reads this, pool
    {
      && pool.Valid() && |pool.next| == cfg.maxPages && cfg.pageSize > 0
      && Inv(cfg.maxPages, C())
      && (forall p :: 0 <= p < |pool.touchUs| ==> pool.touchUs[p] <= clock)
      && rounds + TotalWork(C()) <= credit
    }

    ghost predicate Valid()
      reads this, pool
    {
      Ok() && Settled(C())
    }

    constructor (cfg: Config)
      requires cfg.pageSize > 0
      ensures Valid() && this.cfg == cfg && fresh(pool) && pool.nShards == 16
      ensures seqs == map[] && rounds == 0 && credit == 0 && clock == 0
      ensures forall p :: p in pool.Free() <==> 0 <= p < cfg.maxPages
    {
      this.cfg := cfg;
      var p := new PagePoolFast(cfg.maxPages, 16);
      pool := p;
      seqs, waiting, running, nextId := map[], [], [], 0;
      totalRequests, completed, preemptions, tokensGenerated, reported := 0, 0, 0, 0, [];
      orphans, log, clock, rounds, credit := {}, map[], 0, 0, 0;
      new;
      EmptyCore(cfg.maxPages, C());
    }

    method AddRequest(prompt: seq<int>, maxNew: int, eos: int) returns (r: AddResult)
      requires Valid()
      modifies this
      ensures Valid() && clock == old(clock) && rounds == old(rounds)
      ensures totalRequests == old(totalRequests) + 1
      ensures r == if old(|waiting|) >= cfg.maxWaiting then QueueFull else Queued(old(nextId))
      ensures r.QueueFull? ==> C() == old(C()).(nextId := old(nextId) + 1) && credit == old(credit)
      ensures r.Queued? ==>
                var s := Sequence(prompt, [], maxNew, eos, WAITING, [], 0);
                && C() == Enqueue(old(C()), s) && credit == old(credit) + RequestWork(s)
                && seqs == old(seqs)[old(nextId) := s] && waiting == old(waiting) + [old(nextId)]
                && running == old(running) && nextId == old(nextId) + 1
    {
      hide Inv, Settled, TotalWork;
      var id := nextId;
      totalRequests := totalRequests + 1;
      if |waiting| >= cfg.maxWaiting {
        SkipId(cfg.maxPages, C());
        nextId := nextId + 1;
        r := QueueFull;
      } else {
        PushWaiting(Sequence(prompt, [], maxNew, eos, WAITING, [], 0));
        r := Queued(id);
      }
    }

    method PushWaiting(s: Sequence)
      requires Valid()
      requires s.state == WAITING && s.pages == [] && s.output == [] && s.cursor == 0
      modifies this`seqs, this`waiting, this`nextId, this`log, this`credit
      ensures Valid() && C() == Enqueue(old(C()), s) && credit == old(credit) + RequestWork(s)
    {
      hide Inv, Settled, TotalWork, PagePoolFast.Valid, PagePoolFast.Free, Distinct, PagesNeeded;
      EnqueueSettled(cfg.maxPages, C(), s);
      seqs := seqs[nextId := s];
      waiting := waiting + [nextId];
      log := log[nextId := []];
      nextId := nextId + 1;
      credit := credit + RequestWork(s);
    }

    /** Returns the sequence's pages and forgets it; an unknown id is ignored. */
    method AbortRequest(id: int)
      requires Valid()
      modifies this, pool
      ensures Valid() && clock == old(clock) && rounds == old(rounds) && credit == old(credit)
      ensures if id in old(seqs) then S() == Snap(Abort(old(C()), id), Stamp(old(pool.touchUs), old(seqs)[id].pages, 0))
              else S() == old(S())
      ensures id in old(seqs) ==>
                && seqs == old(seqs) - {id} && pool.Free() == old(pool.Free()) + SetOf(old(seqs)[id].pages)
                && (forall jd :: jd in waiting <==> jd in old(waiting) && jd != id)
                && (forall jd :: jd in running <==> jd in old(running) && jd != id)
    {
      hide Inv, Settled, TotalWork, Partition, PagePoolFast.Free, Distinct;
      if id in seqs {
        AbortSettled(cfg.maxPages, C(), id);
        WithoutQueued(cfg.maxPages, C(), id);
        FreeOf(id);
        seqs := seqs - {id};
        waiting := Without(waiting, id);
        running := Without(running, id);
      }
    }

    /** `free_pages(Sequence&)` on the pool side. */
    method FreeOf(id: int)
      requires pool.Valid() && |pool.next| == cfg.maxPages && id in seqs && Partition(cfg.maxPages, C())
      modifies pool
      ensures pool.Valid() && |pool.next| == old(|pool.next|)
      ensures pool.Free() == old(pool.Free()) + SetOf(seqs[id].pages)
      ensures pool.touchUs == Stamp(old(pool.touchUs), seqs[id].pages, 0)
      ensures forall p :: 0 <= p < |pool.touchUs| ==> pool.touchUs[p] <= old(pool.touchUs)[p]
    {
      pool.StampsKnown();
      if seqs[id].pages != [] {
        assert forall p :: p in seqs[id].pages ==> Owns(C().seqs, id, p);
        pool.FreePages(seqs[id].pages);
        pool.StampsKnown();
      }
      assert pool.touchUs == Stamp(old(pool.touchUs), seqs[id].pages, 0);
    }

    /** The pool's answer to a request: all the pages, newly stamped, or none. */
    method TakePages(n: nat, id: int, ts: nat) returns (out: seq<int>)
      requires pool.Valid() && ts > 0
      modifies pool
      ensures pool.Valid() && |pool.next| == old(|pool.next|)
      ensures |out| == if n <= old(|pool.Free()|) then n else 0
      ensures Distinct(out) && SetOf(out) <= old(pool.Free()) && pool.Free() == old(pool.Free()) - SetOf(out)
      ensures pool.touchUs == Stamp(old(pool.touchUs), out, ts)
    {
      hide PagePoolFast.Valid, PagePoolFast.Free;
      out := pool.Alloc(n, id, ts);
    }

    /** Grows a sequence's page list so that `n` more tokens fit, or leaves everything as it was. */
    method TryAlloc(id: int, n: int, ts: nat) returns (ok: bool, ghost out: seq<int>)
      requires pool.Valid() && cfg.pageSize > 0 && id in seqs && ts > 0
      modifies this`seqs, pool
      ensures pool.Valid() && |pool.next| == old(|pool.next|)
      ensures id in old(C()).seqs && Distinct(out) && SetOf(out) <= old(pool.Free())
      ensures C() == Grant(old(C()), id, out)
      ensures seqs == old(seqs)[id := old(seqs)[id].(pages := old(seqs)[id].pages + out)]
      ensures pool.Free() == old(pool.Free()) - SetOf(out)
      ensures ok ==> PagesNeeded(cfg.pageSize, seqs[id].TotalTokens() + n) <= |seqs[id].pages|
      ensures ok <==>
              PagesNeeded(cfg.pageSize, old(seqs)[id].TotalTokens() + n) <= |old(seqs)[id].pages| + |old(pool.Free())|
      ensures !ok ==> out == [] && seqs == old(seqs) && pool.Free() == old(pool.Free())
      ensures var more := Lacks(cfg.pageSize, old(seqs)[id], n);
              |out| == (if more <= |old(pool.Free())| then more else 0) && (ok <==> more <= |old(pool.Free())|)
      ensures pool.touchUs == Stamp(old(pool.touchUs), out, ts)
      ensures (forall p :: 0 <= p < old(|pool.touchUs|) ==> old(pool.touchUs)[p] <= ts) ==>
                forall p :: 0 <= p < |pool.touchUs| ==> pool.touchUs[p] <= ts
    {
      hide PagePoolFast.Valid, PagePoolFast.Free, PagesNeeded, Stamp;
      out := [];
      var needed := PagesNeeded(cfg.pageSize, seqs[id].TotalTokens() + n);
      var have := |seqs[id].pages|;
      GrantNothing(C(), id);
      StampNothing(pool.touchUs, ts);
      if needed <= have { return true, []; }
      var extra := needed - have;
      var fresh_ := TakePages(extra, id, ts);
      if |fresh_| < extra { return false, []; }
      StampBounded(old(pool.touchUs), fresh_, ts);
      seqs := seqs[id := seqs[id].(pages := seqs[id].pages + fresh_)];
      return true, fresh_;
    }

    /** `try_alloc_pages` for a sequence in the running list. */
    method Fund(id: int, n: int, ts: nat) returns (ok: bool, ghost m: Move)
      requires Ok() && id in running && id in seqs && seqs[id].state in {PREFILL, DECODE} && ts > 0 && ts >= clock
      modifies this`seqs, this`clock, pool
      ensures Ok() && clock == ts && id in seqs
      ensures AsksFor(m, id, n) && CanDo(old(C()), m) && Sized(cfg.pageSize, old(C()), m)
      ensures S() == Granted(old(S()), m, ts) && (ok <==> !Short(cfg.pageSize, old(C()), id, n))
      ensures ok <==> PagesNeeded(cfg.pageSize, seqs[id].TotalTokens() + n) <= |seqs[id].pages|
    {
      hide Inv, TotalWork, PagePoolFast.Valid, PagePoolFast.Free, Distinct, PagesNeeded, Lacks, Stamp, SetOf, Settled;
      ghost var c := C();
      ghost var out;
      ok, out := TryAlloc(id, n, ts);
      m := FundMove(id, n, out);
      FundKeeps(cfg.maxPages, c, id, out);
      clock := ts;
    }

    method PreemptSequence(id: int)
      requires Ok() && id in running && seqs[id].state == DECODE
      modifies this`seqs, this`preemptions, pool
      ensures Ok() && preemptions == old(preemptions) + 1
      ensures CanDo(old(C()), PreemptMove(id)) && S() == Dropped(old(S()), id)
      ensures id in old(seqs)
              && seqs == old(seqs)[id := old(seqs)[id].(pages := [], state := WAITING, cursor := 0, output := [])]
      ensures running == old(running) && pool.Free() == old(pool.Free()) + SetOf(old(seqs)[id].pages)
    {
      ghost var c := C();
      PreemptKeeps(cfg.maxPages, c, id);
      assert RunningOk(seqs[id], log[id]);
      UpdateWork(c, Preempt(c, id), id);
      hide Inv, TotalWork, RunningOk;
      FreeOf(id);
      var s := seqs[id];
      seqs := seqs[id := s.(pages := [], state := WAITING, cursor := 0, output := [])];
      preemptions := preemptions + 1;
    }

    /** A call at time `ts` may go on. */
    ghost predicate Ready(ts: nat)
      reads this, pool
    {
      Valid() && 0 < ts && clock <= ts
    }

    /** Pages and promotes the oldest waiting sequence, if the pool can fund one more page of tokens. */
    method AdmitFront(ts: nat) returns (ok: bool, ghost m: Move)
      requires Ready(ts) && waiting != []
      modifies this`seqs, this`waiting, this`running, this`clock, pool
      ensures Ready(ts)
      ensures ok ==> m.AdmitMove? && m.n == cfg.pageSize && CanDo(old(C()), m) && cfg.pageSize > 0
      ensures ok ==> Sized(cfg.pageSize, old(C()), m) && S() == Granted(old(S()), m, ts)
      ensures cfg.pageSize > 0 && (!ok ==> S() == old(S()) && Starved(cfg, C()))
    {
      hide Inv, Settled, TotalWork, PagePoolFast.Valid, PagePoolFast.Free, Distinct, PagesNeeded, Lacks;
      var id := waiting[0];
      ghost var c := C();
      FrontKnown(cfg.maxPages, c);
      ghost var out;
      ok, out := TryAlloc(id, cfg.pageSize, ts);
      m := AdmitMove(cfg.pageSize, out);
      clock := ts;
      if ok {
        MoveFront(c, out);
      } else {
        assert C() == c;
        assert pool.touchUs == old(pool.touchUs);
      }
    }

    /** Moves the funded front of the waiting queue to the end of the running list. */
    method MoveFront(ghost c: Core, ghost out: seq<int>)
      requires pool.Valid() && |pool.next| == cfg.maxPages && cfg.pageSize > 0 && waiting != [] && waiting[0] in c.seqs
      requires Inv(cfg.maxPages, c) && Settled(c) && Distinct(out) && SetOf(out) <= c.free
      requires c.waiting == waiting && C() == Grant(c, waiting[0], out)
      requires rounds + TotalWork(c) <= credit
      requires forall p :: 0 <= p < |pool.touchUs| ==> pool.touchUs[p] <= clock
      modifies this`seqs, this`waiting, this`running
      ensures Valid() && C() == Admit(old(C()))
    {
      hide Inv, Settled, TotalWork, PagePoolFast.Valid, PagePoolFast.Free, Distinct;
      AdmitSettled(cfg.maxPages, c, out);
      var id := waiting[0];
      seqs := seqs[id := seqs[id].(state := PREFILL)];
      running := running + [id];
      waiting := waiting[1..];
    }

    /** Admits in arrival order until the queue is empty, the running list is full or the front cannot be funded. */
    method PromoteWaiting(ts: nat) returns (ghost plan: seq<Move>)
      requires Ready(ts)
      modifies this`seqs, this`waiting, this`running, this`clock, pool
      ensures Ready(ts) && cfg.pageSize > 0 && Makes(cfg.pageSize, old(S()), plan, ts, S())
      ensures AdmitStage(cfg, old(C()), plan) && AdmitsEnd(cfg, C())
    {
      assert pool.Valid() && cfg.pageSize > 0;
      hide Ok, Valid, Makes, PagePoolFast.Valid, PagePoolFast.Free, Starved, AdmitStage;
      plan := [];
      ghost var s0 := S();
      AdmitStarts(cfg, s0.core);
      MakesNothing(cfg.pageSize, S(), ts);
      while waiting != [] && |running| < cfg.maxSeqsRunning
        invariant Ready(ts) && pool.Valid() && Makes(cfg.pageSize, s0, plan, ts, S())
        invariant AdmitStage(cfg, s0.core, plan)
        decreases |waiting|
      {
        var ok;
        ghost var m;
        ghost var s := S();
        ok, m := AdmitFront(ts);
        if !ok { break; }
        MakesGrant(cfg.pageSize, s, m, ts);
        MakesConcat(cfg.pageSize, s0, plan, s, [m], S(), ts);
        AdmitsMore(cfg, s0, plan, s, m, ts);
        plan := plan + [m];
      }
    }

    /** The running sequences in state `st`, oldest first. */
    method Pick(st: SeqState) returns (ids: seq<int>)
      requires Ok()
      ensures Picked(C(), ids, st)
      ensures forall id :: id in running && id in seqs && seqs[id].state == st ==> id in ids
    {
      RunningAscending(cfg.maxPages, C());
      PickStart(C(), st);
      hide Ok, PagePoolFast.Free, PickedUpTo, Picked, Ascending;
      ids := [];
      for i := 0 to |running|
        invariant PickedUpTo(C(), ids, st, i)
      {
        var id := running[i];
        PickNext(C(), ids, st, i);
        if seqs[id].state == st { ids := ids + [id]; }
      }
      PickEnd(C(), ids, st);
    }

    /** `try_alloc_pages`; on failure preempts the last decode candidate and tries once more. */
    method FundOrPreempt(id: int, n: int, ts: nat, decode: seq<int>)
      returns (ok: bool, decode': seq<int>, ghost gone: set<int>, ghost plan: seq<Move>)
      requires Ready(ts) && id in running && id in seqs && seqs[id].state == PREFILL && Picked(C(), decode, DECODE)
      modifies this`seqs, this`clock, this`preemptions, pool
      ensures Ready(ts) && Funded(old(C()), C(), id, gone) && id in seqs && id in old(seqs)
      ensures seqs[id] == old(seqs)[id].(pages := seqs[id].pages)
      ensures cfg.pageSize > 0 && Makes(cfg.pageSize, old(S()), plan, ts, S())
      ensures Asked(cfg.pageSize, old(C()), plan, id, n, decode, decode', ok)
      ensures if gone == {} then decode' == decode && Victims(plan) == []
              else decode != [] && decode' == decode[..|decode| - 1] && Victims(plan) == [decode[|decode| - 1]]
                   && gone == {decode[|decode| - 1]}
      ensures preemptions == old(preemptions) + |Victims(plan)|
      ensures ok <==> PagesNeeded(cfg.pageSize, seqs[id].TotalTokens() + n) <= |seqs[id].pages|
    {
      hide Inv, TotalWork, Settled, PagePoolFast.Valid, PagePoolFast.Free, Distinct, PagesNeeded, Makes, Victims, Sized,
        Short, Asked, Funded, CanDo, Do;
      ghost var s := S();
      ghost var m, m2;
      PickedLast(s.core, decode);
      decode', gone := decode, {};
      ok, m := Fund(id, n, ts);
      plan := [m];
      if ok || decode == [] {
        AskedOnce(cfg.pageSize, s, m, id, n, decode, ts);
      } else {
        var victim := decode[|decode| - 1];
        FundedOthers(s.core, m, id, victim);
        ok, m2 := PreemptAndFund(victim, id, n, ts);
        decode', gone := decode[..|decode| - 1], {victim};
        plan := [m, PreemptMove(victim), m2];
        AskedTwice(cfg.pageSize, s, m, m2, id, n, decode, ts);
      }
      FundedSettled(s.core, C(), id, gone);
    }

    /** Makes room by preempting one sequence and asks again. */
    method PreemptAndFund(victim: int, id: int, n: int, ts: nat) returns (ok: bool, ghost m: Move)
      requires Ok() && 0 < ts && clock <= ts && id in running && id in seqs && seqs[id].state == PREFILL
      requires victim in running && victim in seqs && seqs[victim].state == DECODE
      modifies this`seqs, this`clock, this`preemptions, pool
      ensures Ok() && clock == ts && preemptions == old(preemptions) + 1 && CanDo(old(C()), PreemptMove(victim))
      ensures AsksFor(m, id, n) && CanDo(old(Dropped(S(), victim)).core, m)
      ensures Sized(cfg.pageSize, old(Dropped(S(), victim)).core, m) && S() == Granted(old(Dropped(S(), victim)), m, ts)
      ensures ok <==> !Short(cfg.pageSize, old(Dropped(S(), victim)).core, id, n)
      ensures id in seqs && (ok <==> PagesNeeded(cfg.pageSize, seqs[id].TotalTokens() + n) <= |seqs[id].pages|)
    {
      hide Inv, TotalWork, Settled, PagePoolFast.Valid, PagePoolFast.Free, Distinct, PagesNeeded, Sized, Short;
      PreemptSequence(victim);
      ok, m := Fund(id, n, ts);
    }

    /** One iteration of the prefill loop. */
    method PrefillOne(prefill: seq<int>, ghost decode0: seq<int>, decode: seq<int>, entries: seq<BatchEntry>, i: nat,
                      left: int, ts: nat)
      returns (entries': seq<BatchEntry>, decode': seq<int>, left': int, ghost plan: seq<Move>)
      requires Ready(ts) && left > 0 && left == cfg.maxBatchTokens - Tokens(entries)
      requires i < |prefill| && PrefillState(cfg, C(), prefill, decode0, decode, entries, i)
      modifies this`seqs, this`clock, this`preemptions, pool
      ensures Ready(ts) && PrefillState(cfg, C(), prefill, decode0, decode', entries', i + 1)
      ensures left' == cfg.maxBatchTokens - Tokens(entries') && left' >= 0
      ensures cfg.pageSize > 0 && Makes(cfg.pageSize, old(S()), plan, ts, S()) && Calmer(old(C()), C())
      ensures PrefillForm(cfg, old(C()), plan, prefill[i], Left(decode, left), Left(decode', left'))
      ensures Shortened(decode, decode', plan) && preemptions == old(preemptions) + |Victims(plan)|
    {
      hide Inv, TotalWork, Settled, PagePoolFast.Valid, PagePoolFast.Free, Distinct, Tokens, PagesNeeded, Calmer,
        PrefillState, Makes, Funded, PrefillForm, Asked;
      entries', decode', left', plan := entries, decode, left, [];
      ghost var c := C();
      PrefillTurn(cfg, c, prefill, decode0, decode, entries, i);
      var id := prefill[i];
      var chunk := Min(seqs[id].RemainingPrefill(), Min(cfg.maxPrefillPerStep, left));
      if chunk <= 0 {
        MakesNothing(cfg.pageSize, S(), ts);
        NoMoves(cfg, c, id, Left(decode, left));
        PrefillSkipped(cfg, c, prefill, decode0, decode, entries, i, left);
        return;
      }
      var ok;
      ghost var gone;
      ok, decode', gone, plan := FundOrPreempt(id, chunk, ts, decode);
      PrefillMoved(cfg, c, C(), gone, prefill, decode0, decode, decode', entries, i);
      if ok {
        var e := BatchEntry(id, chunk, true, seqs[id].cursor);
        PrefillTaken(cfg, C(), prefill, decode0, decode', entries, i, e, left);
        entries', left' := entries + [e], left - chunk;
      } else {
        PrefillRefused(cfg, C(), prefill, decode0, decode', entries, i, chunk, left);
      }
      TurnAsked(cfg, c, plan, id, Left(decode, left), decode', ok);
    }

    /**
     Prefill chunks.  When the pool is out of pages the youngest remaining decode candidate, the last
     of `decode`, loses its pages.
     */
    method PrefillPhase(prefill: seq<int>, decode: seq<int>, ts: nat)
      returns (entries: seq<BatchEntry>, decode': seq<int>, left: int, i: nat, ghost plan: seq<Move>)
      requires Ready(ts) && cfg.pageSize > 0 && Picked(C(), prefill, PREFILL) && Picked(C(), decode, DECODE)
      modifies this`seqs, this`clock, this`preemptions, pool
      ensures Ready(ts) && PrefillState(cfg, C(), prefill, decode, decode', entries, i) && (i == |prefill| || left <= 0)
      ensures left == cfg.maxBatchTokens - Tokens(entries) && (entries != [] ==> left >= 0)
      ensures PrefillProgress(cfg, old(S()), S(), prefill, i, decode, Left(decode', left), plan, ts)
      ensures preemptions == old(preemptions) + |Victims(plan)|
    {
      hide Ok, Valid, PagePoolFast.Valid, PagePoolFast.Free, Tokens, Calmer, PrefillState, Makes, Victims, Picked,
        PrefillProgress, PrefillForm, Shortened;
      entries, decode', left, i, plan := [], decode, cfg.maxBatchTokens, 0, [];
      ghost var s0 := S();
      PrefillStarts(cfg, C(), prefill, decode);
      PrefillProgressStarts(cfg, s0, prefill, decode, ts);
      while i < |prefill| && left > 0
        invariant Ready(ts) && i <= |prefill| && PrefillState(cfg, C(), prefill, decode, decode', entries, i)
        invariant left == cfg.maxBatchTokens - Tokens(entries) && (entries != [] ==> left >= 0)
        invariant PrefillProgress(cfg, s0, S(), prefill, i, decode, Left(decode', left), plan, ts)
        invariant preemptions == old(preemptions) + |Victims(plan)|
      {
        ghost var s, l, more := S(), Left(decode', left), [];
        entries, decode', left, more := PrefillOne(prefill, decode, decode', entries, i, left, ts);
        PrefillProgresses(cfg, s0, s, S(), prefill, i, decode, l, Left(decode', left), plan, more, ts);
        plan := plan + more;
        i := i + 1;
      }
    }

    /** One token for each remaining decode candidate; one that cannot be funded is preempted itself. */
    method DecodePhase(decode: seq<int>, entries0: seq<BatchEntry>, budget: int, ts: nat)
      returns (entries: seq<BatchEntry>, left: int, i: nat, ghost plan: seq<Move>)
      requires Ready(ts) && Picked(C(), decode, DECODE) && cfg.pageSize > 0 && BatchFunded(cfg.pageSize, C(), entries0)
      requires forall k :: 0 <= k < |entries0| ==> entries0[k].isPrefill
      modifies this`seqs, this`clock, this`preemptions, pool
      ensures Ready(ts) && DecodeState(cfg, C(), decode, i, entries0, entries) && (i == |decode| || left <= 0)
      ensures Tokens(entries) - Tokens(entries0) == budget - left
      ensures left <= budget && (budget >= 0 || entries != entries0 ==> left >= 0)
      ensures DecodeProgress(cfg.pageSize, old(S()), S(), decode, i, plan, ts, budget, left)
      ensures preemptions == old(preemptions) + |Victims(plan)| && i == |entries| - |entries0| + |Victims(plan)|
    {
      hide Ok, Valid, PagePoolFast.Valid, PagePoolFast.Free, Tokens, SameExcept, DecodeState, BatchFunded, Picked,
        Makes, Victims, DecodeForm, DecodeProgress;
      entries, left, i, plan := entries0, budget, 0, [];
      ghost var s0, before := S(), preemptions;
      DecodeStarts(cfg, C(), decode, entries0);
      DecodeProgressStarts(cfg.pageSize, s0, decode, ts, budget);
      while i < |decode| && left > 0
        invariant Ready(ts) && i <= |decode| && DecodeState(cfg, C(), decode, i, entries0, entries)
        invariant Budgeted(entries0, entries, budget, left)
        invariant DecodeProgress(cfg.pageSize, s0, S(), decode, i, plan, ts, budget, left)
        invariant preemptions == before + |Victims(plan)| && i == |entries| - |entries0| + |Victims(plan)|
      {
        var ok;
        ghost var s, more, was := S(), [], entries;
        ok, entries, more := DecodeOne(decode, i, entries0, entries, left, ts);
        DecodeProgresses(cfg.pageSize, s0, s, S(), decode, i, plan, more, ts, budget, left,
          if ok then left - 1 else left);
        BudgetSpent(entries0, was, entries, budget, left);
        hide Budgeted;
        plan := plan + more;
        if ok { left := left - 1; }
        i := i + 1;
      }
    }

    /** One iteration of the decode loop. */
    method DecodeOne(decode: seq<int>, i: nat, ghost entries0: seq<BatchEntry>, entries: seq<BatchEntry>,
                     ghost left: int, ts: nat)
      returns (ok: bool, entries': seq<BatchEntry>, ghost plan: seq<Move>)
      requires Ready(ts) && left > 0 && i < |decode| && DecodeState(cfg, C(), decode, i, entries0, entries)
      modifies this`seqs, this`clock, this`preemptions, pool
      ensures Ready(ts) && DecodeState(cfg, C(), decode, i + 1, entries0, entries')
      ensures entries' == if ok then entries + [BatchEntry(decode[i], 1, false, 0)] else entries
      ensures Tokens(entries') - Tokens(entries) == if ok then 1 else 0
      ensures cfg.pageSize > 0 && Makes(cfg.pageSize, old(S()), plan, ts, S())
      ensures DecodeForm(cfg.pageSize, old(C()), plan, decode[i], left, if ok then left - 1 else left)
      ensures SameExcept(old(C()), C(), [decode[i]])
      ensures Victims(plan) == (if ok then [] else [decode[i]]) && preemptions == old(preemptions) + |Victims(plan)|
    {
      hide Inv, TotalWork, Settled, PagePoolFast.Valid, PagePoolFast.Free, Distinct, Tokens, PagesNeeded, DecodeState,
        Makes, Victims, SameExcept, Sized, Short;
      entries' := entries;
      var id := decode[i];
      ghost var c, s, m := C(), S(), PreemptMove(id);
      DecodeTurn(cfg, c, decode, i, entries0, entries);
      ok, m := Fund(id, 1, ts);
      ghost var c1 := C();
      if ok {
        MakesGrant(cfg.pageSize, s, m, ts);
        plan := [m];
        DecodeTaken(cfg, c, c1, decode, i, entries0, entries, m);
        entries' := entries + [BatchEntry(id, 1, false, 0)];
      } else {
        PreemptSequence(id);
        MakesPreempt(cfg.pageSize, s, m, id, ts);
        plan := [m, PreemptMove(id)];
        DecodeLost(cfg, c, c1, C(), decode, i, entries0, entries, m);
      }
      OneSettled(c, C(), id);
    }

    /**
     One scheduling round: admissions, then the turns of the prefilling sequences, which may preempt decoding
     ones, then the turns of the decoding sequences left.  `candidates` are the sequences decoding on entry
     and `prefilling` those prefilling on return, oldest first.  The state before the call leaves nothing open
     but which free pages are granted; pages are stamped exactly by being granted, and nobody is preempted
     unless the pool has just refused a grant for want of pages.
     */
    method Schedule(ts: nat)
      returns (batch: ScheduledBatch, ghost prefilling: seq<int>, ghost candidates: seq<int>, ghost plan: RoundPlan)
      requires Ready(ts)
      modifies this`seqs, this`waiting, this`running, this`clock, this`preemptions, pool
      ensures Ready(ts)
      ensures BatchWellFormed(cfg, C(), batch) && Exhaustive(cfg, C(), batch)
      ensures Makes(cfg.pageSize, old(S()), plan.Moves(), ts, S()) && Framed(old(C()), C(), Victims(plan.Moves()))
      ensures Candidates(old(C()), candidates) && Prefilling(C(), prefilling) && Ascending(running)
      ensures cfg.pageSize > 0 && PlanShape(cfg, old(C()), plan, prefilling, candidates) && Preempted(plan, candidates)
      ensures batch.totalTokens == cfg.maxBatchTokens - plan.budget
      ensures batch.nPreempted == |Victims(plan.Moves())| && preemptions == old(preemptions) + batch.nPreempted
    {
      hide Inv, TotalWork, Settled, PagePoolFast.Valid, PagePoolFast.Free, Distinct, PagesNeeded, Tokens, PrefillState,
        DecodeState, BatchFunded, AdmitStage, AdmitsEnd, Performs, Rightful, StampedBy, Victims, Reversed, Calmer,
        SameExcept, PrefillStage, DecodeStage;
      ghost var start := S();
      QueuesAscend(cfg.maxPages, start.core);
      ghost var admits := PromoteWaiting(ts);
      ghost var s0 := S();
      OnlyAdmissions(cfg, start.core, admits);
      AdmitsOnly(start.core, admits, s0.core);
      var prefill := Pick(PREFILL);
      var decode := Pick(DECODE);
      CandidatesKept(start.core, s0.core, decode);
      prefilling, candidates := prefill, decode;
      ghost var prefills, decodes;
      var pre, decode', left, i;
      pre, decode', left, i, prefills := PrefillPhase(prefill, decode, ts);
      ghost var mid := S();
      PrefillEnds(cfg, mid.core, prefill, decode, decode', pre, i);
      var entries, left', j;
      entries, left', j, decodes := DecodePhase(decode', pre, left, ts);
      DecodeEnds(cfg, C(), decode', j, pre, entries);
      batch := ScheduledBatch(entries, cfg.maxBatchTokens - left', |pre|, |entries| - |pre|,
                              |decode| - |decode'| + (j - (|entries| - |pre|)));
      plan := RoundPlan(admits, prefills, i, Left(decode', left), decodes, j, left');
      RunningAscending(cfg.maxPages, C());
      hide Makes, Picked;
      RoundPlanned(cfg, start, s0, mid, S(), prefill, decode, plan, ts);
      StillPrefilling(s0.core, mid.core, C(), prefill, decode');
      RoundResult(cfg, s0.core, mid.core, C(), prefill, decode, decode', pre, i, j, batch);
    }

    /** A prefill entry after the forward pass. */
    method CompletePrefill(e: BatchEntry)
      requires Ok() && EntryFits(C(), e) && e.isPrefill
      modifies this`seqs, this`log
      ensures Ok() && C() == ApplyEntry(old(C()), e, 0)
    {
      hide Inv, TotalWork, PagePoolFast.Valid, PagePoolFast.Free, Distinct;
      EntryLogged(cfg.maxPages, C(), e);
      ApplyStep(cfg.maxPages, C(), e, 0);
      var s := seqs[e.id];
      var s' := s.(cursor := s.cursor + e.n);
      if s'.RemainingPrefill() <= 0 { s' := s'.(state := DECODE); }
      seqs := seqs[e.id := s'];
      log := log[e.id := log[e.id] + [Chunk(s.cursor, e.n)]];
    }

    /** A decode entry after the forward pass. */
    method CompleteDecode(e: BatchEntry, tok: int, now: nat)
      requires Ok() && EntryFits(C(), e) && !e.isPrefill && now > 0 && now >= clock
      modifies this`seqs, this`clock, this`completed, this`reported, this`tokensGenerated, pool`touchUs
      ensures Ok() && clock == now && C() == ApplyEntry(old(C()), e, tok)
      ensures Refreshed(old(pool.touchUs), pool.touchUs, old(seqs)[e.id].pages, now)
      ensures tokensGenerated == old(tokensGenerated) + 1 && e.id in seqs
      ensures var done := seqs[e.id].state == DONE;
              && completed == old(completed) + (if done then 1 else 0)
              && reported == old(reported) + if done then [Completion(e.id, seqs[e.id].output)] else []
    {
      hide Inv, TotalWork, PagePoolFast.Valid, PagePoolFast.Free, Distinct;
      EntryLogged(cfg.maxPages, C(), e);
      ApplyStep(cfg.maxPages, C(), e, tok);
      EmitIs(C(), e, tok);
      hide ApplyEntry, Emit;
      var s := seqs[e.id];
      var s' := s.(output := s.output + [tok]);
      tokensGenerated := tokensGenerated + 1;
      pool.Touch(s.pages, now);
      clock := now;
      if |s'.output| >= s.maxNew || (s.eos >= 0 && tok == s.eos) {
        s' := s'.(state := DONE);
        reported := reported + [Completion(e.id, s'.output)];
        completed := completed + 1;
      }
      seqs := seqs[e.id := s'];
    }

    /** The entry loop of `step_complete`. */
    method CompleteEntries(entries: seq<BatchEntry>, toks: seq<int>, now: nat)
      returns (ghost finished: seq<nat>, ghost reports: seq<Completion>)
      requires Ok() && BatchFits(C(), entries) && now > 0 && now >= clock
      modifies this`seqs, this`log, this`clock, this`completed, this`reported, this`tokensGenerated, pool`touchUs
      ensures Ok() && clock <= now && C() == Applied(old(C()), entries, toks)
      ensures Stamped(old(C()), old(pool.touchUs), pool.touchUs, entries, now)
      ensures tokensGenerated == old(tokensGenerated) + DecodeCount(entries)
      ensures Finishing(old(seqs), entries, toks, |entries|, finished)
      ensures Reports(old(seqs), entries, toks, finished, reports)
      ensures reported == old(reported) + reports && completed == old(completed) + |finished|
    {
      hide Inv, TotalWork, Partition, Stamped, PagePoolFast.Valid, PagePoolFast.Free, Distinct, Finishing, Reports,
        Outcome;
      ghost var c0 := C();
      StampStart(c0, pool.touchUs, now);
      NothingFinished(c0.seqs, entries, toks);
      finished, reports := [], [];
      var decodeIdx := 0;
      for i := 0 to |entries|
        invariant Ok() && clock <= now && C() == Applied(c0, entries[..i], toks) && entries[..0] == []
        invariant Stamped(c0, old(pool.touchUs), pool.touchUs, entries[..i], now)
        invariant decodeIdx == Min(DecodeCount(entries[..i]), |toks|)
        invariant tokensGenerated == old(tokensGenerated) + DecodeCount(entries[..i])
        invariant Finishing(c0.seqs, entries, toks, i, finished) && Reports(c0.seqs, entries, toks, finished, reports)
        invariant reported == old(reported) + reports && completed == old(completed) + |finished|
      {
        hide Ok, BatchFits, Applied, DecodeCount, Min;
        decodeIdx, finished, reports :=
          CompleteOne(entries, toks, now, i, decodeIdx, c0, old(pool.touchUs), finished, reports);
      }
      assert entries[..|entries|] == entries;
    }

    /** One entry: the k-th decode entry gets the k-th token. */
    method CompleteOne(entries: seq<BatchEntry>, toks: seq<int>, now: nat, i: nat, decodeIdx: nat, ghost c0: Core,
                       ghost touch0: seq<nat>, ghost finished: seq<nat>, ghost reports: seq<Completion>)
      returns (decodeIdx': nat, ghost finished': seq<nat>, ghost reports': seq<Completion>)
      requires Ok() && now > 0 && clock <= now && i < |entries| && Inv(cfg.maxPages, c0) && BatchFits(c0, entries)
      requires C() == Applied(c0, entries[..i], toks) && Stamped(c0, touch0, pool.touchUs, entries[..i], now)
      requires decodeIdx == Min(DecodeCount(entries[..i]), |toks|)
      requires Finishing(c0.seqs, entries, toks, i, finished) && Reports(c0.seqs, entries, toks, finished, reports)
      modifies this`seqs, this`log, this`clock, this`completed, this`reported, this`tokensGenerated, pool`touchUs
      ensures Ok() && clock <= now && C() == Applied(c0, entries[..i + 1], toks)
      ensures Stamped(c0, touch0, pool.touchUs, entries[..i + 1], now)
      ensures decodeIdx' == Min(DecodeCount(entries[..i + 1]), |toks|)
      ensures tokensGenerated - old(tokensGenerated) == DecodeCount(entries[..i + 1]) - DecodeCount(entries[..i])
      ensures Finishing(c0.seqs, entries, toks, i + 1, finished')
      ensures Reports(c0.seqs, entries, toks, finished', reports')
      ensures reports <= reports' && reported == old(reported) + reports'[|reports|..]
      ensures completed == old(completed) + |finished'| - |finished|
    {
      hide Inv, TotalWork, Partition, Stamped, PagePoolFast.Valid, PagePoolFast.Free, Distinct, Finishing, Reports,
        Outcome;
      finished', reports', decodeIdx' := finished, reports, decodeIdx;
      NextFits(cfg.maxPages, c0, entries, toks, i);
      AppliedPages(cfg.maxPages, c0, entries, toks, i);
      AppliedEntry(cfg.maxPages, c0, entries, toks, i + 1, i);
      FinishedNext(c0.seqs, entries, toks, i, finished, reports);
      hide BatchFits;
      var e := entries[i];
      ghost var touch1 := pool.touchUs;
      if e.isPrefill {
        CompletePrefill(e);
        StampPrefill(c0, entries, i, touch0, touch1, now);
      } else {
        var tok := 0;
        if decodeIdx < |toks| {
          tok := toks[decodeIdx];
          decodeIdx' := decodeIdx + 1;
        }
        CompleteDecode(e, tok, now);
        StampDecode(cfg.maxPages, c0, entries, i, touch0, touch1, pool.touchUs, now);
        if seqs[e.id].state == DONE {
          finished', reports' := finished + [i], reports + [Completion(e.id, seqs[e.id].output)];
        }
      }
    }

    /** Erases the finished sequences from the running list; their pages become orphans. */
    method RetireDone()
      requires Ok()
      modifies this`seqs, this`running, this`orphans
      ensures Valid() && C() == RetireAll(old(C()), old(running))
    {
      hide Inv, TotalWork, Settled, PagePoolFast.Valid, PagePoolFast.Free, Distinct, RetireAll;
      RetireSettles(cfg.maxPages, C());
      EraseDone();
    }

    method EraseDone()
      modifies this`seqs, this`running, this`orphans
      ensures C() == RetireAll(old(C()), old(running))
    {
      hide PagePoolFast.Free, Retire;
      ghost var c0 := C();
      var ids := running;
      for i := 0 to |ids|
        invariant C() == RetireAll(c0, ids[..i])
      {
        var id := ids[i];
        RetireNext(c0, ids, i);
        if id in seqs && seqs[id].state == DONE {
          RetireIs(C(), id);
          orphans := orphans + SetOf(seqs[id].pages);
          running := Without(running, id);
          seqs := seqs - {id};
        }
      }
      assert ids[..|ids|] == ids;
    }

    /**
     The leak scan.  It does not know owners, so it keeps the invariant exactly when no live
     sequence's page is older than the time to live.
     */
    method ScanLeaks(now: nat) returns (ghost stale: set<int>)
      requires Valid() && now >= clock
      modifies this`orphans, pool
      ensures pool.Valid() && C() == Reclaim(old(C()), stale) && Swept(old(pool.touchUs), pool.touchUs, stale)
      ensures forall p :: p in stale <==> old(pool.Stale(now, TTL_MS, p))
      ensures Valid() <==> old(OwnedFresh(seqs, pool.touchUs, now))
    {
      hide Inv, Settled, TotalWork, PagePoolFast.Valid, PagePoolFast.Free, PagePoolFast.Stale, OwnedFresh, Distinct,
        Owns, Queues, Partition;
      stale := StalePages(now);
      ReclaimSettled(cfg.maxPages, C(), stale);
      Sweep(now, stale);
    }

    /** The pool's leak scan takes back every stale page, whoever owns it. */
    method Sweep(now: nat, ghost stale: set<int>)
      requires pool.Valid() && forall p :: 0 <= p < |pool.touchUs| ==> pool.touchUs[p] <= now
      requires forall p :: p in stale <==> pool.Stale(now, TTL_MS, p)
      modifies this`orphans, pool
      ensures pool.Valid() && |pool.next| == old(|pool.next|) && C() == Reclaim(old(C()), stale)
      ensures Swept(old(pool.touchUs), pool.touchUs, stale)
    {
      hide PagePoolFast.Valid, PagePoolFast.Free, PagePoolFast.Stale;
      SweepPool(now, stale);
      orphans := orphans - stale;
    }

    method SweepPool(now: nat, ghost stale: set<int>)
      requires pool.Valid() && forall p :: 0 <= p < |pool.touchUs| ==> pool.touchUs[p] <= now
      requires forall p :: p in stale <==> pool.Stale(now, TTL_MS, p)
      modifies pool
      ensures pool.Valid() && |pool.next| == old(|pool.next|) && pool.Free() == old(pool.Free()) + stale
      ensures Swept(old(pool.touchUs), pool.touchUs, stale)
    {
      assert |pool.touchUs| == |pool.next|;
      hide PagePoolFast.Free, PagePoolFast.Stale;
      var n := pool.LeakScan(now, TTL_MS);
    }

    /** The stale pages; only their age decides about the live ones, since those are in use. */
    ghost function StalePages(now: nat): (stale: set<int>)
      requires Valid()
      reads this, pool
      ensures forall p :: p in stale <==> pool.Stale(now, TTL_MS, p)
      ensures forall p :: p in stale ==> 0 <= p < |pool.next|
      ensures OwnedFresh(seqs, pool.touchUs, now) <==> forall id, p :: Owns(seqs, id, p) ==> p !in stale
    {
      assert forall id, p :: Owns(C().seqs, id, p) ==> 0 <= p < |pool.next| && p !in pool.Free();
      set p | 0 <= p < |pool.touchUs| && pool.Stale(now, TTL_MS, p)
    }

    /**
     Called after the forward pass.  The pages of finished sequences are only reclaimed by the leak
     scan, and every page stays in exactly one place if and only if the live pages are fresh enough.
     */
    method StepComplete(entries: seq<BatchEntry>, toks: seq<int>, now: nat)
      returns (ghost stale: set<int>, ghost finished: seq<nat>, ghost reports: seq<Completion>)
      requires Valid() && BatchFits(C(), entries) && now > 0 && now >= clock
      modifies this, pool
      ensures pool.Valid() && C() == Reclaim(AfterRound(old(C()), entries, toks), stale)
      ensures forall p :: p in stale <==> Expired(old(C()), old(pool.touchUs), entries, now, p)
      ensures StampedRound(old(C()), old(pool.touchUs), pool.touchUs, entries, now, stale)
      ensures Valid() <==> LivePagesFresh(old(C()), old(pool.touchUs), entries, toks, now)
      ensures tokensGenerated == old(tokensGenerated) + DecodeCount(entries)
      ensures rounds == old(rounds) + (if entries == [] then 0 else 1) && credit == old(credit) && clock == now
      ensures RoundOutcome(old(seqs), seqs, entries, toks)
      ensures Finishing(old(seqs), entries, toks, |entries|, finished)
      ensures Reports(old(seqs), entries, toks, finished, reports)
      ensures reported == old(reported) + reports && completed == old(completed) + |finished|
    {
      hide Ok, Valid, Inv, TotalWork, Settled, PagePoolFast.Valid, PagePoolFast.Free, PagePoolFast.Stale, Distinct,
        LivePagesFresh, Stamped, OwnedFresh, AfterRound, BatchFits, DecodeCount, Queues, Partition, Owns,
        Expired, DecodedPage, RoundOutcome, Finishing, Reports;
      ghost var c, touch := C(), pool.touchUs;
      BeforeRound(entries);
      finished, reports := CompleteRound(entries, toks, now);
      StaleIff(cfg.maxPages, c, touch, pool.touchUs, entries, toks, now);
      StaleAre(c, touch, entries, now);
      ghost var touch1 := pool.touchUs;
      stale := ScanLeaks(now);
      RoundStamped(c, touch, touch1, pool.touchUs, entries, now, stale);
    }

    /** Before the round: stamps mark the pages in use, and no free page belongs to a decoding sequence. */
    lemma BeforeRound(entries: seq<BatchEntry>)
      requires Valid()
      ensures pool.Valid() && Inv(cfg.maxPages, C()) && |pool.touchUs| == cfg.maxPages
      ensures forall p :: 0 <= p < |pool.touchUs| ==> (pool.touchUs[p] == 0 <==> p in C().free)
      ensures forall p :: p in C().free ==> !DecodedPage(C(), entries, p)
    {
      pool.StampsKnown();
    }

    /** After the round the scan sees as stale exactly the pages that have expired. */
    lemma StaleAre(c: Core, touch: seq<nat>, entries: seq<BatchEntry>, now: nat)
      requires Stamped(c, touch, pool.touchUs, entries, now) && now > 0
      requires forall p :: 0 <= p < |touch| ==> (touch[p] == 0 <==> p in c.free)
      requires forall p :: p in c.free ==> !DecodedPage(c, entries, p)
      ensures forall p :: pool.Stale(now, TTL_MS, p) <==> Expired(c, touch, entries, now, p)
    {
    }

    /** Everything `step_complete` does before the leak scan. */
    method CompleteRound(entries: seq<BatchEntry>, toks: seq<int>, now: nat)
      returns (ghost finished: seq<nat>, ghost reports: seq<Completion>)
      requires Valid() && BatchFits(C(), entries) && now > 0 && now >= clock
      modifies this`seqs, this`log, this`clock, this`completed, this`reported, this`tokensGenerated, this`rounds,
        this`running, this`orphans, pool`touchUs
      ensures pool.Valid() && Valid() && C() == AfterRound(old(C()), entries, toks)
      ensures Stamped(old(C()), old(pool.touchUs), pool.touchUs, entries, now)
      ensures tokensGenerated == old(tokensGenerated) + DecodeCount(entries)
      ensures rounds == old(rounds) + (if entries == [] then 0 else 1) && clock == now
      ensures RoundOutcome(old(seqs), seqs, entries, toks)
      ensures Finishing(old(seqs), entries, toks, |entries|, finished)
      ensures Reports(old(seqs), entries, toks, finished, reports)
      ensures reported == old(reported) + reports && completed == old(completed) + |finished|
    {
      hide Inv, TotalWork, Settled, PagePoolFast.Valid, PagePoolFast.Free, Distinct, Stamped, RoundOutcome, Finishing,
        Reports;
      RoundOwners(cfg.maxPages, C(), entries, toks);
      RoundGives(cfg.maxPages, C(), entries, toks);
      finished, reports := CompleteEntries(entries, toks, now);
      if entries != [] { rounds := rounds + 1; }
      clock := now;
      RetireDone();
    }
  }
}
