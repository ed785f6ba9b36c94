/**
 The batch that one call of `schedule` builds: what its loops have achieved after each candidate, and how the
 plans of the turns make the plan of the round.
 */
module SchedulerBatch {
  import opened DistinctSeqs
  import opened SchedulerModel
  import opened SchedulerPlan
  import opened SchedulerTurns

  datatype ScheduledBatch = ScheduledBatch(
    entries: seq<BatchEntry>, totalTokens: int, nPrefill: nat, nDecode: nat, nPreempted: nat)

  // ---- batches ----

  /** The entry points to a running sequence in the state its kind asks for, at its next position. */
  ghost predicate EntryFits(c: Core, e: BatchEntry) {
    && e.id in c.running && e.id in c.seqs
    && var s := c.seqs[e.id];
       if e.isPrefill then s.state == PREFILL && e.start == s.cursor && 0 < e.n <= s.RemainingPrefill()
       else s.state == DECODE && e.n == 1 && e.start == 0
  }

  ghost predicate EntryFunded(pageSize: int, c: Core, e: BatchEntry)
    requires pageSize > 0
  {
    EntryFits(c, e) && PagesNeeded(pageSize, c.seqs[e.id].TotalTokens() + e.n) <= |c.seqs[e.id].pages|
  }

  /** No two entries point to the same sequence. */
  ghost predicate DistinctEntries(entries: seq<BatchEntry>) {
    forall i, j :: 0 <= i < j < |entries| ==> entries[i].id != entries[j].id
  }

  ghost predicate BatchFits(c: Core, entries: seq<BatchEntry>) {
    DistinctEntries(entries) && forall i :: 0 <= i < |entries| ==> EntryFits(c, entries[i])
  }

  ghost predicate BatchFunded(pageSize: int, c: Core, entries: seq<BatchEntry>)
    requires pageSize > 0
  {
    DistinctEntries(entries) && forall i :: 0 <= i < |entries| ==> EntryFunded(pageSize, c, entries[i])
  }

  function Tokens(entries: seq<BatchEntry>): int {
    if entries == [] then 0 else Tokens(entries[..|entries| - 1]) + entries[|entries| - 1].n
  }

  ghost predicate InBatch(entries: seq<BatchEntry>, id: int) {
    exists i :: 0 <= i < |entries| && entries[i].id == id
  }

  /** Ids of running sequences in one state, oldest first. */
  ghost predicate Picked(c: Core, ids: seq<int>, st: SeqState) {
    Ascending(ids) && forall id :: id in ids ==> id in c.running && id in c.seqs && c.seqs[id].state == st
  }

  /** The candidates from position `n` on have been preempted. */
  ghost predicate Lost(c: Core, decode: seq<int>, n: nat) {
    forall k :: n <= k < |decode| ==> decode[k] in c.seqs && c.seqs[decode[k]].state == WAITING
  }

  /** From `c` to `c'` the sequence `id` may have gained pages and the sequences in `gone` were preempted. */
  ghost predicate Funded(c: Core, c': Core, id: int, gone: set<int>) {
    && c'.running == c.running && c'.seqs.Keys == c.seqs.Keys
    && (forall jd :: jd in c.seqs && jd != id && jd !in gone ==> c'.seqs[jd] == c.seqs[jd])
    && (id in c.seqs ==> c'.seqs[id] == c.seqs[id].(pages := c'.seqs[id].pages))
    && (forall jd :: jd in gone ==> jd in c.seqs && c.seqs[jd].state == DECODE && c'.seqs[jd].state == WAITING)
  }

  /** No state changes except by preemption. */
  ghost predicate Calmer(c: Core, c': Core) {
    && c'.running == c.running && c'.seqs.Keys == c.seqs.Keys
    && forall jd :: jd in c.seqs ==> c'.seqs[jd].state == c.seqs[jd].state || c'.seqs[jd].state == WAITING
  }

  lemma FundedCalmer(c: Core, c': Core, id: int, gone: set<int>)
    requires Funded(c, c', id, gone) && id in c.seqs
    ensures Calmer(c, c')
  {
  }

  lemma FundedSettled(c: Core, c': Core, id: int, gone: set<int>)
    requires Funded(c, c', id, gone) && Settled(c) && id in c.seqs
    ensures Settled(c')
  {
    forall jd | jd in c'.running ensures jd in c'.seqs && !c'.seqs[jd].IsDone() {
      assert jd in c.seqs && !c.seqs[jd].IsDone();
    }
  }

  lemma FundedKeepsPicks(c: Core, c': Core, id: int, gone: set<int>, prefill: seq<int>, decode: seq<int>, n: nat,
                         n': nat)
    requires Funded(c, c', id, gone) && id in c.seqs && c.seqs[id].state == PREFILL
    requires Picked(c, prefill, PREFILL) && n' <= n <= |decode|
    requires Picked(c, decode[..n], DECODE) && Lost(c, decode, n) && Ascending(decode)
    requires forall k :: n' <= k < n ==> decode[k] in gone
    requires forall jd :: jd in gone ==> exists k :: n' <= k < n && decode[k] == jd
    ensures Picked(c', prefill, PREFILL) && Picked(c', decode[..n'], DECODE) && Lost(c', decode, n')
  {
    forall jd | jd in decode[..n'] ensures jd in c'.running && jd in c'.seqs && c'.seqs[jd].state == DECODE {
      var k :| 0 <= k < n' && decode[k] == jd;
      assert jd == decode[..n][k] && jd in decode[..n];
      assert jd !in gone;
    }
    assert Ascending(decode[..n']);
    forall k | n' <= k < |decode| ensures decode[k] in c'.seqs && c'.seqs[decode[k]].state == WAITING {
      var jd := decode[k];
      assert if k < n then jd in gone else jd in c.seqs && c.seqs[jd].state == WAITING;
    }
  }

  /** Entries survive changes to other sequences. */
  lemma OtherEntries(pageSize: int, c: Core, c': Core, entries: seq<BatchEntry>)
    requires pageSize > 0 && BatchFunded(pageSize, c, entries) && c'.running == c.running
    requires forall id :: InBatch(entries, id) && id in c.seqs ==> id in c'.seqs && c'.seqs[id] == c.seqs[id]
    ensures BatchFunded(pageSize, c', entries)
  {
    forall i | 0 <= i < |entries| ensures EntryFunded(pageSize, c', entries[i]) {
      assert EntryFunded(pageSize, c, entries[i]) && InBatch(entries, entries[i].id);
    }
  }

  lemma NotBatchedYet(prefill: seq<int>, i: nat, entries: seq<BatchEntry>)
    requires Ascending(prefill) && i < |prefill|
    requires forall k :: 0 <= k < |entries| ==> entries[k].id in prefill[..i]
    ensures !InBatch(entries, prefill[i])
  {
    assert forall j :: 0 <= j < i ==> prefill[..i][j] == prefill[j];
  }

  lemma PrefillEntriesKept(pageSize: int, c: Core, c': Core, id: int, gone: set<int>, entries: seq<BatchEntry>)
    requires pageSize > 0 && Funded(c, c', id, gone) && !InBatch(entries, id)
    requires BatchFunded(pageSize, c, entries) && forall k :: 0 <= k < |entries| ==> entries[k].isPrefill
    ensures BatchFunded(pageSize, c', entries)
  {
    forall jd | InBatch(entries, jd) && jd in c.seqs ensures jd in c'.seqs && c'.seqs[jd] == c.seqs[jd] {
      var k :| 0 <= k < |entries| && entries[k].id == jd;
      assert EntryFunded(pageSize, c, entries[k]);
    }
    OtherEntries(pageSize, c, c', entries);
  }

  /** A prefill batch contains no decode candidate. */
  lemma DecodeFresh(pageSize: int, c: Core, decode: seq<int>, entries: seq<BatchEntry>)
    requires pageSize > 0 && Picked(c, decode, DECODE) && BatchFunded(pageSize, c, entries)
    requires forall k :: 0 <= k < |entries| ==> entries[k].isPrefill
    ensures decode[0..] == decode && forall k :: 0 <= k < |decode| ==> !InBatch(entries, decode[k])
  {
    forall k | 0 <= k < |decode| ensures !InBatch(entries, decode[k]) {
      var id := decode[k];
      assert id in decode;
      assert forall j :: 0 <= j < |entries| ==> EntryFunded(pageSize, c, entries[j]);
    }
  }

  ghost predicate BatchedOrLost(c: Core, entries: seq<BatchEntry>, id: int) {
    InBatch(entries, id) || (id in c.seqs && c.seqs[id].state == WAITING)
  }

  /** Only the listed sequences may differ. */
  ghost predicate SameExcept(c: Core, c': Core, ids: seq<int>) {
    && c'.running == c.running && c'.seqs.Keys == c.seqs.Keys
    && (forall jd :: jd in c.seqs && jd !in ids ==> c'.seqs[jd] == c.seqs[jd])
    && (forall jd :: jd in c.seqs && c'.seqs[jd].state == PREFILL ==> c'.seqs[jd] == c.seqs[jd])
  }

  lemma SameExceptRefl(c: Core, ids: seq<int>)
    ensures SameExcept(c, c, ids)
  {
  }

  lemma SameExceptTrans(c0: Core, c1: Core, c2: Core, ids: seq<int>, i: nat)
    requires i < |ids| && SameExcept(c0, c1, ids) && SameExcept(c1, c2, [ids[i]])
    ensures SameExcept(c0, c2, ids)
  {
    assert ids[i] in ids;
  }

  /** Changing the candidate at position `i` concerns neither the entries nor the later candidates. */
  lemma OneChanged(pageSize: int, c: Core, c': Core, decode: seq<int>, i: nat, entries: seq<BatchEntry>)
    requires pageSize > 0 && i < |decode| && Ascending(decode)
    requires Picked(c, decode[i..], DECODE) && BatchFunded(pageSize, c, entries)
    requires forall k :: i <= k < |decode| ==> !InBatch(entries, decode[k])
    requires c'.running == c.running && c'.seqs.Keys == c.seqs.Keys
    requires forall jd :: jd in c.seqs && jd != decode[i] ==> c'.seqs[jd] == c.seqs[jd]
    ensures Picked(c', decode[i + 1..], DECODE) && BatchFunded(pageSize, c', entries)
    ensures forall k :: 0 <= k < i && BatchedOrLost(c, entries, decode[k]) ==> BatchedOrLost(c', entries, decode[k])
  {
    OtherEntries(pageSize, c, c', entries);
    var rest := decode[i + 1..];
    assert forall k :: 0 <= k < |rest| ==> rest[k] == decode[i + 1 + k];
    forall jd | jd in rest ensures jd in c'.running && jd in c'.seqs && c'.seqs[jd].state == DECODE {
      var k :| 0 <= k < |rest| && rest[k] == jd;
      assert jd == decode[i..][k + 1] && jd in decode[i..];
    }
  }

  /** Every prefill entry is as long as the prompt, the per-step limit and the budget left allow. */
  ghost predicate Chunked(cfg: Config, c: Core, entries: seq<BatchEntry>)
    decreases |entries|
  {
    entries != [] ==>
      var n := |entries| - 1;
      Chunked(cfg, c, entries[..n]) && ChunkLen(cfg, c, entries[n], cfg.maxBatchTokens - Tokens(entries[..n]))
  }

  ghost predicate ChunkLen(cfg: Config, c: Core, e: BatchEntry, left: int) {
    e.isPrefill && e.id in c.seqs ==>
      e.n == Min(c.seqs[e.id].RemainingPrefill(), Min(cfg.maxPrefillPerStep, left))
  }

  /** A prefill sequence is batched, or has no prompt left, or could not be funded. */
  ghost predicate Served(cfg: Config, c: Core, entries: seq<BatchEntry>, id: int)
    requires cfg.pageSize > 0
  {
    || InBatch(entries, id) || cfg.maxPrefillPerStep <= 0
    || (id in c.seqs && var s := c.seqs[id];
        || s.RemainingPrefill() <= 0
        || PagesNeeded(cfg.pageSize, s.TotalTokens() + Min(s.RemainingPrefill(), cfg.maxPrefillPerStep)) > |s.pages|)
  }

  lemma MorePages(pageSize: int, a: int, b: int)
    requires pageSize > 0 && a <= b
    ensures PagesNeeded(pageSize, a) <= PagesNeeded(pageSize, b)
  {
    PagesNeededLeast(pageSize, a);
    PagesNeededLeast(pageSize, b);
    var x, y := PagesNeeded(pageSize, a), PagesNeeded(pageSize, b);
    hide PagesNeeded;
    if y <= x - 1 { ScaleUp(y, x - 1, pageSize); }
  }

  lemma ScaleUp(x: int, y: int, d: int)
    requires x <= y && d > 0
    ensures x * d <= y * d
  {
    assert (y - x) * d >= 0;
  }

  lemma {:induction false} ChunkedKept(cfg: Config, c: Core, c': Core, entries: seq<BatchEntry>)
    requires Chunked(cfg, c, entries) && c'.seqs.Keys == c.seqs.Keys
    requires forall k :: 0 <= k < |entries| && entries[k].isPrefill && entries[k].id in c.seqs ==>
               c'.seqs[entries[k].id].RemainingPrefill() == c.seqs[entries[k].id].RemainingPrefill()
    ensures Chunked(cfg, c', entries)
    decreases |entries|
  {
    if entries != [] { ChunkedKept(cfg, c, c', entries[..|entries| - 1]); }
  }

  /** Decode entries have a fixed length. */
  lemma {:induction false} ChunkedExtends(cfg: Config, c: Core, pre: seq<BatchEntry>, entries: seq<BatchEntry>)
    requires Chunked(cfg, c, pre) && pre <= entries
    requires forall k :: |pre| <= k < |entries| ==> !entries[k].isPrefill
    ensures Chunked(cfg, c, entries)
    decreases |entries|
  {
    if |entries| > |pre| {
      ChunkedExtends(cfg, c, pre, entries[..|entries| - 1]);
    } else {
      assert entries == pre;
    }
  }

  /** What the prefill loop has achieved after `i` sequences. */
  ghost predicate PrefillDone(cfg: Config, c: Core, prefill: seq<int>, entries: seq<BatchEntry>, i: nat)
    requires cfg.pageSize > 0 && i <= |prefill|
  {
    Chunked(cfg, c, entries) && forall k :: 0 <= k < i ==> Served(cfg, c, entries, prefill[k])
  }

  lemma PrefillSkips(cfg: Config, c: Core, prefill: seq<int>, entries: seq<BatchEntry>, i: nat)
    requires cfg.pageSize > 0 && i < |prefill| && PrefillDone(cfg, c, prefill, entries, i)
    requires Served(cfg, c, entries, prefill[i])
    ensures PrefillDone(cfg, c, prefill, entries, i + 1)
  {
  }

  /** Funding the next sequence leaves the earlier ones served. */
  lemma PrefillDoneKept(cfg: Config, c: Core, c': Core, prefill: seq<int>, entries: seq<BatchEntry>, i: nat,
                        gone: set<int>)
    requires cfg.pageSize > 0 && i < |prefill| && PrefillDone(cfg, c, prefill, entries, i)
    requires Funded(c, c', prefill[i], gone) && Picked(c, prefill, PREFILL)
    requires BatchFunded(cfg.pageSize, c, entries) && forall k :: 0 <= k < |entries| ==> entries[k].isPrefill
    ensures PrefillDone(cfg, c', prefill, entries, i)
  {
    hide Tokens, PagesNeeded;
    forall k | 0 <= k < |entries| && entries[k].isPrefill && entries[k].id in c.seqs
      ensures c'.seqs[entries[k].id].RemainingPrefill() == c.seqs[entries[k].id].RemainingPrefill()
    {
      assert EntryFunded(cfg.pageSize, c, entries[k]);
    }
    ChunkedKept(cfg, c, c', entries);
    forall k | 0 <= k < i ensures Served(cfg, c', entries, prefill[k]) {
      var jd := prefill[k];
      assert jd in prefill && jd != prefill[i] && Served(cfg, c, entries, jd);
    }
  }

  lemma PrefillAdds(cfg: Config, c: Core, prefill: seq<int>, entries: seq<BatchEntry>, i: nat, e: BatchEntry)
    requires cfg.pageSize > 0 && i < |prefill| && PrefillDone(cfg, c, prefill, entries, i)
    requires e.isPrefill && e.id == prefill[i] && e.id in c.seqs
    requires ChunkLen(cfg, c, e, cfg.maxBatchTokens - Tokens(entries))
    requires forall id :: InBatch(entries, id) ==> InBatch(entries + [e], id)
    requires InBatch(entries + [e], e.id)
    ensures PrefillDone(cfg, c, prefill, entries + [e], i + 1)
  {
    assert (entries + [e])[..|entries|] == entries;
  }

  lemma Unfunded(cfg: Config, c: Core, entries: seq<BatchEntry>, id: int, chunk: int)
    requires cfg.pageSize > 0 && id in c.seqs
    requires chunk <= Min(c.seqs[id].RemainingPrefill(), cfg.maxPrefillPerStep)
    requires PagesNeeded(cfg.pageSize, c.seqs[id].TotalTokens() + chunk) > |c.seqs[id].pages|
    ensures Served(cfg, c, entries, id)
  {
    var s := c.seqs[id];
    MorePages(cfg.pageSize, s.TotalTokens() + chunk,
              s.TotalTokens() + Min(s.RemainingPrefill(), cfg.maxPrefillPerStep));
  }

  /** At most the last candidate was lost, by the only preemption of the plan. */
  ghost predicate Shortened(decode: seq<int>, decode': seq<int>, plan: seq<Move>) {
    if Victims(plan) == [] then decode' == decode
    else decode != [] && decode' == decode[..|decode| - 1] && Victims(plan) == [decode[|decode| - 1]]
  }

  // ---- admissions ----

  lemma AdmitStarts(cfg: Config, c: Core)
    ensures AdmitStage(cfg, c, [])
  {
  }

  lemma AdmitsMore(cfg: Config, s0: Snap, plan: seq<Move>, s: Snap, m: Move, now: nat)
    requires Makes(cfg.pageSize, s0, plan, now, s) && AdmitStage(cfg, s0.core, plan)
    requires m.AdmitMove? && m.n == cfg.pageSize && |s.core.running| < cfg.maxSeqsRunning
    ensures AdmitStage(cfg, s0.core, plan + [m])
  {
    hide AdmitStage;
    AdmitStageMore(cfg, s0.core, plan, m);
  }

  // ---- the prefill loop ----

  /** The batch under construction after `i` prefill candidates; `decode'` are the decode candidates left. */
  ghost predicate PrefillState(cfg: Config, c: Core, prefill: seq<int>, decode: seq<int>, decode': seq<int>,
                               entries: seq<BatchEntry>, i: nat)
  {
    && i <= |prefill| && cfg.pageSize > 0
    && Picked(c, prefill, PREFILL) && Ascending(decode)
    && decode' <= decode && Picked(c, decode', DECODE) && Lost(c, decode, |decode'|)
    && BatchFunded(cfg.pageSize, c, entries)
    && (forall k :: 0 <= k < |entries| ==> entries[k].isPrefill && entries[k].id in prefill[..i])
    && InOrder(entries, 0, |entries|)
    && PrefillDone(cfg, c, prefill, entries, i)
  }

  /** Older sequences come first. */
  ghost predicate InOrder(entries: seq<BatchEntry>, lo: nat, hi: nat) {
    hi <= |entries| && forall a, b :: lo <= a < b < hi ==> entries[a].id < entries[b].id
  }

  lemma PrefillStarts(cfg: Config, c: Core, prefill: seq<int>, decode: seq<int>)
    requires cfg.pageSize > 0 && Picked(c, prefill, PREFILL) && Picked(c, decode, DECODE)
    ensures PrefillState(cfg, c, prefill, decode, decode, [], 0) && Tokens([]) == 0
    ensures Calmer(c, c) && decode[|decode|..] == [] && Reversed([]) == [] && prefill[..0] == []
  {
  }

  lemma PrefillTurn(cfg: Config, c: Core, prefill: seq<int>, decode: seq<int>, decode': seq<int>,
                    entries: seq<BatchEntry>, i: nat)
    requires PrefillState(cfg, c, prefill, decode, decode', entries, i) && i < |prefill|
    ensures var id := prefill[i]; id in c.running && id in c.seqs && c.seqs[id].state == PREFILL
    ensures Picked(c, decode', DECODE)
  {
    assert prefill[i] in prefill;
  }

  lemma NoMoves(cfg: Config, c: Core, id: int, l: Left)
    requires cfg.pageSize > 0 && l.budget > 0 && id in c.seqs && ChunkFor(cfg, c.seqs[id], l.budget) <= 0
    ensures PrefillForm(cfg, c, [], id, l, l) && Victims([]) == []
  {
  }

  lemma PickedLast(c: Core, decode: seq<int>)
    requires Picked(c, decode, DECODE)
    ensures decode != [] ==> var v := decode[|decode| - 1]; v in c.running && v in c.seqs && c.seqs[v].state == DECODE
  {
    if decode != [] { assert decode[|decode| - 1] in decode; }
  }

  lemma FundedOthers(c: Core, m: Move, id: int, jd: int)
    requires m.FundMove? && m.id == id && CanDo(c, m) && jd in c.running && jd in c.seqs && id in c.seqs
    ensures var c' := Do(c, m);
            && c'.running == c.running && jd in c'.seqs && c'.seqs[jd].state == c.seqs[jd].state
            && id in c'.seqs && c'.seqs[id].state == c.seqs[id].state
  {
  }

  /** One attempt, granted or with nobody to preempt. */
  lemma AskedOnce(pageSize: int, s: Snap, m: Move, id: int, n: int, decode: seq<int>, now: nat)
    requires pageSize > 0 && AsksFor(m, id, n) && CanDo(s.core, m) && Sized(pageSize, s.core, m)
    requires !Short(pageSize, s.core, id, n) || decode == []
    ensures Makes(pageSize, s, [m], now, Granted(s, m, now)) && Victims([m]) == []
    ensures Asked(pageSize, s.core, [m], id, n, decode, decode, !Short(pageSize, s.core, id, n))
    ensures var c := Do(s.core, m);
            && Funded(s.core, c, id, {}) && id in c.seqs && id in s.core.seqs
            && c.seqs[id] == s.core.seqs[id].(pages := c.seqs[id].pages)
  {
    MakesGrant(pageSize, s, m, now);
    hide Makes, Victims, Short, Sized;
  }

  /** A refused attempt, a preemption and the second attempt make one plan. */
  lemma AskedTwice(pageSize: int, s: Snap, m: Move, m2: Move, id: int, n: int, decode: seq<int>, now: nat)
    requires pageSize > 0 && AsksFor(m, id, n) && CanDo(s.core, m) && Sized(pageSize, s.core, m)
    requires AsksFor(m2, id, n) && Short(pageSize, s.core, id, n) && decode != []
    requires var victim := decode[|decode| - 1];
             && victim != id && CanDo(Do(s.core, m), PreemptMove(victim))
             && var s2 := Dropped(Granted(s, m, now), victim);
                CanDo(s2.core, m2) && Sized(pageSize, s2.core, m2)
    ensures var victim := decode[|decode| - 1];
            var s2 := Dropped(Granted(s, m, now), victim);
            var plan, s3 := [m, PreemptMove(victim), m2], Granted(s2, m2, now);
            && Makes(pageSize, s, plan, now, s3) && Victims(plan) == [victim]
            && Asked(pageSize, s.core, plan, id, n, decode, decode[..|decode| - 1], !Short(pageSize, s2.core, id, n))
            && Funded(s.core, s3.core, id, {victim}) && id in s3.core.seqs && id in s.core.seqs
            && s3.core.seqs[id] == s.core.seqs[id].(pages := s3.core.seqs[id].pages)
  {
    var victim := decode[|decode| - 1];
    var s2 := Dropped(Granted(s, m, now), victim);
    FundedTwice(s.core, m, victim, m2, id);
    PlanOfTwo(pageSize, s, m, victim, m2, now);
    hide Makes, Victims, Short, Sized, CanDo, Do, Funded, Performed;
  }

  lemma FundedTwice(c: Core, m: Move, victim: int, m2: Move, id: int)
    requires m.FundMove? && m.id == id && CanDo(c, m) && m2.FundMove? && m2.id == id && victim != id
    requires CanDo(Do(c, m), PreemptMove(victim)) && CanDo(Do(Do(c, m), PreemptMove(victim)), m2)
    ensures var c' := Do(Do(Do(c, m), PreemptMove(victim)), m2);
            && Funded(c, c', id, {victim}) && id in c.seqs && id in c'.seqs
            && c'.seqs[id] == c.seqs[id].(pages := c'.seqs[id].pages)
  {
    hide Distinct, SetOf;
  }

  lemma PlanOfTwo(pageSize: int, s: Snap, m: Move, victim: int, m2: Move, now: nat)
    requires pageSize > 0 && m.FundMove? && m2.FundMove? && CanDo(s.core, m) && Sized(pageSize, s.core, m)
    requires Refused(pageSize, s.core, m) && CanDo(Do(s.core, m), PreemptMove(victim))
    requires var s2 := Dropped(Granted(s, m, now), victim); CanDo(s2.core, m2) && Sized(pageSize, s2.core, m2)
    ensures var s2 := Dropped(Granted(s, m, now), victim);
            && var plan := [m, PreemptMove(victim), m2];
               && Makes(pageSize, s, plan, now, Granted(s2, m2, now)) && Victims(plan) == [victim]
               && Performed(s.core, plan[..2]) == s2.core
  {
    var plan, s2 := [m, PreemptMove(victim)], Dropped(Granted(s, m, now), victim);
    hide Sized, Refused, Makes, Victims, Performed;
    MakesPreempt(pageSize, s, m, victim, now);
    ReachedBy(pageSize, s, plan, now, s2);
    MakesGrant(pageSize, s2, m2, now);
    MakesConcat(pageSize, s, plan, s2, [m2], Granted(s2, m2, now), now);
    assert plan + [m2] == [m, PreemptMove(victim), m2] && [m, PreemptMove(victim), m2][..2] == plan;
  }

  lemma TurnAsked(cfg: Config, c: Core, plan: seq<Move>, id: int, l: Left, decode': seq<int>, ok: bool)
    requires cfg.pageSize > 0 && l.budget > 0 && id in c.seqs && ChunkFor(cfg, c.seqs[id], l.budget) > 0
    requires Asked(cfg.pageSize, c, plan, id, ChunkFor(cfg, c.seqs[id], l.budget), l.decode, decode', ok)
    ensures var n := ChunkFor(cfg, c.seqs[id], l.budget);
            PrefillForm(cfg, c, plan, id, l, Left(decode', if ok then l.budget - n else l.budget))
  {
    hide Asked;
  }

  lemma PrefillSkipped(cfg: Config, c: Core, prefill: seq<int>, decode: seq<int>, decode': seq<int>,
                       entries: seq<BatchEntry>, i: nat, left: int)
    requires PrefillState(cfg, c, prefill, decode, decode', entries, i) && i < |prefill| && prefill[i] in c.seqs
    requires left > 0 && Min(c.seqs[prefill[i]].RemainingPrefill(), Min(cfg.maxPrefillPerStep, left)) <= 0
    ensures PrefillState(cfg, c, prefill, decode, decode', entries, i + 1) && Calmer(c, c)
  {
    hide Tokens, PagesNeeded, BatchFunded;
    assert prefill[..i + 1] == prefill[..i] + [prefill[i]];
    PrefillSkips(cfg, c, prefill, entries, i);
  }

  lemma PrefillMoved(cfg: Config, c: Core, c': Core, gone: set<int>, prefill: seq<int>, decode: seq<int>,
                     d: seq<int>, d': seq<int>, entries: seq<BatchEntry>, i: nat)
    requires PrefillState(cfg, c, prefill, decode, d, entries, i) && i < |prefill| && Funded(c, c', prefill[i], gone)
    requires if gone == {} then d' == d else d != [] && d' == d[..|d| - 1] && gone == {d[|d| - 1]}
    ensures PrefillState(cfg, c', prefill, decode, d', entries, i) && Calmer(c, c')
  {
    var id := prefill[i];
    PrefillTurn(cfg, c, prefill, decode, d, entries, i);
    hide PrefillDone, BatchFunded, Funded, Lost, Calmer, InOrder;
    assert d == decode[..|d|];
    FundedCalmer(c, c', id, gone);
    PrefillDoneKept(cfg, c, c', prefill, entries, i, gone);
    NotBatchedYet(prefill, i, entries);
    hide Picked;
    FundedKeepsPicks(c, c', id, gone, prefill, decode, |d|, |d'|);
    PrefillEntriesKept(cfg.pageSize, c, c', id, gone, entries);
  }

  lemma PrefillTaken(cfg: Config, c: Core, prefill: seq<int>, decode: seq<int>, d: seq<int>,
                     entries: seq<BatchEntry>, i: nat, e: BatchEntry, left: int)
    requires PrefillState(cfg, c, prefill, decode, d, entries, i) && i < |prefill| && prefill[i] in c.seqs
    requires left == cfg.maxBatchTokens - Tokens(entries)
    requires var s := c.seqs[prefill[i]];
             && e == BatchEntry(prefill[i], Min(s.RemainingPrefill(), Min(cfg.maxPrefillPerStep, left)), true, s.cursor)
             && e.n > 0 && PagesNeeded(cfg.pageSize, s.TotalTokens() + e.n) <= |s.pages|
    ensures PrefillState(cfg, c, prefill, decode, d, entries + [e], i + 1)
    ensures Tokens(entries + [e]) == Tokens(entries) + e.n && e.n <= left
  {
    hide Tokens, PagesNeeded;
    assert e.id in prefill;
    NotBatchedYet(prefill, i, entries);
    AddEntry(cfg.pageSize, c, entries, e);
    PrefillAdds(cfg, c, prefill, entries, i, e);
    EntriesGrow(prefill, entries, i, e);
    hide PrefillDone, BatchFunded, Picked, Lost, Ascending, InOrder;
  }

  lemma EntriesGrow(prefill: seq<int>, entries: seq<BatchEntry>, i: nat, e: BatchEntry)
    requires i < |prefill| && e.isPrefill && e.id == prefill[i] && Ascending(prefill)
    requires forall k :: 0 <= k < |entries| ==> entries[k].isPrefill && entries[k].id in prefill[..i]
    requires InOrder(entries, 0, |entries|)
    ensures forall k :: 0 <= k < |entries + [e]| ==>
              (entries + [e])[k].isPrefill && (entries + [e])[k].id in prefill[..i + 1]
    ensures InOrder(entries + [e], 0, |entries| + 1)
  {
    assert prefill[..i + 1] == prefill[..i] + [prefill[i]];
    assert forall j :: 0 <= j < i ==> prefill[..i][j] == prefill[j];
  }

  lemma PrefillRefused(cfg: Config, c: Core, prefill: seq<int>, decode: seq<int>, d: seq<int>,
                       entries: seq<BatchEntry>, i: nat, chunk: int, left: int)
    requires PrefillState(cfg, c, prefill, decode, d, entries, i) && i < |prefill| && prefill[i] in c.seqs
    requires chunk == Min(c.seqs[prefill[i]].RemainingPrefill(), Min(cfg.maxPrefillPerStep, left))
    requires PagesNeeded(cfg.pageSize, c.seqs[prefill[i]].TotalTokens() + chunk) > |c.seqs[prefill[i]].pages|
    ensures PrefillState(cfg, c, prefill, decode, d, entries, i + 1)
  {
    hide Tokens, PagesNeeded, BatchFunded;
    assert prefill[..i + 1] == prefill[..i] + [prefill[i]];
    Unfunded(cfg, c, entries, prefill[i], chunk);
    PrefillSkips(cfg, c, prefill, entries, i);
  }

  /** The turns of the first `i` prefill candidates; they preempted the decode candidates no longer left. */
  ghost predicate PrefillProgress(cfg: Config, s0: Snap, s: Snap, prefill: seq<int>, i: nat, decode: seq<int>,
                                  l: Left, plan: seq<Move>, now: nat) {
    && cfg.pageSize > 0 && Makes(cfg.pageSize, s0, plan, now, s) && i <= |prefill|
    && PrefillStage(cfg, s0.core, plan, prefill[..i], Left(decode, cfg.maxBatchTokens), l)
    && Calmer(s0.core, s.core) && l.decode <= decode && Victims(plan) == Reversed(decode[|l.decode|..])
  }

  lemma PrefillProgressStarts(cfg: Config, s: Snap, prefill: seq<int>, decode: seq<int>, now: nat)
    requires cfg.pageSize > 0
    ensures PrefillProgress(cfg, s, s, prefill, 0, decode, Left(decode, cfg.maxBatchTokens), [], now)
    ensures Victims([]) == []
  {
    MakesNothing(cfg.pageSize, s, now);
    assert decode[|decode|..] == [] && prefill[..0] == [];
  }

  lemma PrefillProgresses(cfg: Config, s0: Snap, s: Snap, s': Snap, prefill: seq<int>, i: nat, decode: seq<int>,
                          l: Left, l': Left, plan: seq<Move>, more: seq<Move>, now: nat)
    requires PrefillProgress(cfg, s0, s, prefill, i, decode, l, plan, now) && i < |prefill|
    requires Makes(cfg.pageSize, s, more, now, s') && PrefillForm(cfg, s.core, more, prefill[i], l, l')
    requires Calmer(s.core, s'.core) && Shortened(l.decode, l'.decode, more)
    ensures PrefillProgress(cfg, s0, s', prefill, i + 1, decode, l', plan + more, now)
    ensures |Victims(plan + more)| == |Victims(plan)| + |Victims(more)|
  {
    hide Makes, Victims, Reversed, PrefillForm, PrefillStage, Performed, Shortened;
    CalmerTrans(s0.core, s.core, s'.core);
    hide Calmer;
    ReachedBy(cfg.pageSize, s0, plan, now, s);
    MakesConcat(cfg.pageSize, s0, plan, s, more, s', now);
    VictimsGrow(decode, l.decode, l'.decode, plan, more);
    PrefillStageMore(cfg, s0.core, plan, prefill[..i], Left(decode, cfg.maxBatchTokens), l, more, prefill[i], l');
    assert prefill[..i + 1] == prefill[..i] + [prefill[i]];
  }

  lemma CalmerTrans(c: Core, c1: Core, c2: Core)
    requires Calmer(c, c1) && Calmer(c1, c2)
    ensures Calmer(c, c2)
  {
  }

  lemma VictimsGrow(decode: seq<int>, d: seq<int>, d': seq<int>, plan: seq<Move>, more: seq<Move>)
    requires d <= decode && Victims(plan) == Reversed(decode[|d|..]) && Shortened(d, d', more)
    ensures d' <= decode && Victims(plan) + Victims(more) == Reversed(decode[|d'|..])
  {
    hide Victims, Reversed;
    if Victims(more) != [] { ReversedGrows(decode, d); }
  }

  lemma ReversedGrows(decode: seq<int>, d: seq<int>)
    requires d <= decode && d != []
    ensures Reversed(decode[|d| - 1..]) == Reversed(decode[|d|..]) + [d[|d| - 1]]
  {
    var rest := decode[|d| - 1..];
    assert rest[1..] == decode[|d|..] && rest[0] == d[|d| - 1];
  }

  // ---- the decode loop ----

  /** The batch under construction after `i` decode candidates. */
  ghost predicate DecodeState(cfg: Config, c: Core, decode: seq<int>, i: nat, entries0: seq<BatchEntry>,
                              entries: seq<BatchEntry>) {
    && i <= |decode| && cfg.pageSize > 0 && Ascending(decode)
    && Picked(c, decode[i..], DECODE)
    && BatchFunded(cfg.pageSize, c, entries) && entries0 <= entries
    && (forall k :: |entries0| <= k < |entries| ==> !entries[k].isPrefill && entries[k].id in decode[..i])
    && InOrder(entries, |entries0|, |entries|)
    && (forall k :: i <= k < |decode| ==> !InBatch(entries, decode[k]))
    && (forall k :: 0 <= k < i ==> BatchedOrLost(c, entries, decode[k]))
  }

  lemma DecodeStarts(cfg: Config, c: Core, decode: seq<int>, entries: seq<BatchEntry>)
    requires cfg.pageSize > 0 && Picked(c, decode, DECODE) && BatchFunded(cfg.pageSize, c, entries)
    requires forall k :: 0 <= k < |entries| ==> entries[k].isPrefill
    ensures DecodeState(cfg, c, decode, 0, entries, entries)
  {
    DecodeFresh(cfg.pageSize, c, decode, entries);
  }

  lemma DecodeTurn(cfg: Config, c: Core, decode: seq<int>, i: nat, entries0: seq<BatchEntry>, entries: seq<BatchEntry>)
    requires DecodeState(cfg, c, decode, i, entries0, entries) && i < |decode|
    ensures var id := decode[i]; id in c.running && id in c.seqs && c.seqs[id].state == DECODE
  {
    assert decode[i] == decode[i..][0] && decode[i] in decode[i..];
  }

  lemma DecodeTaken(cfg: Config, c: Core, c': Core, decode: seq<int>, i: nat, entries0: seq<BatchEntry>,
                    entries: seq<BatchEntry>, m: Move)
    requires DecodeState(cfg, c, decode, i, entries0, entries) && i < |decode|
    requires m.FundMove? && m.id == decode[i] && CanDo(c, m) && c' == Do(c, m) && c.seqs[m.id].state == DECODE
    requires PagesNeeded(cfg.pageSize, c'.seqs[m.id].TotalTokens() + 1) <= |c'.seqs[m.id].pages|
    ensures var e := BatchEntry(decode[i], 1, false, 0);
            && DecodeState(cfg, c', decode, i + 1, entries0, entries + [e])
            && Tokens(entries + [e]) == Tokens(entries) + 1
    ensures SameExcept(c, c', [decode[i]])
  {
    hide Tokens, PagesNeeded, Distinct;
    OneChanged(cfg.pageSize, c, c', decode, i, entries);
    AddEntry(cfg.pageSize, c', entries, BatchEntry(decode[i], 1, false, 0));
    DecodesGrow(decode, entries0, entries, i);
    hide BatchFunded, Picked, InOrder, Ascending;
  }

  lemma DecodesGrow(decode: seq<int>, entries0: seq<BatchEntry>, entries: seq<BatchEntry>, i: nat)
    requires i < |decode| && Ascending(decode) && entries0 <= entries && InOrder(entries, |entries0|, |entries|)
    requires forall k :: |entries0| <= k < |entries| ==> !entries[k].isPrefill && entries[k].id in decode[..i]
    ensures forall id :: id in decode[..i] ==> id in decode[..i + 1]
    ensures var es := entries + [BatchEntry(decode[i], 1, false, 0)];
              && InOrder(es, |entries0|, |es|)
              && forall k :: |entries0| <= k < |es| ==> !es[k].isPrefill && es[k].id in decode[..i + 1]
  {
    assert decode[..i + 1] == decode[..i] + [decode[i]];
    assert forall j :: 0 <= j < i ==> decode[..i][j] == decode[j];
  }

  lemma DecodeLost(cfg: Config, c: Core, c1: Core, c': Core, decode: seq<int>, i: nat, entries0: seq<BatchEntry>,
                   entries: seq<BatchEntry>, m: Move)
    requires DecodeState(cfg, c, decode, i, entries0, entries) && i < |decode|
    requires m.FundMove? && m.id == decode[i] && CanDo(c, m) && c1 == Do(c, m)
    requires CanDo(c1, PreemptMove(m.id)) && c' == Do(c1, PreemptMove(m.id))
    ensures DecodeState(cfg, c', decode, i + 1, entries0, entries) && SameExcept(c, c', [decode[i]])
  {
    hide PagesNeeded, Distinct;
    OneChanged(cfg.pageSize, c, c', decode, i, entries);
    DecodesGrow(decode, entries0, entries, i);
    hide BatchFunded, Picked, InOrder, Ascending;
  }

  lemma OneSettled(c: Core, c': Core, id: int)
    requires Settled(c) && SameExcept(c, c', [id]) && id in c.seqs && !c'.seqs[id].IsDone()
    ensures Settled(c')
  {
    forall jd | jd in c'.running ensures jd in c'.seqs && !c'.seqs[jd].IsDone() {
      assert jd in c.seqs && !c.seqs[jd].IsDone();
      assert jd in [id] <==> jd == id;
    }
  }

  /** The budget spent on decode entries. */
  ghost predicate Budgeted(entries0: seq<BatchEntry>, entries: seq<BatchEntry>, budget: int, left: int) {
    && Tokens(entries) - Tokens(entries0) == budget - left && left <= budget
    && (budget >= 0 || entries != entries0 ==> left >= 0)
  }

  lemma BudgetSpent(entries0: seq<BatchEntry>, entries: seq<BatchEntry>, entries': seq<BatchEntry>, budget: int,
                    left: int)
    requires Budgeted(entries0, entries, budget, left) && left > 0
    ensures Tokens(entries') == Tokens(entries) + 1 ==> Budgeted(entries0, entries', budget, left - 1)
    ensures entries' == entries ==> Budgeted(entries0, entries', budget, left)
  {
    hide Tokens;
  }

  /** The turns of the first `i` decode candidates. */
  ghost predicate DecodeProgress(pageSize: int, s0: Snap, s: Snap, decode: seq<int>, i: nat, plan: seq<Move>,
                                 now: nat, budget: int, left: int) {
    && pageSize > 0 && Makes(pageSize, s0, plan, now, s) && i <= |decode|
    && DecodeStage(pageSize, s0.core, plan, decode[..i], budget, left)
    && SameExcept(s0.core, s.core, decode)
  }

  lemma DecodeProgressStarts(pageSize: int, s: Snap, decode: seq<int>, now: nat, budget: int)
    requires pageSize > 0
    ensures DecodeProgress(pageSize, s, s, decode, 0, [], now, budget, budget) && Victims([]) == []
  {
    MakesNothing(pageSize, s, now);
    SameExceptRefl(s.core, decode);
    assert decode[..0] == [];
  }

  lemma DecodeProgresses(pageSize: int, s0: Snap, s: Snap, s': Snap, decode: seq<int>, i: nat, plan: seq<Move>,
                         more: seq<Move>, now: nat, budget: int, left: int, left': int)
    requires DecodeProgress(pageSize, s0, s, decode, i, plan, now, budget, left) && i < |decode|
    requires Makes(pageSize, s, more, now, s') && DecodeForm(pageSize, s.core, more, decode[i], left, left')
    requires SameExcept(s.core, s'.core, [decode[i]])
    ensures DecodeProgress(pageSize, s0, s', decode, i + 1, plan + more, now, budget, left')
    ensures |Victims(plan + more)| == |Victims(plan)| + |Victims(more)|
  {
    SameExceptTrans(s0.core, s.core, s'.core, decode, i);
    hide Makes, Victims, SameExcept, DecodeForm, DecodeStage, Performed;
    MakesConcat(pageSize, s0, plan, s, more, s', now);
    ReachedBy(pageSize, s0, plan, now, s);
    DecodeStageNext(pageSize, s0.core, decode, i, plan, more, budget, left, left');
  }

  lemma DecodeStageNext(pageSize: int, c: Core, decode: seq<int>, i: nat, plan: seq<Move>, more: seq<Move>, budget: int,
                        left: int, left': int)
    requires pageSize > 0 && i < |decode| && DecodeStage(pageSize, c, plan, decode[..i], budget, left)
    requires DecodeForm(pageSize, Performed(c, plan), more, decode[i], left, left')
    ensures DecodeStage(pageSize, c, plan + more, decode[..i + 1], budget, left')
  {
    hide DecodeForm, DecodeStage, Performed;
    DecodeStageMore(pageSize, c, plan, decode[..i], budget, left, more, decode[i], left');
    assert decode[..i + 1] == decode[..i] + [decode[i]];
  }

  // ---- what a round returns ----

  /** Exactly the sequences in state PREFILL, oldest first. */
  ghost predicate Prefilling(c: Core, ids: seq<int>) {
    Ascending(ids) && forall id :: id in ids <==> id in c.running && id in c.seqs && c.seqs[id].state == PREFILL
  }

  /** The preempted decode candidates are the youngest, youngest first. */
  ghost predicate Preempted(plan: RoundPlan, candidates: seq<int>) {
    plan.mid.decode <= candidates && Victims(plan.prefills) == Reversed(candidates[|plan.mid.decode|..])
  }

  /** The entries are distinct, funded and within budget, prefill first, and the totals are right. */
  ghost predicate BatchWellFormed(cfg: Config, c: Core, b: ScheduledBatch) {
    && cfg.pageSize > 0 && BatchFunded(cfg.pageSize, c, b.entries) && Chunked(cfg, c, b.entries)
    && b.totalTokens == Tokens(b.entries) && (b.entries != [] ==> b.totalTokens <= cfg.maxBatchTokens)
    && b.nPrefill + b.nDecode == |b.entries|
    && (forall k :: 0 <= k < |b.entries| ==> (b.entries[k].isPrefill <==> k < b.nPrefill))
    && InOrder(b.entries, 0, b.nPrefill) && InOrder(b.entries, b.nPrefill, |b.entries|)
    && (forall id :: id in c.seqs && c.seqs[id].state == WAITING ==> !InBatch(b.entries, id))
  }

  /** While budget is left nobody is passed over without a reason. */
  ghost predicate Exhaustive(cfg: Config, c: Core, b: ScheduledBatch) {
    cfg.pageSize > 0 && (b.totalTokens >= cfg.maxBatchTokens ||
      forall id :: id in c.running && id in c.seqs ==>
        && (c.seqs[id].state == PREFILL ==> Served(cfg, c, b.entries, id))
        && (c.seqs[id].state == DECODE ==> InBatch(b.entries, id)))
  }

  /** Exactly the sequences in state DECODE, oldest first. */
  ghost predicate Candidates(c: Core, ids: seq<int>) {
    Ascending(ids) && forall id :: id in ids <==> id in c.running && id in c.seqs && c.seqs[id].state == DECODE
  }

  lemma CandidatesKept(c: Core, c': Core, ids: seq<int>)
    requires Candidates(c', ids) && c.running <= c'.running
    requires forall id :: id in c.running ==> id in c.seqs && id in c'.seqs && c'.seqs[id] == c.seqs[id]
    requires forall id :: id in c'.running && id !in c.running ==> id in c'.seqs && c'.seqs[id].state == PREFILL
    ensures Candidates(c, ids)
  {
    assert forall id :: id in c.running ==> id in c'.running;
  }

  lemma RunningAscending(nPages: nat, c: Core)
    requires Inv(nPages, c)
    ensures Ascending(c.running) && forall id :: id in c.running ==> id in c.seqs
  {
    QueuesDisjoint(c);
  }

  /** The sequences picked from the first `i` of the running list. */
  ghost predicate PickedUpTo(c: Core, ids: seq<int>, st: SeqState, i: nat) {
    && i <= |c.running| && Ascending(c.running) && (forall id :: id in c.running ==> id in c.seqs)
    && Picked(c, ids, st)
    && (forall id :: id in ids ==> id in c.running[..i])
    && forall id :: id in c.running[..i] && c.seqs[id].state == st ==> id in ids
  }

  lemma PickStart(c: Core, st: SeqState)
    requires Ascending(c.running) && forall id :: id in c.running ==> id in c.seqs
    ensures PickedUpTo(c, [], st, 0)
  {
  }

  lemma PickEnd(c: Core, ids: seq<int>, st: SeqState)
    requires PickedUpTo(c, ids, st, |c.running|)
    ensures Picked(c, ids, st)
    ensures forall id :: id in c.running && id in c.seqs && c.seqs[id].state == st ==> id in ids
  {
    assert c.running[..|c.running|] == c.running;
  }

  lemma PickNext(c: Core, ids: seq<int>, st: SeqState, i: nat)
    requires PickedUpTo(c, ids, st, i) && i < |c.running|
    ensures c.running[i] in c.seqs
    ensures var id := c.running[i];
            PickedUpTo(c, if c.seqs[id].state == st then ids + [id] else ids, st, i + 1)
  {
    var id := c.running[i];
    PickedBelow(c.running, ids, i);
    hide Ascending;
    assert id in c.running && c.running[..i + 1] == c.running[..i] + [id];
  }

  lemma PickedBelow(running: seq<int>, ids: seq<int>, i: nat)
    requires Ascending(running) && Ascending(ids) && i < |running| && forall id :: id in ids ==> id in running[..i]
    ensures Ascending(ids + [running[i]])
  {
    forall j | 0 <= j < |ids| ensures ids[j] < running[i] {
      assert ids[j] in ids;
      var k :| 0 <= k < i && running[..i][k] == ids[j];
      assert running[k] == ids[j];
    }
  }

  /** The two phases together give a well-formed and exhaustive batch. */
  lemma RoundResult(cfg: Config, c0: Core, mid: Core, c: Core, prefill: seq<int>, decode: seq<int>, decode': seq<int>,
                    pre: seq<BatchEntry>, i: nat, j: nat, b: ScheduledBatch)
    requires Candidates(c0, decode) && Calmer(c0, mid) && SameExcept(mid, c, decode')
    requires PrefillState(cfg, mid, prefill, decode, decode', pre, i) && DecodeState(cfg, c, decode', j, pre, b.entries)
    requires forall id :: id in c0.running && id in c0.seqs && c0.seqs[id].state == PREFILL ==> id in prefill
    requires b.totalTokens == Tokens(b.entries) && (b.entries != [] ==> b.totalTokens <= cfg.maxBatchTokens)
    requires b.nPrefill == |pre| && b.nDecode == |b.entries| - |pre|
    requires b.totalTokens >= cfg.maxBatchTokens || (i == |prefill| && j == |decode'|)
    ensures BatchWellFormed(cfg, c, b) && Exhaustive(cfg, c, b)
  {
    WellFormedResult(cfg, mid, c, prefill, decode, decode', pre, i, j, b);
    if b.totalTokens < cfg.maxBatchTokens {
      ExhaustiveResult(cfg, c0, mid, c, prefill, decode, decode', pre, b);
    }
    hide BatchWellFormed, PrefillState, Candidates, Calmer, SameExcept, Served, InBatch, Tokens;
  }

  lemma WellFormedResult(cfg: Config, mid: Core, c: Core, prefill: seq<int>, decode: seq<int>, decode': seq<int>,
                         pre: seq<BatchEntry>, i: nat, j: nat, b: ScheduledBatch)
    requires SameExcept(mid, c, decode')
    requires PrefillState(cfg, mid, prefill, decode, decode', pre, i) && DecodeState(cfg, c, decode', j, pre, b.entries)
    requires b.totalTokens == Tokens(b.entries) && (b.entries != [] ==> b.totalTokens <= cfg.maxBatchTokens)
    requires b.nPrefill == |pre| && b.nDecode == |b.entries| - |pre|
    ensures BatchWellFormed(cfg, c, b)
  {
    OrderKept(pre, b.entries);
    WaitingNotBatched(cfg.pageSize, c, b.entries);
    PrefillKept(cfg.pageSize, mid, c, decode', pre);
    hide Tokens, PagesNeeded, InOrder, Ascending, SameExcept, Picked, Lost, BatchFunded, Served, BatchedOrLost, InBatch;
    ChunkedKept(cfg, mid, c, pre);
    ChunkedExtends(cfg, c, pre, b.entries);
    hide Chunked;
  }

  /** The decode turns leave what the prefill entries still have to do. */
  lemma PrefillKept(pageSize: int, mid: Core, c: Core, decode': seq<int>, pre: seq<BatchEntry>)
    requires pageSize > 0 && SameExcept(mid, c, decode') && BatchFunded(pageSize, mid, pre)
    requires Picked(mid, decode', DECODE) && forall k :: 0 <= k < |pre| ==> pre[k].isPrefill
    ensures c.seqs.Keys == mid.seqs.Keys
    ensures forall k :: 0 <= k < |pre| && pre[k].isPrefill && pre[k].id in mid.seqs ==>
              c.seqs[pre[k].id].RemainingPrefill() == mid.seqs[pre[k].id].RemainingPrefill()
  {
    forall k | 0 <= k < |pre| && pre[k].isPrefill && pre[k].id in mid.seqs
      ensures c.seqs[pre[k].id].RemainingPrefill() == mid.seqs[pre[k].id].RemainingPrefill()
    {
      assert EntryFunded(pageSize, mid, pre[k]);
    }
  }

  lemma ExhaustiveResult(cfg: Config, c0: Core, mid: Core, c: Core, prefill: seq<int>, decode: seq<int>,
                         decode': seq<int>, pre: seq<BatchEntry>, b: ScheduledBatch)
    requires Candidates(c0, decode) && Calmer(c0, mid) && SameExcept(mid, c, decode')
    requires PrefillState(cfg, mid, prefill, decode, decode', pre, |prefill|)
    requires DecodeState(cfg, c, decode', |decode'|, pre, b.entries)
    requires forall id :: id in c0.running && id in c0.seqs && c0.seqs[id].state == PREFILL ==> id in prefill
    ensures Exhaustive(cfg, c, b)
  {
    hide Tokens, PagesNeeded, InOrder, Ascending, BatchFunded;
    RemainingCandidates(c0, mid, decode, decode');
    forall id | id in c.running && id in c.seqs && c.seqs[id].state == PREFILL
      ensures Served(cfg, c, b.entries, id)
    {
      PrefillServed(cfg, mid, c, prefill, decode', pre, b.entries, id);
    }
    forall id | id in c.running && id in c.seqs && c.seqs[id].state == DECODE
      ensures InBatch(b.entries, id)
    {
      DecodeServed(mid, c, decode', b.entries, id);
    }
  }

  lemma DecodeServed(mid: Core, c: Core, decode': seq<int>, entries: seq<BatchEntry>, id: int)
    requires Candidates(mid, decode') && SameExcept(mid, c, decode')
    requires forall k :: 0 <= k < |decode'| ==> BatchedOrLost(c, entries, decode'[k])
    requires id in c.running && id in c.seqs && c.seqs[id].state == DECODE
    ensures InBatch(entries, id)
  {
    assert id in decode';
    var k :| 0 <= k < |decode'| && decode'[k] == id;
    assert BatchedOrLost(c, entries, decode'[k]);
  }

  lemma OrderKept(pre: seq<BatchEntry>, entries: seq<BatchEntry>)
    requires pre <= entries
    ensures InOrder(pre, 0, |pre|) ==> InOrder(entries, 0, |pre|)
  {
  }

  lemma RemainingCandidates(c0: Core, mid: Core, decode: seq<int>, decode': seq<int>)
    requires Candidates(c0, decode) && decode' <= decode && Picked(mid, decode', DECODE)
    requires Calmer(c0, mid) && Lost(mid, decode, |decode'|)
    ensures Candidates(mid, decode')
  {
    forall id | id in mid.running && id in mid.seqs && mid.seqs[id].state == DECODE ensures id in decode' {
      assert id in decode;
      var k :| 0 <= k < |decode| && decode[k] == id;
      assert k < |decode'|;
      assert decode'[k] == id;
    }
  }

  lemma PrefillServed(cfg: Config, mid: Core, c: Core, prefill: seq<int>, decode': seq<int>,
                      pre: seq<BatchEntry>, entries: seq<BatchEntry>, id: int)
    requires cfg.pageSize > 0 && Candidates(mid, decode') && SameExcept(mid, c, decode') && pre <= entries
    requires forall jd :: jd in mid.running && jd in mid.seqs && mid.seqs[jd].state == PREFILL ==> jd in prefill
    requires PrefillDone(cfg, mid, prefill, pre, |prefill|)
    requires id in c.running && id in c.seqs && c.seqs[id].state == PREFILL
    ensures Served(cfg, c, entries, id)
  {
    hide Tokens, PagesNeeded;
    assert id in mid.running && c.seqs[id] == mid.seqs[id];
    assert id in prefill;
    var k :| 0 <= k < |prefill| && prefill[k] == id;
    assert Served(cfg, mid, pre, prefill[k]);
    if InBatch(pre, id) {
      var m :| 0 <= m < |pre| && pre[m].id == id;
      assert entries[m].id == id;
    }
  }

  lemma LostKept(mid: Core, c: Core, decode: seq<int>, decode': seq<int>)
    requires decode' <= decode && Ascending(decode) && Lost(mid, decode, |decode'|) && SameExcept(mid, c, decode')
    ensures Lost(c, decode, |decode'|)
  {
    assert forall j :: 0 <= j < |decode'| ==> decode'[j] == decode[j];
    forall k | |decode'| <= k < |decode| ensures decode[k] in c.seqs && c.seqs[decode[k]].state == WAITING {
      var id := decode[k];
      assert id !in decode';
    }
  }

  lemma WaitingNotBatched(pageSize: int, c: Core, entries: seq<BatchEntry>)
    requires pageSize > 0 && BatchFunded(pageSize, c, entries)
    ensures forall id :: id in c.seqs && c.seqs[id].state == WAITING ==> !InBatch(entries, id)
  {
    assert forall k :: 0 <= k < |entries| ==> EntryFunded(pageSize, c, entries[k]);
  }

  lemma AddEntry(pageSize: int, c: Core, entries: seq<BatchEntry>, e: BatchEntry)
    requires pageSize > 0 && BatchFunded(pageSize, c, entries) && EntryFunded(pageSize, c, e)
    requires !InBatch(entries, e.id)
    ensures BatchFunded(pageSize, c, entries + [e]) && Tokens(entries + [e]) == Tokens(entries) + e.n
    ensures forall id :: InBatch(entries + [e], id) <==> InBatch(entries, id) || id == e.id
  {
    var es := entries + [e];
    assert es[..|entries|] == entries;
    forall i | 0 <= i < |es| ensures EntryFunded(pageSize, c, es[i]) {
      if i < |entries| { assert es[i] == entries[i]; }
    }
    forall id ensures InBatch(es, id) <==> InBatch(entries, id) || id == e.id {
      if InBatch(entries, id) {
        var i :| 0 <= i < |entries| && entries[i].id == id;
        assert es[i].id == id;
      }
      assert es[|entries|].id == e.id;
      if InBatch(es, id) {
        var i :| 0 <= i < |es| && es[i].id == id;
        assert i < |entries| ==> entries[i].id == id;
      }
    }
  }

  lemma EmptyCore(nPages: nat, c: Core)
    requires c.seqs == map[] && c.waiting == c.running == [] && c.orphans == {}
    requires forall p :: p in c.free <==> 0 <= p < nPages
    ensures Inv(nPages, c) && Settled(c) && TotalWork(c) == 0
  {
    assert forall id, p :: !Owns(c.seqs, id, p);
  }

  lemma AbortSettled(nPages: nat, c: Core, id: int)
    requires Inv(nPages, c) && Settled(c) && id in c.seqs
    ensures Inv(nPages, Abort(c, id)) && Settled(Abort(c, id)) && Partition(nPages, c)
    ensures TotalWork(Abort(c, id)) <= TotalWork(c)
  {
    AbortKeeps(nPages, c, id);
    RemoveWork(nPages, c, Abort(c, id), id);
    var c' := Abort(c, id);
    forall jd | jd in c'.running ensures jd in c'.seqs && !c'.seqs[jd].IsDone() {
      assert jd in c.running && jd != id;
      assert c'.seqs[jd] == c.seqs[jd];
    }
  }

  /** A refused request still uses up an id. */
  lemma SkipId(nPages: nat, c: Core)
    requires Inv(nPages, c) && Settled(c)
    ensures var c' := c.(nextId := c.nextId + 1);
            Inv(nPages, c') && Settled(c') && TotalWork(c') == TotalWork(c)
  {
    SamePartition(nPages, c, c.(nextId := c.nextId + 1));
  }

  lemma EnqueueSettled(nPages: nat, c: Core, s: Sequence)
    requires Inv(nPages, c) && Settled(c)
    requires s.state == WAITING && s.pages == [] && s.output == [] && s.cursor == 0
    ensures Inv(nPages, Enqueue(c, s)) && Settled(Enqueue(c, s))
    ensures TotalWork(Enqueue(c, s)) == TotalWork(c) + RequestWork(s)
  {
    EnqueueKeeps(nPages, c, s);
    EnqueueWork(c, s);
    assert forall id :: id in c.running ==> id in c.seqs && id != c.nextId;
  }

  lemma FundKeeps(nPages: nat, c: Core, id: int, out: seq<int>)
    requires Inv(nPages, c) && id in c.running && id in c.seqs && c.seqs[id].state in {PREFILL, DECODE}
    requires Distinct(out) && SetOf(out) <= c.free
    ensures Inv(nPages, Grant(c, id, out)) && TotalWork(Grant(c, id, out)) == TotalWork(c)
  {
    GrantKeeps(nPages, c, id, out);
    UpdateWork(c, Grant(c, id, out), id);
  }

  lemma FrontKnown(nPages: nat, c: Core)
    requires Inv(nPages, c) && c.waiting != []
    ensures c.waiting[0] in c.seqs && c.seqs[c.waiting[0]].state == WAITING
  {
    var id := c.waiting[0];
    assert id in c.waiting;
  }

  lemma AdmitSettled(nPages: nat, c: Core, out: seq<int>)
    requires Inv(nPages, c) && Settled(c) && c.waiting != [] && c.waiting[0] in c.seqs
    requires Distinct(out) && SetOf(out) <= c.free
    ensures var c' := Admit(Grant(c, c.waiting[0], out));
            && Inv(nPages, c') && Settled(c') && TotalWork(c') == TotalWork(c)
            && forall id :: id in c.running ==> id in c.seqs && id in c'.seqs && c'.seqs[id] == c.seqs[id]
  {
    AdmitKeeps(nPages, c, out);
    AdmitWork(nPages, c, out);
    QueuesDisjoint(c);
    assert c.waiting[0] in c.waiting;
  }

  // ---- the plan of a round ----

  lemma QueuesAscend(nPages: nat, c: Core)
    requires Inv(nPages, c)
    ensures Ascending(c.running + c.waiting) && forall id :: id in c.running ==> id in c.seqs
  {
  }

  lemma DecodeEnds(cfg: Config, c: Core, decode: seq<int>, i: nat, entries0: seq<BatchEntry>, entries: seq<BatchEntry>)
    requires DecodeState(cfg, c, decode, i, entries0, entries)
    ensures i <= |decode| && entries0 <= entries
  {
  }

  lemma PrefillEnds(cfg: Config, c: Core, prefill: seq<int>, decode: seq<int>, decode': seq<int>,
                    entries: seq<BatchEntry>, i: nat)
    requires PrefillState(cfg, c, prefill, decode, decode', entries, i)
    ensures cfg.pageSize > 0 && Picked(c, decode', DECODE) && BatchFunded(cfg.pageSize, c, entries)
    ensures Picked(c, prefill, PREFILL) && decode' <= decode && forall k :: 0 <= k < |entries| ==> entries[k].isPrefill
  {
  }

  lemma OnlyAdmissions(cfg: Config, c: Core, plan: seq<Move>)
    requires AdmitStage(cfg, c, plan)
    ensures forall m :: m in plan ==> m.AdmitMove?
  {
  }

  /** The running list has only grown, from the front of the waiting queue, and nobody in it was touched. */
  ghost predicate Admitted(c: Core, c': Core) {
    && c.running <= c'.running && c'.running + c'.waiting == c.running + c.waiting
    && (forall id :: id in c.running ==> id in c.seqs && id in c'.seqs && c'.seqs[id] == c.seqs[id])
    && forall id :: id in c'.running && id !in c.running ==> id in c'.seqs && c'.seqs[id].state == PREFILL
  }

  /** Admissions only append to the running list, and touch nobody in it. */
  lemma {:induction false} AdmitsOnly(c: Core, plan: seq<Move>, c': Core)
    requires Ascending(c.running + c.waiting) && Performs(c, plan, c') && forall m :: m in plan ==> m.AdmitMove?
    requires forall id :: id in c.running ==> id in c.seqs
    ensures Admitted(c, c') && Victims(plan) == []
    decreases |plan|
  {
    hide CanDo, Do, Ascending, Performs, Performed;
    if plan == [] {
      PerformsNone(c, c');
    } else {
      var n := |plan| - 1;
      var c1 := Performed(c, plan[..n]);
      PerformsInit(c, plan, c');
      assert forall m :: m in plan[..n] ==> m in plan;
      AdmitsOnly(c, plan[..n], c1);
      assert plan[n] in plan;
      AdmittedOn(c, c1, plan[n]);
    }
  }

  lemma AdmittedOn(c: Core, c1: Core, m: Move)
    requires Ascending(c.running + c.waiting) && Admitted(c, c1) && m.AdmitMove? && CanDo(c1, m)
    ensures Admitted(c, Do(c1, m))
  {
    AdmitOnly(c1, m);
    hide CanDo, Do, Ascending;
  }

  lemma AdmitOnly(c: Core, m: Move)
    requires Ascending(c.running + c.waiting) && m.AdmitMove? && CanDo(c, m)
    ensures var c' := Do(c, m);
            && c'.running == c.running + [c.waiting[0]] && c'.running + c'.waiting == c.running + c.waiting
            && (forall id :: id in c.running && id in c.seqs ==> id in c'.seqs && c'.seqs[id] == c.seqs[id])
            && c.waiting[0] in c'.seqs && c'.seqs[c.waiting[0]].state == PREFILL
  {
    FrontNotRunning(c);
    assert c.waiting == [c.waiting[0]] + c.waiting[1..];
  }

  lemma {:induction false} ReversedSize(s: seq<int>)
    ensures |Reversed(s)| == |s|
    decreases |s|
  {
    if s != [] { ReversedSize(s[1..]); }
  }

  /** The three stages make one plan of the right shape, which changes nothing else. */
  lemma RoundPlanned(cfg: Config, s: Snap, s0: Snap, mid: Snap, s': Snap, prefill: seq<int>, decode: seq<int>,
                     plan: RoundPlan, now: nat)
    requires cfg.pageSize > 0 && Ascending(s.core.running + s.core.waiting)
    requires Makes(cfg.pageSize, s, plan.admits, now, s0) && Makes(cfg.pageSize, s0, plan.prefills, now, mid)
    requires Makes(cfg.pageSize, mid, plan.decodes, now, s') && Victims(plan.admits) == []
    requires AdmitStage(cfg, s.core, plan.admits) && AdmitsEnd(cfg, s0.core)
    requires plan.prefillTurns <= |prefill| && (plan.prefillTurns == |prefill| || plan.mid.budget <= 0)
    requires PrefillStage(cfg, s0.core, plan.prefills, prefill[..plan.prefillTurns], Left(decode, cfg.maxBatchTokens),
                          plan.mid)
    requires Preempted(plan, decode)
    requires plan.decodeTurns <= |plan.mid.decode| && (plan.decodeTurns == |plan.mid.decode| || plan.budget <= 0)
    requires DecodeStage(cfg.pageSize, mid.core, plan.decodes, plan.mid.decode[..plan.decodeTurns], plan.mid.budget,
                         plan.budget)
    ensures Makes(cfg.pageSize, s, plan.Moves(), now, s') && Framed(s.core, s'.core, Victims(plan.Moves()))
    ensures PlanShape(cfg, s.core, plan, prefill, decode)
    ensures |Victims(plan.prefills)| == |decode| - |plan.mid.decode|
    ensures |Victims(plan.Moves())| == |Victims(plan.prefills)| + |Victims(plan.decodes)|
  {
    assert Performed(s.core, plan.admits) == s0.core && Performed(s0.core, plan.prefills) == mid.core;
    hide Victims, Reversed, PrefillStage, DecodeStage, AdmitStage, AdmitsEnd, Performs, Rightful, StampedBy;
    MakesConcat(cfg.pageSize, s, plan.admits, s0, plan.prefills, mid, now);
    MakesConcat(cfg.pageSize, s, plan.admits + plan.prefills, mid, plan.decodes, s', now);
    PlanFrame(s.core, plan.Moves(), s'.core);
    hide Makes, Framed, Ascending, Performed;
    ReversedSize(decode[|plan.mid.decode|..]);
  }

  /** The prefill candidates are the sequences in state PREFILL at the end of the round, too. */
  lemma StillPrefilling(c0: Core, mid: Core, c: Core, prefill: seq<int>, decode': seq<int>)
    requires Picked(mid, prefill, PREFILL) && Picked(mid, decode', DECODE)
    requires forall id :: id in c0.running && id in c0.seqs && c0.seqs[id].state == PREFILL ==> id in prefill
    requires Calmer(c0, mid) && SameExcept(mid, c, decode')
    ensures Prefilling(c, prefill)
  {
  }
}
