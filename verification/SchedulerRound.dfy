/**
 What `step_complete` makes of a batch: its entries applied, finished sequences dropped, pages stamped, and the
 pages that the leak scan takes back.
 */
module SchedulerRound {
  import opened DistinctSeqs
  import opened SchedulerModel
  import opened SchedulerTurns
  import opened SchedulerBatch

  const TTL_MS: nat := 30000

  /** What the completion callback is told. */
  datatype Completion = Completion(id: int, output: seq<int>)

  // ---- what a completed round does ----

  function DecodeCount(entries: seq<BatchEntry>): nat {
    if entries == [] then 0
    else DecodeCount(entries[..|entries| - 1]) + if entries[|entries| - 1].isPrefill then 0 else 1
  }

  /** The k-th generated token; a missing one counts as token 0. */
  function TokenAt(toks: seq<int>, k: nat): int { if k < |toks| then toks[k] else 0 }

  function ApplyEntry(c: Core, e: BatchEntry, tok: int): Core {
    if e.id !in c.seqs || e.id !in c.log then c
    else if e.isPrefill then Advance(c, e.id, e.n) else Emit(c, e.id, tok)
  }

  /** All entries of a batch, in order. */
  function Applied(c: Core, entries: seq<BatchEntry>, toks: seq<int>): Core {
    if entries == [] then c
    else
      var n := |entries| - 1;
      ApplyEntry(Applied(c, entries[..n], toks), entries[n], TokenAt(toks, DecodeCount(entries[..n])))
  }

  ghost predicate Decoded(entries: seq<BatchEntry>, id: int) {
    exists i :: 0 <= i < |entries| && entries[i].id == id && !entries[i].isPrefill
  }

  /** Nothing about page ownership changed. */
  ghost predicate SameOwners(c: Core, c': Core) {
    && c'.seqs.Keys == c.seqs.Keys && c'.free == c.free && c'.orphans == c.orphans
    && c'.running == c.running && c'.waiting == c.waiting
    && forall id :: id in c.seqs ==> c'.seqs[id].pages == c.seqs[id].pages
  }

  /** Applying one entry keeps the invariant, uses up work, and leaves the other entries applicable. */
  lemma EmitIs(c: Core, e: BatchEntry, tok: int)
    requires e.id in c.seqs && e.id in c.log && !e.isPrefill
    ensures var s := c.seqs[e.id]; var s' := s.(output := s.output + [tok]);
            var done := |s'.output| >= s.maxNew || (s.eos >= 0 && tok == s.eos);
            ApplyEntry(c, e, tok) == c.(seqs := c.seqs[e.id := if done then s'.(state := DONE) else s'])
  {
  }

  lemma ApplyStep(nPages: nat, c: Core, e: BatchEntry, tok: int)
    requires Inv(nPages, c) && EntryFits(c, e)
    ensures var c' := ApplyEntry(c, e, tok);
            && Inv(nPages, c') && SameOwners(c, c') && TotalWork(c') < TotalWork(c)
            && forall id :: id in c.seqs && id != e.id ==> c'.seqs[id] == c.seqs[id]
  {
    assert RunningOk(c.seqs[e.id], c.log[e.id]);
    if e.isPrefill {
      AdvanceKeeps(nPages, c, e.id, e.n);
      UpdateWork(c, Advance(c, e.id, e.n), e.id);
    } else {
      EmitKeeps(nPages, c, e.id, tok);
      UpdateWork(c, Emit(c, e.id, tok), e.id);
    }
  }

  lemma EntryLogged(nPages: nat, c: Core, e: BatchEntry)
    requires Inv(nPages, c) && EntryFits(c, e)
    ensures e.id in c.log && Distinct(c.seqs[e.id].pages)
    ensures forall p :: p in c.seqs[e.id].pages ==> 0 <= p < nPages && p !in c.free
  {
    assert forall p :: p in c.seqs[e.id].pages ==> Owns(c.seqs, e.id, p);
  }

  /** Exactly the given pages got the new time stamp. */
  ghost predicate Refreshed(touch: seq<nat>, touch': seq<nat>, pages: seq<int>, now: nat) {
    |touch'| == |touch| && forall p :: 0 <= p < |touch| ==> touch'[p] == if p in pages then now else touch[p]
  }

  /** The pages of the decoded sequences, and no others, carry the new time stamp. */
  ghost predicate Stamped(c: Core, touch: seq<nat>, touch': seq<nat>, entries: seq<BatchEntry>, now: nat) {
    && |touch'| == |touch|
    && forall p :: 0 <= p < |touch| ==> touch'[p] == if DecodedPage(c, entries, p) then now else touch[p]
  }

  /** The page belongs to a sequence that decodes in this batch, so the round touches it. */
  ghost predicate DecodedPage(c: Core, entries: seq<BatchEntry>, p: int) {
    exists id :: Owns(c.seqs, id, p) && Decoded(entries, id)
  }

  /** The leak scan clears the stamps of the pages it frees. */
  ghost predicate Swept(touch: seq<nat>, touch': seq<nat>, stale: set<int>) {
    |touch'| == |touch| && forall p :: 0 <= p < |touch| ==> touch'[p] == if p in stale then 0 else touch[p]
  }

  /** After a whole round: reclaimed pages have no stamp, those of decoding sequences the new one, others their own. */
  ghost predicate StampedRound(c: Core, touch: seq<nat>, touch': seq<nat>, entries: seq<BatchEntry>, now: nat,
                               stale: set<int>) {
    && |touch'| == |touch|
    && forall p :: 0 <= p < |touch| ==>
         touch'[p] == if p in stale then 0 else if DecodedPage(c, entries, p) then now else touch[p]
  }

  lemma RoundStamped(c: Core, touch: seq<nat>, touch1: seq<nat>, touch': seq<nat>, entries: seq<BatchEntry>, now: nat,
                     stale: set<int>)
    requires Stamped(c, touch, touch1, entries, now) && Swept(touch1, touch', stale)
    ensures StampedRound(c, touch, touch', entries, now, stale)
  {
    hide DecodedPage;
  }

  /** The page is in use and the round leaves it untouched for longer than the time to live. */
  ghost predicate Expired(c: Core, touch: seq<nat>, entries: seq<BatchEntry>, now: nat, p: int) {
    0 <= p < |touch| && p !in c.free && now - touch[p] > TTL_MS * 1000 && !DecodedPage(c, entries, p)
  }

  /** A page expires if it is in use, older than thirty seconds, and of no sequence that decodes. */
  lemma ExpiredMeans(c: Core, touch: seq<nat>, entries: seq<BatchEntry>, now: nat, p: int)
    ensures Expired(c, touch, entries, now, p) <==>
            && 0 <= p < |touch| && p !in c.free && now - touch[p] > 30000 * 1000
            && forall i :: 0 <= i < |entries| && !entries[i].isPrefill && entries[i].id in c.seqs ==>
                 p !in c.seqs[entries[i].id].pages
  {
    if DecodedPage(c, entries, p) {
      var id :| Owns(c.seqs, id, p) && Decoded(entries, id);
      var i :| 0 <= i < |entries| && entries[i].id == id && !entries[i].isPrefill;
    }
    forall i |
      0 <= i < |entries| && !entries[i].isPrefill && entries[i].id in c.seqs && p in c.seqs[entries[i].id].pages
      ensures DecodedPage(c, entries, p)
    {
      assert Owns(c.seqs, entries[i].id, p) && Decoded(entries, entries[i].id);
    }
  }

  lemma {:induction false} ApplyAll(nPages: nat, c: Core, entries: seq<BatchEntry>, toks: seq<int>)
    requires Inv(nPages, c) && BatchFits(c, entries)
    ensures var c' := Applied(c, entries, toks);
            && Inv(nPages, c') && SameOwners(c, c') && TotalWork(c') <= TotalWork(c) - |entries|
            && forall id :: id in c.seqs && !InBatch(entries, id) ==> c'.seqs[id] == c.seqs[id]
    decreases |entries|
  {
    hide Inv, TotalWork;
    if entries != [] {
      var n := |entries| - 1;
      ApplyAll(nPages, c, entries[..n], toks);
      var c1 := Applied(c, entries[..n], toks);
      assert EntryFits(c, entries[n]);
      assert !InBatch(entries[..n], entries[n].id);
      ApplyStep(nPages, c1, entries[n], TokenAt(toks, DecodeCount(entries[..n])));
      forall id | id in c.seqs && !InBatch(entries, id) ensures Applied(c, entries, toks).seqs[id] == c.seqs[id] {
        assert entries[n].id != id;
        assert forall i :: 0 <= i < n ==> entries[..n][i] == entries[i];
        assert !InBatch(entries[..n], id);
      }
    }
  }

  /** The entry after a prefix still fits when the prefix has been applied. */
  lemma NextFits(nPages: nat, c: Core, entries: seq<BatchEntry>, toks: seq<int>, i: nat)
    requires Inv(nPages, c) && BatchFits(c, entries) && i < |entries|
    ensures Inv(nPages, Applied(c, entries[..i], toks)) && EntryFits(Applied(c, entries[..i], toks), entries[i])
    ensures entries[..i + 1][..i] == entries[..i]
  {
    assert BatchFits(c, entries[..i]);
    ApplyAll(nPages, c, entries[..i], toks);
    assert EntryFits(c, entries[i]);
    assert !InBatch(entries[..i], entries[i].id);
    assert entries[..i + 1][..i] == entries[..i];
  }

  lemma StampStart(c: Core, touch: seq<nat>, now: nat)
    ensures Stamped(c, touch, touch, [], now)
  {
  }

  lemma StampPrefill(c: Core, entries: seq<BatchEntry>, i: nat, touch: seq<nat>, touch1: seq<nat>, now: nat)
    requires i < |entries| && entries[i].isPrefill && Stamped(c, touch, touch1, entries[..i], now)
    ensures Stamped(c, touch, touch1, entries[..i + 1], now)
  {
    DecodedNext(entries, i);
    hide Decoded;
    assert forall p :: DecodedPage(c, entries[..i + 1], p) <==> DecodedPage(c, entries[..i], p);
  }

  /** Refreshing the pages of the next decoded sequence touches nobody else's pages. */
  lemma StampDecode(nPages: nat, c: Core, entries: seq<BatchEntry>, i: nat,
                    touch: seq<nat>, touch1: seq<nat>, touch2: seq<nat>, now: nat)
    requires Partition(nPages, c) && i < |entries| && !entries[i].isPrefill && entries[i].id in c.seqs
    requires Stamped(c, touch, touch1, entries[..i], now)
    requires Refreshed(touch1, touch2, c.seqs[entries[i].id].pages, now)
    ensures Stamped(c, touch, touch2, entries[..i + 1], now)
  {
    DecodedNext(entries, i);
    var e := entries[i];
    hide Partition, Decoded;
    forall p | 0 <= p < |touch|
      ensures DecodedPage(c, entries[..i + 1], p) <==> DecodedPage(c, entries[..i], p) || p in c.seqs[e.id].pages
    {
      assert p in c.seqs[e.id].pages <==> Owns(c.seqs, e.id, p);
      if p in c.seqs[e.id].pages { assert Owns(c.seqs, e.id, p) && Decoded(entries[..i + 1], e.id); }
      if DecodedPage(c, entries[..i], p) {
        var id :| Owns(c.seqs, id, p) && Decoded(entries[..i], id);
        assert Owns(c.seqs, id, p) && Decoded(entries[..i + 1], id);
      }
    }
  }

  lemma AppliedPages(nPages: nat, c: Core, entries: seq<BatchEntry>, toks: seq<int>, i: nat)
    requires Inv(nPages, c) && BatchFits(c, entries) && i < |entries|
    ensures Partition(nPages, c) && entries[i].id in c.seqs
    ensures var c1 := Applied(c, entries[..i], toks);
            entries[i].id in c1.seqs && c1.seqs[entries[i].id].pages == c.seqs[entries[i].id].pages
  {
    assert BatchFits(c, entries[..i]);
    ApplyAll(nPages, c, entries[..i], toks);
    assert EntryFits(c, entries[i]);
  }

  lemma DecodedNext(entries: seq<BatchEntry>, i: nat)
    requires i < |entries|
    ensures forall id :: Decoded(entries[..i + 1], id) <==>
              Decoded(entries[..i], id) || (!entries[i].isPrefill && entries[i].id == id)
  {
    var a, b := entries[..i], entries[..i + 1];
    forall id ensures Decoded(b, id) <==> Decoded(a, id) || (!entries[i].isPrefill && entries[i].id == id) {
      assert b[i] == entries[i] && forall k :: 0 <= k < i ==> b[k] == a[k];
    }
  }

  // ---- tokens and outputs ----

  /** The token of decode entry `i`: the generated ones in order, and 0 when they run out. */
  ghost function TokenOf(entries: seq<BatchEntry>, toks: seq<int>, i: nat): int {
    var d := |set j | 0 <= j < i < |entries| && !entries[j].isPrefill|;
    if d < |toks| then toks[d] else 0
  }

  /** The sequence of entry `i` after the forward pass. */
  ghost function Outcome(s: Sequence, entries: seq<BatchEntry>, toks: seq<int>, i: nat): Sequence
    requires i < |entries|
  {
    if entries[i].isPrefill then
      var cursor := s.cursor + entries[i].n;
      s.(cursor := cursor, state := if cursor < |s.prompt| then s.state else DECODE)
    else
      var tok := TokenOf(entries, toks, i);
      var done := |s.output| + 1 >= s.maxNew || (s.eos >= 0 && tok == s.eos);
      s.(output := s.output + [tok], state := if done then DONE else s.state)
  }

  lemma {:induction false} DecodeCountIs(entries: seq<BatchEntry>, i: nat)
    requires i <= |entries|
    ensures DecodeCount(entries[..i]) == |set j | 0 <= j < i && !entries[j].isPrefill|
  {
    var now := set j | 0 <= j < i && !entries[j].isPrefill;
    if i > 0 {
      DecodeCountIs(entries, i - 1);
      assert entries[..i][..i - 1] == entries[..i - 1];
      var before := set j | 0 <= j < i - 1 && !entries[j].isPrefill;
      assert now == if entries[i - 1].isPrefill then before else before + {i - 1};
    } else {
      assert now == {};
    }
  }

  lemma TokenIs(entries: seq<BatchEntry>, toks: seq<int>, i: nat)
    requires i < |entries|
    ensures TokenOf(entries, toks, i) == TokenAt(toks, DecodeCount(entries[..i]))
  {
    DecodeCountIs(entries, i);
    assert (set j | 0 <= j < i < |entries| && !entries[j].isPrefill) == (set j | 0 <= j < i && !entries[j].isPrefill);
  }

  lemma EntryApplied(c: Core, entries: seq<BatchEntry>, toks: seq<int>, i: nat)
    requires i < |entries| && EntryFits(c, entries[i]) && entries[i].id in c.log
    ensures ApplyEntry(c, entries[i], TokenOf(entries, toks, i)).seqs ==
            c.seqs[entries[i].id := Outcome(c.seqs[entries[i].id], entries, toks, i)]
  {
  }

  /** Applying a batch gives every sequence its outcome, whatever else is in the batch. */
  lemma {:induction false} AppliedEntry(nPages: nat, c: Core, entries: seq<BatchEntry>, toks: seq<int>, n: nat, i: nat)
    requires Inv(nPages, c) && BatchFits(c, entries) && i < n <= |entries|
    ensures var id := entries[i].id;
            && id in c.seqs && id in Applied(c, entries[..n], toks).seqs
            && Applied(c, entries[..n], toks).seqs[id] == Outcome(c.seqs[id], entries, toks, i)
    decreases n
  {
    hide Inv, ApplyEntry, Applied, Outcome, BatchFits, Emit, Advance, EntryFits;
    PrefixApplied(nPages, c, entries, toks, n - 1);
    LastApplied(nPages, c, entries, toks, n - 1);
    if i < n - 1 { AppliedEntry(nPages, c, entries, toks, n - 1, i); }
  }

  lemma LastApplied(nPages: nat, c: Core, entries: seq<BatchEntry>, toks: seq<int>, n: nat)
    requires Inv(nPages, c) && BatchFits(c, entries) && n < |entries|
    ensures var c1, id := Applied(c, entries[..n], toks), entries[n].id;
            && id in c1.seqs
            && Applied(c, entries[..n + 1], toks).seqs == c1.seqs[id := Outcome(c1.seqs[id], entries, toks, n)]
  {
    NextFits(nPages, c, entries, toks, n);
    var c1 := Applied(c, entries[..n], toks);
    EntryLogged(nPages, c1, entries[n]);
    hide Inv, BatchFits;
    TokenIs(entries, toks, n);
    EntryApplied(c1, entries, toks, n);
    hide ApplyEntry, Outcome, TokenOf, TokenAt, DecodeCount;
  }

  /** The next entry's sequence is still as it was, and others than the batched ones remain so. */
  lemma PrefixApplied(nPages: nat, c: Core, entries: seq<BatchEntry>, toks: seq<int>, n: nat)
    requires Inv(nPages, c) && BatchFits(c, entries) && n < |entries|
    ensures var c1, e := Applied(c, entries[..n], toks), entries[n];
            && e.id in c.seqs && e.id in c1.seqs && c1.seqs[e.id] == c.seqs[e.id]
            && forall i :: 0 <= i < n ==> entries[i].id != e.id
  {
    assert BatchFits(c, entries[..n]);
    ApplyAll(nPages, c, entries[..n], toks);
    assert EntryFits(c, entries[n]);
    assert !InBatch(entries[..n], entries[n].id);
  }

  // ---- what the callback is told ----

  /** The decode entries that finish their sequence, in batch order. */
  ghost predicate Finishing(seqs: map<int, Sequence>, entries: seq<BatchEntry>, toks: seq<int>, n: nat,
                            finished: seq<nat>) {
    && (forall a, b :: 0 <= a < b < |finished| ==> finished[a] < finished[b])
    && forall i: nat :: i in finished <==> i < n && Finishes(seqs, entries, toks, i)
  }

  ghost predicate Finishes(seqs: map<int, Sequence>, entries: seq<BatchEntry>, toks: seq<int>, i: nat) {
    && i < |entries| && !entries[i].isPrefill && entries[i].id in seqs
    && Outcome(seqs[entries[i].id], entries, toks, i).state == DONE
  }

  /** One report for each of them, with its whole output. */
  ghost predicate Reports(seqs: map<int, Sequence>, entries: seq<BatchEntry>, toks: seq<int>, finished: seq<nat>,
                          reports: seq<Completion>) {
    && |reports| == |finished|
    && forall k :: 0 <= k < |finished| ==> ReportOf(seqs, entries, toks, finished[k], reports[k])
  }

  ghost predicate ReportOf(seqs: map<int, Sequence>, entries: seq<BatchEntry>, toks: seq<int>, i: nat, r: Completion) {
    && i < |entries| && entries[i].id in seqs
    && r == Completion(entries[i].id, Outcome(seqs[entries[i].id], entries, toks, i).output)
  }

  lemma NothingFinished(seqs: map<int, Sequence>, entries: seq<BatchEntry>, toks: seq<int>)
    ensures Finishing(seqs, entries, toks, 0, []) && Reports(seqs, entries, toks, [], [])
  {
  }

  /** One more entry. */
  lemma FinishedNext(seqs: map<int, Sequence>, entries: seq<BatchEntry>, toks: seq<int>, n: nat, finished: seq<nat>,
                     reports: seq<Completion>)
    requires n < |entries| && entries[n].id in seqs
    requires Finishing(seqs, entries, toks, n, finished) && Reports(seqs, entries, toks, finished, reports)
    ensures var s := Outcome(seqs[entries[n].id], entries, toks, n);
            var now := !entries[n].isPrefill && s.state == DONE;
            var finished' := if now then finished + [n] else finished;
            var reports' := if now then reports + [Completion(entries[n].id, s.output)] else reports;
            Finishing(seqs, entries, toks, n + 1, finished') && Reports(seqs, entries, toks, finished', reports')
  {
    hide Outcome;
    var f := finished + [n];
    assert forall k :: 0 <= k < |finished| ==> finished[k] in finished;
    assert forall i: nat :: i in f <==> i in finished || i == n;
  }

  /** After a round finished sequences are gone, batched ones have their outcome, the others are as they were. */
  ghost predicate RoundOutcome(seqs: map<int, Sequence>, seqs': map<int, Sequence>, entries: seq<BatchEntry>,
                               toks: seq<int>) {
    && (forall id :: id in seqs' ==> id in seqs)
    && (forall id :: id in seqs && !InBatch(entries, id) ==> id in seqs' && seqs'[id] == seqs[id])
    && forall i :: 0 <= i < |entries| ==> EntryOutcome(seqs, seqs', entries, toks, i)
  }

  ghost predicate EntryOutcome(seqs: map<int, Sequence>, seqs': map<int, Sequence>, entries: seq<BatchEntry>,
                               toks: seq<int>, i: nat)
    requires i < |entries|
  {
    && entries[i].id in seqs
    && var s := Outcome(seqs[entries[i].id], entries, toks, i);
       if !entries[i].isPrefill && s.state == DONE then entries[i].id !in seqs'
       else entries[i].id in seqs' && seqs'[entries[i].id] == s
  }

  /** What the round's outcome says of one entry, in full. */
  lemma OutcomeMeans(seqs: map<int, Sequence>, seqs': map<int, Sequence>, entries: seq<BatchEntry>, toks: seq<int>,
                     i: nat)
    requires RoundOutcome(seqs, seqs', entries, toks) && i < |entries|
    requires entries[i].id in seqs && !seqs[entries[i].id].IsDone()
    ensures entries[i].isPrefill ==>
              var e, s := entries[i], seqs[entries[i].id];
              && e.id in seqs' && seqs'[e.id] == s.(cursor := s.cursor + e.n, state := seqs'[e.id].state)
              && seqs'[e.id].state == if s.cursor + e.n < |s.prompt| then s.state else DECODE
    ensures !entries[i].isPrefill ==>
              var e, s := entries[i], seqs[entries[i].id];
              var d := |set j | 0 <= j < i && !entries[j].isPrefill|;
              var output := s.output + [if d < |toks| then toks[d] else 0];
              if |output| >= s.maxNew || (s.eos >= 0 && output[|output| - 1] == s.eos) then e.id !in seqs'
              else e.id in seqs' && seqs'[e.id] == s.(output := output)
  {
    assert EntryOutcome(seqs, seqs', entries, toks, i);
    assert (set j | 0 <= j < i < |entries| && !entries[j].isPrefill) == (set j | 0 <= j < i && !entries[j].isPrefill);
  }

  /** What the callback is told of a decode entry, in full. */
  lemma ReportMeans(seqs: map<int, Sequence>, entries: seq<BatchEntry>, toks: seq<int>, finished: seq<nat>,
                    reports: seq<Completion>, i: nat)
    requires Finishing(seqs, entries, toks, |entries|, finished) && Reports(seqs, entries, toks, finished, reports)
    requires i < |entries| && !entries[i].isPrefill && entries[i].id in seqs && seqs[entries[i].id].state == DECODE
    ensures var s := seqs[entries[i].id];
            var d := |set j | 0 <= j < i && !entries[j].isPrefill|;
            var output := s.output + [if d < |toks| then toks[d] else 0];
            if |output| >= s.maxNew || (s.eos >= 0 && output[|output| - 1] == s.eos) then
              exists k :: 0 <= k < |reports| && finished[k] == i && reports[k] == Completion(entries[i].id, output)
            else i !in finished
  {
    assert (set j | 0 <= j < i < |entries| && !entries[j].isPrefill) == (set j | 0 <= j < i && !entries[j].isPrefill);
    var s := seqs[entries[i].id];
    var d := |set j | 0 <= j < i && !entries[j].isPrefill|;
    var output := s.output + [if d < |toks| then toks[d] else 0];
    assert TokenOf(entries, toks, i) == output[|output| - 1];
    assert Outcome(s, entries, toks, i).output == output;
    if i in finished {
      var k :| 0 <= k < |finished| && finished[k] == i;
      assert ReportOf(seqs, entries, toks, finished[k], reports[k]);
      assert reports[k] == Completion(entries[i].id, output);
    }
  }

  // ---- completed sequences and the leak scan ----

  /** The finished sequences among `ids` leave, in order. */
  function RetireAll(c: Core, ids: seq<int>): Core {
    if ids == [] then c
    else
      var c1 := RetireAll(c, ids[..|ids| - 1]);
      var id := ids[|ids| - 1];
      if id in c1.seqs && c1.seqs[id].state == DONE then Retire(c1, id) else c1
  }

  /** `c'` is `c` without the finished sequences among `ids`. */
  ghost predicate Retired(c: Core, c': Core, ids: seq<int>) {
    && c'.waiting == c.waiting && c'.free == c.free && c'.log == c.log && c'.nextId == c.nextId
    && (forall id :: id in c'.running <==> id in c.running && !(id in ids && Finished(c, id)))
    && (forall id :: id in c'.seqs <==> id in c.seqs && !(id in ids && Finished(c, id)))
    && (forall id :: id in c'.seqs ==> c'.seqs[id] == c.seqs[id])
    && (forall p :: p in c'.orphans <==>
        p in c.orphans || exists id :: id in ids && Finished(c, id) && Owns(c.seqs, id, p))
  }

  ghost predicate Finished(c: Core, id: int) {
    id in c.running && id in c.seqs && c.seqs[id].state == DONE
  }

  lemma RetireOne(nPages: nat, c: Core, c1: Core, ids: seq<int>)
    requires ids != [] && Inv(nPages, c1) && Retired(c, c1, ids[..|ids| - 1]) && Ascending(ids)
    requires Finished(c, ids[|ids| - 1])
    ensures var c' := Retire(c1, ids[|ids| - 1]);
            Inv(nPages, c') && Retired(c, c', ids) && TotalWork(c') <= TotalWork(c1)
  {
    var n := |ids| - 1;
    var id := ids[n];
    assert ids == ids[..n] + [id];
    assert forall k :: 0 <= k < n ==> ids[..n][k] == ids[k];
    assert id !in ids[..n];
    RetireOwn(nPages, c1, id);
    hide Inv, TotalWork, Ascending, Retire;
    RetireOrphans(c, c1, ids);
    RetiredMore(c, c1, Retire(c1, id), ids);
  }

  lemma RetiredMore(c: Core, c1: Core, c': Core, ids: seq<int>)
    requires ids != [] && Retired(c, c1, ids[..|ids| - 1]) && Finished(c, ids[|ids| - 1])
    requires c'.waiting == c1.waiting && c'.free == c1.free && c'.log == c1.log && c'.nextId == c1.nextId
    requires var id := ids[|ids| - 1];
             c'.seqs == c1.seqs - {id} && forall jd :: jd in c'.running <==> jd in c1.running && jd != id
    requires forall p :: p in c'.orphans <==>
               p in c.orphans || exists jd :: jd in ids && Finished(c, jd) && Owns(c.seqs, jd, p)
    ensures Retired(c, c', ids)
  {
    hide Owns;
    var n := |ids| - 1;
    assert ids == ids[..n] + [ids[n]];
    assert forall jd :: jd in ids <==> jd in ids[..n] || jd == ids[n];
  }

  /** What one retirement does, apart from the orphans. */
  lemma RetireOwn(nPages: nat, c: Core, id: int)
    requires Inv(nPages, c) && id in c.running && id in c.seqs && c.seqs[id].state == DONE
    ensures var c' := Retire(c, id);
            && Inv(nPages, c') && TotalWork(c') <= TotalWork(c)
            && c'.waiting == c.waiting && c'.free == c.free && c'.log == c.log && c'.nextId == c.nextId
            && c'.seqs == c.seqs - {id} && forall jd :: jd in c'.running <==> jd in c.running && jd != id
  {
    RetireKeeps(nPages, c, id);
    QueuesDisjoint(c);
    WithoutSame(c.waiting, id);
    WithoutProps(c.running, id);
    RemoveWork(nPages, c, Retire(c, id), id);
    hide Inv, Queues, TotalWork;
  }

  lemma RetireOrphans(c: Core, c1: Core, ids: seq<int>)
    requires ids != [] && Retired(c, c1, ids[..|ids| - 1])
    requires Finished(c, ids[|ids| - 1]) && ids[|ids| - 1] in c1.seqs
    ensures forall p :: p in Retire(c1, ids[|ids| - 1]).orphans <==>
                        p in c.orphans || exists jd :: jd in ids && Finished(c, jd) && Owns(c.seqs, jd, p)
  {
    var n := |ids| - 1;
    var id := ids[n];
    assert ids == ids[..n] + [id];
    var c' := Retire(c1, id);
    forall p
      ensures p in c'.orphans <==> p in c.orphans || exists jd :: jd in ids && Finished(c, jd) && Owns(c.seqs, jd, p)
    {
      if p in c1.orphans && p !in c.orphans {
        var jd :| jd in ids[..n] && Finished(c, jd) && Owns(c.seqs, jd, p);
        assert jd in ids;
      }
      if p in c1.seqs[id].pages { assert Owns(c.seqs, id, p) && id in ids; }
      if exists jd :: jd in ids && Finished(c, jd) && Owns(c.seqs, jd, p) {
        var jd :| jd in ids && Finished(c, jd) && Owns(c.seqs, jd, p);
        assert jd == id || jd in ids[..n];
      }
    }
  }

  lemma RetireNone(c: Core, c1: Core, ids: seq<int>)
    requires ids != [] && Retired(c, c1, ids[..|ids| - 1]) && !Finished(c, ids[|ids| - 1])
    ensures Retired(c, c1, ids)
  {
    var n := |ids| - 1;
    var id := ids[n];
    assert ids == ids[..n] + [id];
    assert forall jd :: jd in ids && Finished(c, jd) <==> jd in ids[..n] && Finished(c, jd);
  }

  lemma RetiredNothing(c: Core)
    ensures Retired(c, c, [])
  {
  }

  lemma NotRetiredYet(nPages: nat, c: Core, c1: Core, ids: seq<int>)
    requires Inv(nPages, c) && ids != [] && Ascending(ids) && ids[|ids| - 1] in c.running
    requires Retired(c, c1, ids[..|ids| - 1])
    ensures var id := ids[|ids| - 1]; id in c.seqs && id in c1.seqs && c1.seqs[id] == c.seqs[id]
  {
    var n := |ids| - 1;
    var id := ids[n];
    assert forall k :: 0 <= k < n ==> ids[..n][k] == ids[k];
    assert id !in ids[..n];
  }

  lemma RetireNext(c: Core, ids: seq<int>, i: nat)
    requires i < |ids|
    ensures var c1 := RetireAll(c, ids[..i]);
            RetireAll(c, ids[..i + 1]) ==
            if ids[i] in c1.seqs && c1.seqs[ids[i]].state == DONE then Retire(c1, ids[i]) else c1
  {
    assert ids[..i + 1][..i] == ids[..i];
  }

  lemma RetireIs(c: Core, id: int)
    requires id in c.seqs
    ensures Retire(c, id) == c.(seqs := c.seqs - {id}, running := Without(c.running, id),
                                orphans := c.orphans + SetOf(c.seqs[id].pages))
  {
  }

  lemma {:induction false} RetireAllProps(nPages: nat, c: Core, ids: seq<int>)
    requires Inv(nPages, c) && Ascending(ids) && forall id :: id in ids ==> id in c.running
    ensures var c' := RetireAll(c, ids);
            Inv(nPages, c') && Retired(c, c', ids) && TotalWork(c') <= TotalWork(c)
    decreases |ids|
  {
    hide Inv, TotalWork, Retired;
    if ids == [] {
      RetiredNothing(c);
    } else {
      var n := |ids| - 1;
      var id := ids[n];
      assert id in ids && forall jd :: jd in ids[..n] ==> jd in ids;
      assert forall k :: 0 <= k < n ==> ids[..n][k] == ids[k];
      RetireAllProps(nPages, c, ids[..n]);
      var c1 := RetireAll(c, ids[..n]);
      NotRetiredYet(nPages, c, c1, ids);
      if Finished(c, id) { RetireOne(nPages, c, c1, ids); } else { RetireNone(c, c1, ids); }
    }
  }

  /** Nobody finished is left, and no waiting or live sequence was touched. */
  lemma RetireSettles(nPages: nat, c: Core)
    requires Inv(nPages, c)
    ensures var c' := RetireAll(c, c.running);
            Inv(nPages, c') && Settled(c') && Retired(c, c', c.running) && TotalWork(c') <= TotalWork(c)
  {
    QueuesDisjoint(c);
    RetireAllProps(nPages, c, c.running);
    var c' := RetireAll(c, c.running);
    forall id | id in c'.running ensures id in c'.seqs && !c'.seqs[id].IsDone() {
      assert id in c.running && RunningOk(c.seqs[id], c.log[id]);
    }
  }

  lemma ReclaimSettled(nPages: nat, c: Core, stale: set<int>)
    requires Inv(nPages, c) && Settled(c) && forall p :: p in stale ==> 0 <= p < nPages
    ensures var c' := Reclaim(c, stale);
            && (Inv(nPages, c') <==> forall id, p :: Owns(c.seqs, id, p) ==> p !in stale)
            && Settled(c') && Queues(c') && TotalWork(c') == TotalWork(c)
            && c'.orphans == c.orphans - c'.free
  {
    ReclaimKeepsIff(nPages, c, stale);
  }

  /** The state after a completed round, up to the leak scan. */
  function AfterRound(c: Core, entries: seq<BatchEntry>, toks: seq<int>): Core {
    RetireAll(Applied(c, entries, toks), c.running)
  }

  /** Nobody is finished between rounds, so exactly the sequences finishing now are dropped. */
  lemma RoundGives(nPages: nat, c: Core, entries: seq<BatchEntry>, toks: seq<int>)
    requires Inv(nPages, c) && Settled(c) && BatchFits(c, entries)
    ensures RoundOutcome(c.seqs, AfterRound(c, entries, toks).seqs, entries, toks)
  {
    hide Inv, Settled, BatchFits, Outcome, EntryOutcome, RetireAll, Applied, TotalWork, InBatch;
    var c1 := Applied(c, entries, toks);
    ApplyAll(nPages, c, entries, toks);
    RetireSettles(nPages, c1);
    NotDone(nPages, c);
    forall i | 0 <= i < |entries| ensures EntryOutcome(c.seqs, AfterRound(c, entries, toks).seqs, entries, toks, i) {
      EntryRetired(nPages, c, entries, toks, i);
    }
  }

  lemma NotDone(nPages: nat, c: Core)
    requires Inv(nPages, c) && Settled(c)
    ensures forall id :: id in c.seqs ==> c.seqs[id].state != DONE
  {
    assert forall id :: id in c.running ==> id in c.seqs && !c.seqs[id].IsDone();
    assert forall id :: id in c.waiting ==> id in c.seqs && WaitingOk(c.seqs[id], c.log[id]);
  }

  lemma EntryRetired(nPages: nat, c: Core, entries: seq<BatchEntry>, toks: seq<int>, i: nat)
    requires Inv(nPages, c) && BatchFits(c, entries) && i < |entries|
    requires var c1 := Applied(c, entries, toks); Retired(c1, AfterRound(c, entries, toks), c1.running)
    requires SameOwners(c, Applied(c, entries, toks))
    ensures EntryOutcome(c.seqs, AfterRound(c, entries, toks).seqs, entries, toks, i)
  {
    assert entries[..|entries|] == entries;
    AppliedEntry(nPages, c, entries, toks, |entries|, i);
    assert EntryFits(c, entries[i]);
    PrefillNotDone(c.seqs[entries[i].id], entries, toks, i);
    hide Inv, Outcome, AfterRound, Applied;
  }

  lemma PrefillNotDone(s: Sequence, entries: seq<BatchEntry>, toks: seq<int>, i: nat)
    requires i < |entries|
    ensures entries[i].isPrefill && s.state == PREFILL ==> Outcome(s, entries, toks, i).state != DONE
  {
  }

  /** Every page that survives the round was touched in it or within the time to live. */
  ghost predicate LivePagesFresh(c: Core, touch: seq<nat>, entries: seq<BatchEntry>, toks: seq<int>, now: nat) {
    forall id, p :: Owns(AfterRound(c, entries, toks).seqs, id, p) && 0 <= p < |touch| && !Decoded(entries, id) ==>
      now - touch[p] <= TTL_MS * 1000
  }

  /** No owned page is older than the time to live. */
  ghost predicate OwnedFresh(seqs: map<int, Sequence>, touch: seq<nat>, now: nat) {
    forall id, p :: Owns(seqs, id, p) && 0 <= p < |touch| ==> now - touch[p] <= TTL_MS * 1000
  }

  lemma RoundOwners(nPages: nat, c: Core, entries: seq<BatchEntry>, toks: seq<int>)
    requires Inv(nPages, c) && BatchFits(c, entries)
    ensures var c1 := Applied(c, entries, toks);
            && Inv(nPages, c1) && c1.running == c.running && TotalWork(c1) <= TotalWork(c) - |entries|
            && Inv(nPages, AfterRound(c, entries, toks)) && AfterRound(c, entries, toks).free == c.free
            && forall id, p :: Owns(AfterRound(c, entries, toks).seqs, id, p) ==> Owns(c.seqs, id, p) && 0 <= p < nPages
  {
    ApplyAll(nPages, c, entries, toks);
    RetireSettles(nPages, Applied(c, entries, toks));
  }

  /** Who owns a page that the round touched is the one that decoded. */
  lemma OwnerDecoded(nPages: nat, c: Core, entries: seq<BatchEntry>, id: int, p: int)
    requires Partition(nPages, c) && Owns(c.seqs, id, p)
    ensures DecodedPage(c, entries, p) <==> Decoded(entries, id)
  {
  }

  /** The scan finds no live page stale exactly when the live pages were fresh enough before the round. */
  lemma StaleIff(nPages: nat, c: Core, touch: seq<nat>, touch': seq<nat>, entries: seq<BatchEntry>, toks: seq<int>,
                 now: nat)
    requires Inv(nPages, c) && BatchFits(c, entries) && |touch| == nPages
    requires Stamped(c, touch, touch', entries, now)
    ensures LivePagesFresh(c, touch, entries, toks, now) <==> OwnedFresh(AfterRound(c, entries, toks).seqs, touch', now)
  {
    RoundOwners(nPages, c, entries, toks);
    var r := AfterRound(c, entries, toks);
    forall id, p | Owns(r.seqs, id, p) ensures touch'[p] == if Decoded(entries, id) then now else touch[p] {
      assert Owns(c.seqs, id, p);
      OwnerDecoded(nPages, c, entries, id, p);
    }
    hide Inv, TotalWork, AfterRound, DecodedPage, Decoded;
    if !LivePagesFresh(c, touch, entries, toks, now) {
      var id, p :| Owns(r.seqs, id, p) && 0 <= p < |touch| && !Decoded(entries, id) && now - touch[p] > TTL_MS * 1000;
      assert Owns(r.seqs, id, p) && now - touch'[p] > TTL_MS * 1000;
    }
  }
}
