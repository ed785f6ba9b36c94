/**
 The state of the continuous-batching scheduler as a value: the sequences, the two queues, who owns
 which KV page, and the elementary actions its methods are made of.
 */
module SchedulerModel {
  import opened DistinctSeqs
  import opened FreeStack
  import opened Pool

  datatype SeqState = WAITING | PREFILL | DECODE | SWAPPED | DONE | ABORTED

  datatype Sequence = Sequence(
    prompt: seq<int>, output: seq<int>, maxNew: int, eos: int,
    state: SeqState, pages: seq<int>, cursor: int)
  {
    predicate IsDone() { state == DONE || state == ABORTED }
    function TotalTokens(): nat { |prompt| + |output| }
    function RemainingPrefill(): int { |prompt| - cursor }
  }

  /** A sequence is named by its id; the queues own sequences by id and a batch entry points to one. */
  datatype BatchEntry = BatchEntry(id: int, n: int, isPrefill: bool, start: int)

  /** A prompt interval that a completed round has prefilled. */
  datatype Chunk = Chunk(start: int, len: int)

  /**
   `orphans` are the pages of completed sequences that nobody has returned yet; `log` records the
   prefilled chunks of every sequence.  Neither exists in the program.
   */
  datatype Core = Core(
    seqs: map<int, Sequence>, waiting: seq<int>, running: seq<int>, nextId: int,
    free: set<int>, orphans: set<int>, log: map<int, seq<Chunk>>)

  // ---- page ownership ----

  /** Pages that `tokens` tokens occupy: the quotient rounded up. */
  function PagesNeeded(pageSize: int, tokens: int): int
    requires pageSize > 0
  {
    (tokens + pageSize - 1) / pageSize
  }

  /** Fewer pages would not hold the tokens, and these do. */
  lemma PagesNeededLeast(pageSize: int, tokens: int)
    requires pageSize > 0
    ensures var n := PagesNeeded(pageSize, tokens); (n - 1) * pageSize < tokens <= n * pageSize
  {
    var a, n := tokens + pageSize - 1, PagesNeeded(pageSize, tokens);
    assert a == n * pageSize + a % pageSize;
    assert (n - 1) * pageSize == n * pageSize - pageSize;
  }

  ghost predicate Owns(seqs: map<int, Sequence>, id: int, p: int) {
    id in seqs && p in seqs[id].pages
  }

  /** Every page is in exactly one place: the free set, one live sequence, or the orphans. */
  ghost predicate Partition(nPages: nat, c: Core) {
    && (forall id :: id in c.seqs ==> Distinct(c.seqs[id].pages))
    && (forall id, p :: Owns(c.seqs, id, p) ==> 0 <= p < nPages && p !in c.free && p !in c.orphans)
    && (forall id, jd, p :: Owns(c.seqs, id, p) && Owns(c.seqs, jd, p) ==> id == jd)
    && c.free !! c.orphans
    && (forall p :: p in c.free || p in c.orphans ==> 0 <= p < nPages)
    && (forall p :: 0 <= p < nPages ==> p in c.free || p in c.orphans || exists id :: Owns(c.seqs, id, p))
  }

  // ---- queues ----

  ghost predicate Ascending(s: seq<int>) {
    forall i, j :: 0 <= i < j < |s| ==> s[i] < s[j]
  }

  /** The queues hold every sequence once; ids are in arrival order, running before waiting. */
  ghost predicate Queues(c: Core) {
    && Ascending(c.running + c.waiting)
    && (forall id :: id in c.seqs <==> id in c.running || id in c.waiting)
    && (forall id :: id in c.seqs ==> id < c.nextId)
  }

  // ---- prefill progress ----

  /** The chunks are contiguous from 0 and end at `upto`. */
  ghost predicate Covers(log: seq<Chunk>, upto: int)
    decreases |log|
  {
    if log == [] then upto == 0
    else
      var last := log[|log| - 1];
      last.len > 0 && last.start + last.len == upto && Covers(log[..|log| - 1], last.start)
  }

  ghost predicate Within(ch: Chunk, k: int) {
    ch.start <= k < ch.start + ch.len
  }

  /** Contiguous chunks prefill every position below `upto` exactly once and nothing else. */
  lemma {:induction false} CoversOnce(log: seq<Chunk>, upto: int, k: int)
    requires Covers(log, upto)
    ensures 0 <= upto
    ensures 0 <= k < upto <==> exists i :: 0 <= i < |log| && Within(log[i], k)
    ensures forall i, j :: 0 <= i < |log| && 0 <= j < |log| && Within(log[i], k) && Within(log[j], k) ==> i == j
    decreases |log|
  {
    if log != [] {
      var n := |log| - 1;
      CoversOnce(log[..n], log[n].start, k);
      if 0 <= k < upto {
        if k < log[n].start {
          var i :| 0 <= i < n && Within(log[..n][i], k);
          assert Within(log[i], k);
        } else {
          assert Within(log[n], k);
        }
      }
      forall i | 0 <= i < |log| && Within(log[i], k) ensures 0 <= k < upto && (i < n <==> k < log[n].start) {
        assert i < n ==> Within(log[..n][i], k);
      }
      forall i, j | 0 <= i < |log| && 0 <= j < |log| && Within(log[i], k) && Within(log[j], k) ensures i == j {
        if i < n { assert Within(log[..n][i], k); }
        if j < n { assert Within(log[..n][j], k); }
      }
    }
  }

  function Limit(s: Sequence): int { if s.maxNew > 1 then s.maxNew else 1 }

  /** A sequence in the waiting queue. */
  ghost predicate WaitingOk(s: Sequence, log: seq<Chunk>) {
    s.state == WAITING && s.pages == [] && s.output == [] && s.cursor == 0 && log == []
  }

  /**
   A sequence in the running list.  WAITING marks a preempted one: it has lost its pages and its
   output, its prompt had been prefilled completely, and no method ever schedules it again.
   */
  ghost predicate RunningOk(s: Sequence, log: seq<Chunk>) {
    match s.state
    case WAITING => s.pages == [] && s.output == [] && s.cursor == 0 && s.prompt != [] && Covers(log, |s.prompt|)
    case PREFILL =>
      s.output == [] && 0 <= s.cursor <= |s.prompt| && Covers(log, s.cursor)
      && (s.cursor == |s.prompt| ==> s.prompt == [])
    case DECODE =>
      s.prompt != [] && s.cursor == |s.prompt| && Covers(log, |s.prompt|) && |s.output| < Limit(s)
    case DONE => s.prompt != [] && s.cursor == |s.prompt| && Covers(log, |s.prompt|)
    case _ => false
  }

  ghost predicate Progress(c: Core) {
    && (forall id :: id in c.waiting ==> id in c.seqs && id in c.log && WaitingOk(c.seqs[id], c.log[id]))
    && (forall id :: id in c.running ==> id in c.seqs && id in c.log && RunningOk(c.seqs[id], c.log[id]))
  }

  ghost predicate Inv(nPages: nat, c: Core) {
    Queues(c) && Progress(c) && Partition(nPages, c)
  }

  /** Between calls no sequence is DONE. */
  ghost predicate Settled(c: Core) {
    forall id :: id in c.running ==> id in c.seqs && !c.seqs[id].IsDone()
  }

  lemma QueuesDisjoint(c: Core)
    requires Queues(c)
    ensures Ascending(c.running) && Ascending(c.waiting)
    ensures forall id :: id in c.running ==> id !in c.waiting
    ensures forall i, j :: 0 <= i < |c.running| && 0 <= j < |c.waiting| ==> c.running[i] < c.waiting[j]
  {
    var all := c.running + c.waiting;
    assert forall i :: 0 <= i < |c.running| ==> all[i] == c.running[i];
    assert forall j :: 0 <= j < |c.waiting| ==> all[|c.running| + j] == c.waiting[j];
  }

  // ---- actions ----

  function Grant(c: Core, id: int, out: seq<int>): Core
    requires id in c.seqs
  {
    var s := c.seqs[id];
    c.(seqs := c.seqs[id := s.(pages := s.pages + out)], free := c.free - SetOf(out))
  }

  function Preempt(c: Core, id: int): Core
    requires id in c.seqs
  {
    var s := c.seqs[id];
    c.(seqs := c.seqs[id := s.(pages := [], state := WAITING, cursor := 0, output := [])],
       free := c.free + SetOf(s.pages))
  }

  function Admit(c: Core): Core
    requires c.waiting != [] && c.waiting[0] in c.seqs
  {
    var id := c.waiting[0];
    c.(seqs := c.seqs[id := c.seqs[id].(state := PREFILL)],
       running := c.running + [id], waiting := c.waiting[1..])
  }

  function Enqueue(c: Core, s: Sequence): Core {
    c.(seqs := c.seqs[c.nextId := s], waiting := c.waiting + [c.nextId], nextId := c.nextId + 1,
       log := c.log[c.nextId := []])
  }

  function Without(s: seq<int>, id: int): seq<int> {
    if s == [] then [] else if s[0] == id then s[1..] else [s[0]] + Without(s[1..], id)
  }

  function Abort(c: Core, id: int): Core
    requires id in c.seqs
  {
    c.(seqs := c.seqs - {id}, waiting := Without(c.waiting, id), running := Without(c.running, id),
       free := c.free + SetOf(c.seqs[id].pages))
  }

  /** A prefill entry of a completed round. */
  function Advance(c: Core, id: int, n: int): Core
    requires id in c.seqs && id in c.log
  {
    var s := c.seqs[id];
    var s' := s.(cursor := s.cursor + n);
    c.(seqs := c.seqs[id := if s'.RemainingPrefill() <= 0 then s'.(state := DECODE) else s'],
       log := c.log[id := c.log[id] + [Chunk(s.cursor, n)]])
  }

  /** A decode entry of a completed round. */
  function Emit(c: Core, id: int, tok: int): Core
    requires id in c.seqs
  {
    var s := c.seqs[id];
    var s' := s.(output := s.output + [tok]);
    var done := |s'.output| >= s.maxNew || (s.eos >= 0 && tok == s.eos);
    c.(seqs := c.seqs[id := if done then s'.(state := DONE) else s'])
  }

  /** A DONE sequence leaves the running list; its pages are not returned to the pool. */
  function Retire(c: Core, id: int): Core
    requires id in c.seqs
  {
    c.(seqs := c.seqs - {id}, running := Without(c.running, id),
       orphans := c.orphans + SetOf(c.seqs[id].pages))
  }

  /** The leak scan frees the pages in `stale`, whoever owns them. */
  function Reclaim(c: Core, stale: set<int>): Core {
    c.(free := c.free + stale, orphans := c.orphans - stale)
  }

  // ---- every action keeps the invariant ----

  /** Changing one sequence keeps the queues. */
  lemma QueuesUpdate(c: Core, c': Core, id: int)
    requires Queues(c) && id in c.seqs
    requires c'.seqs.Keys == c.seqs.Keys && c'.running == c.running && c'.waiting == c.waiting && c'.nextId == c.nextId
    ensures Queues(c')
  {
  }

  lemma GrantKeeps(nPages: nat, c: Core, id: int, out: seq<int>)
    requires Inv(nPages, c) && id in c.running && c.seqs[id].state in {PREFILL, DECODE}
    requires Distinct(out) && SetOf(out) <= c.free
    ensures Inv(nPages, Grant(c, id, out))
  {
    var c' := Grant(c, id, out);
    QueuesUpdate(c, c', id);
    GrantPartition(nPages, c, id, out);
  }

  lemma GrantNothing(c: Core, id: int)
    requires id in c.seqs
    ensures Grant(c, id, []) == c
  {
    var s := c.seqs[id];
    assert s.pages + [] == s.pages && SetOf([]) == {};
    assert c.seqs[id := s] == c.seqs;
  }

  lemma GrantPartition(nPages: nat, c: Core, id: int, out: seq<int>)
    requires Partition(nPages, c) && id in c.seqs
    requires Distinct(out) && SetOf(out) <= c.free
    ensures Partition(nPages, Grant(c, id, out))
  {
    var c' := Grant(c, id, out);
    assert forall p :: p in out <==> p in SetOf(out);
    assert forall jd, p :: Owns(c'.seqs, jd, p) <==> Owns(c.seqs, jd, p) || (jd == id && p in out);
    assert forall p :: p in c.seqs[id].pages ==> Owns(c.seqs, id, p);
    DistinctConcat(c.seqs[id].pages, out);
    forall p | 0 <= p < nPages ensures p in c'.free || p in c'.orphans || exists jd :: Owns(c'.seqs, jd, p) {
      if p in out {
        assert Owns(c'.seqs, id, p);
      } else if p !in c.free && p !in c.orphans {
        var jd :| Owns(c.seqs, jd, p);
        assert Owns(c'.seqs, jd, p);
      }
    }
  }

  lemma DistinctConcat(a: seq<int>, b: seq<int>)
    requires Distinct(a) && Distinct(b) && forall p :: p in a ==> p !in b
    ensures Distinct(a + b)
  {
    var t := a + b;
    assert forall i :: 0 <= i < |t| ==> t[i] == if i < |a| then a[i] else b[i - |a|];
    assert forall i :: 0 <= i < |a| ==> a[i] in a;
    assert forall i :: 0 <= i < |b| ==> b[i] in b;
  }

  /** Returning a sequence's pages and then keeping or dropping it without them. */
  lemma ReleasePartition(nPages: nat, c: Core, id: int, c': Core)
    requires Partition(nPages, c) && id in c.seqs
    requires c'.free == c.free + SetOf(c.seqs[id].pages) && c'.orphans == c.orphans
    requires forall jd :: jd != id ==> (jd in c'.seqs <==> jd in c.seqs)
    requires forall jd :: jd != id && jd in c.seqs ==> c'.seqs[jd].pages == c.seqs[jd].pages
    requires id in c'.seqs ==> c'.seqs[id].pages == []
    ensures Partition(nPages, c')
  {
    var gone := c.seqs[id].pages;
    assert forall p :: p in gone <==> Owns(c.seqs, id, p);
    assert forall jd, p :: Owns(c'.seqs, jd, p) <==> Owns(c.seqs, jd, p) && jd != id;
    forall p | 0 <= p < nPages ensures p in c'.free || p in c'.orphans || exists jd :: Owns(c'.seqs, jd, p) {
      if p !in c.free && p !in c.orphans {
        var jd :| Owns(c.seqs, jd, p);
        assert jd != id ==> Owns(c'.seqs, jd, p);
      }
    }
  }

  lemma PreemptKeeps(nPages: nat, c: Core, id: int)
    requires Inv(nPages, c) && id in c.running && c.seqs[id].state == DECODE
    ensures Inv(nPages, Preempt(c, id))
  {
    var c' := Preempt(c, id);
    QueuesUpdate(c, c', id);
    QueuesDisjoint(c);
    ReleasePartition(nPages, c, id, c');
  }

  /** Ownership does not depend on anything but the pages. */
  lemma SamePartition(nPages: nat, c: Core, c': Core)
    requires Partition(nPages, c) && c'.free == c.free && c'.orphans == c.orphans
    requires c'.seqs.Keys == c.seqs.Keys
    requires forall id :: id in c.seqs ==> c'.seqs[id].pages == c.seqs[id].pages
    ensures Partition(nPages, c')
  {
    assert forall id, p :: Owns(c'.seqs, id, p) <==> Owns(c.seqs, id, p);
  }

  /** Admission moves the oldest waiting sequence, with its first pages, to the end of the running list. */
  lemma AdmitKeeps(nPages: nat, c: Core, out: seq<int>)
    requires Inv(nPages, c) && c.waiting != [] && c.waiting[0] in c.seqs
    requires Distinct(out) && SetOf(out) <= c.free
    ensures var g := Grant(c, c.waiting[0], out);
            g.waiting[0] in g.seqs && Inv(nPages, Admit(g))
  {
    var id := c.waiting[0];
    var g := Grant(c, id, out);
    var c' := Admit(g);
    GrantPartition(nPages, c, id, out);
    SamePartition(nPages, g, c');
    hide Partition;
    AdmitQueues(c, c');
    AdmitProgress(c, c', id);
  }

  /** The front of the waiting queue goes to the end of the running list. */
  lemma AdmitQueues(c: Core, c': Core)
    requires Queues(c) && c.waiting != [] && c.waiting[0] in c.seqs
    requires c'.seqs.Keys == c.seqs.Keys && c'.nextId == c.nextId
    requires c'.running == c.running + [c.waiting[0]] && c'.waiting == c.waiting[1..]
    ensures Queues(c')
  {
    assert c.waiting == [c.waiting[0]] + c.waiting[1..];
    assert c'.running + c'.waiting == c.running + c.waiting;
    hide Ascending;
  }

  lemma AdmitProgress(c: Core, c': Core, id: int)
    requires Queues(c) && Progress(c) && c.waiting != [] && id == c.waiting[0] && id in c.seqs && c'.log == c.log
    requires c'.running == c.running + [id] && c'.waiting == c.waiting[1..] && c'.seqs.Keys == c.seqs.Keys
    requires c'.seqs[id] == c.seqs[id].(pages := c'.seqs[id].pages, state := PREFILL)
    requires forall jd :: jd in c.seqs && jd != id ==> c'.seqs[jd] == c.seqs[jd]
    ensures Progress(c')
  {
    QueuesDisjoint(c);
    assert c.waiting == [id] + c.waiting[1..];
    assert forall k :: 0 <= k < |c'.waiting| ==> c'.waiting[k] == c.waiting[k + 1];
    assert id in c.waiting && id !in c'.waiting && id !in c.running;
    assert WaitingOk(c.seqs[id], c.log[id]);
    assert Covers([], 0);
    hide Queues, Ascending, Covers;
  }

  lemma EnqueueKeeps(nPages: nat, c: Core, s: Sequence)
    requires Inv(nPages, c)
    requires s.state == WAITING && s.pages == [] && s.output == [] && s.cursor == 0
    ensures Inv(nPages, Enqueue(c, s))
  {
    var c' := Enqueue(c, s);
    assert c.nextId !in c.seqs;
    EnqueuePartition(nPages, c, s);
    EnqueueQueues(c, s);
    hide Partition, Queues;
    assert forall jd :: jd in c'.waiting <==> jd == c.nextId || jd in c.waiting;
  }

  lemma EnqueueQueues(c: Core, s: Sequence)
    requires Queues(c)
    ensures Queues(Enqueue(c, s)) && forall id :: id in c.running || id in c.waiting ==> id != c.nextId
  {
    var c' := Enqueue(c, s);
    var all := c.running + c.waiting;
    assert c'.running + c'.waiting == all + [c.nextId];
    assert forall i :: 0 <= i < |all| ==> all[i] in all && (all[i] in c.running || all[i] in c.waiting);
    assert forall jd :: jd in c'.waiting <==> jd == c.nextId || jd in c.waiting;
  }

  lemma EnqueuePartition(nPages: nat, c: Core, s: Sequence)
    requires Partition(nPages, c) && c.nextId !in c.seqs && s.pages == []
    ensures Partition(nPages, Enqueue(c, s))
  {
    var c' := Enqueue(c, s);
    assert forall id, p :: Owns(c'.seqs, id, p) <==> Owns(c.seqs, id, p);
    forall p | 0 <= p < nPages ensures p in c'.free || p in c'.orphans || exists jd :: Owns(c'.seqs, jd, p) {
      if p !in c.free && p !in c.orphans {
        var jd :| Owns(c.seqs, jd, p);
        assert Owns(c'.seqs, jd, p);
      }
    }
  }

  lemma {:induction false} WithoutMembers(s: seq<int>, id: int, jd: int)
    requires Ascending(s)
    ensures jd in Without(s, id) <==> jd in s && jd != id
    decreases |s|
  {
    if s != [] {
      var t := s[1..];
      assert s == [s[0]] + t;
      assert forall i :: 0 <= i < |t| ==> t[i] == s[i + 1];
      if s[0] != id { WithoutMembers(t, id, jd); }
    }
  }

  /** Removing an id from the queues removes nothing else. */
  lemma WithoutQueued(nPages: nat, c: Core, id: int)
    requires Inv(nPages, c)
    ensures forall jd :: jd in Without(c.waiting, id) <==> jd in c.waiting && jd != id
    ensures forall jd :: jd in Without(c.running, id) <==> jd in c.running && jd != id
  {
    QueuesDisjoint(c);
    forall jd
      ensures jd in Without(c.waiting, id) <==> jd in c.waiting && jd != id
      ensures jd in Without(c.running, id) <==> jd in c.running && jd != id
    {
      WithoutMembers(c.waiting, id, jd);
      WithoutMembers(c.running, id, jd);
    }
  }

  lemma {:induction false} WithoutAscending(s: seq<int>, id: int)
    requires Ascending(s)
    ensures Ascending(Without(s, id))
    decreases |s|
  {
    if s != [] {
      var t := s[1..];
      assert forall i :: 0 <= i < |t| ==> t[i] == s[i + 1];
      if s[0] != id {
        WithoutAscending(t, id);
        var w := Without(t, id);
        forall i | 0 <= i < |w| ensures s[0] < w[i] {
          WithoutMembers(t, id, w[i]);
        }
      }
    }
  }

  lemma WithoutProps(s: seq<int>, id: int)
    requires Ascending(s)
    ensures Ascending(Without(s, id))
    ensures forall jd :: jd in Without(s, id) <==> jd in s && jd != id
  {
    WithoutAscending(s, id);
    forall jd ensures jd in Without(s, id) <==> jd in s && jd != id {
      WithoutMembers(s, id, jd);
    }
  }

  /** Removing one id keeps the queues. */
  lemma RemoveQueues(c: Core, c': Core, id: int)
    requires Queues(c) && id in c.seqs
    requires c'.seqs.Keys == c.seqs.Keys - {id} && c'.nextId == c.nextId
    requires c'.waiting == Without(c.waiting, id) && c'.running == Without(c.running, id)
    ensures Queues(c')
    ensures forall jd :: jd in c'.running <==> jd in c.running && jd != id
    ensures forall jd :: jd in c'.waiting <==> jd in c.waiting && jd != id
  {
    QueuesDisjoint(c);
    WithoutProps(c.running, id);
    WithoutProps(c.waiting, id);
    var r, w := c'.running, c'.waiting;
    forall x, y | x in r && y in w ensures x < y {
      assert x in c.running && y in c.waiting;
    }
    AscendingJoin(r, w);
    hide Ascending, Without;
  }

  lemma AscendingJoin(r: seq<int>, w: seq<int>)
    requires Ascending(r) && Ascending(w) && forall x, y :: x in r && y in w ==> x < y
    ensures Ascending(r + w)
  {
    var all := r + w;
    forall i, j | 0 <= i < j < |all| ensures all[i] < all[j] {
      if i < |r| <= j { assert all[i] in r && all[j] in w; }
    }
  }

  lemma AbortKeeps(nPages: nat, c: Core, id: int)
    requires Inv(nPages, c) && id in c.seqs
    ensures Inv(nPages, Abort(c, id))
    ensures forall jd :: jd in Abort(c, id).running <==> jd in c.running && jd != id
  {
    RemoveQueues(c, Abort(c, id), id);
    ReleasePartition(nPages, c, id, Abort(c, id));
  }

  lemma AdvanceKeeps(nPages: nat, c: Core, id: int, n: int)
    requires Inv(nPages, c) && id in c.running && c.seqs[id].state == PREFILL
    requires 0 < n <= c.seqs[id].RemainingPrefill()
    ensures Inv(nPages, Advance(c, id, n))
  {
    var c' := Advance(c, id, n);
    QueuesUpdate(c, c', id);
    QueuesDisjoint(c);
    SamePartition(nPages, c, c');
    var log := c.log[id];
    assert c'.log[id][..|log|] == log;
    assert Covers(c'.log[id], c.seqs[id].cursor + n);
  }

  lemma EmitKeeps(nPages: nat, c: Core, id: int, tok: int)
    requires Inv(nPages, c) && id in c.running && c.seqs[id].state == DECODE
    ensures Inv(nPages, Emit(c, id, tok))
  {
    var c' := Emit(c, id, tok);
    QueuesUpdate(c, c', id);
    QueuesDisjoint(c);
    SamePartition(nPages, c, c');
  }

  lemma RetireKeeps(nPages: nat, c: Core, id: int)
    requires Inv(nPages, c) && id in c.running && c.seqs[id].state == DONE
    ensures Inv(nPages, Retire(c, id))
    ensures forall jd :: jd in Retire(c, id).running <==> jd in c.running && jd != id
  {
    var c' := Retire(c, id);
    QueuesDisjoint(c);
    WithoutProps(c.waiting, id);
    WithoutSame(c.waiting, id);
    RemoveQueues(c, c', id);
    var gone := c.seqs[id].pages;
    assert forall p :: p in gone <==> Owns(c.seqs, id, p);
    assert forall jd, p :: Owns(c'.seqs, jd, p) <==> Owns(c.seqs, jd, p) && jd != id;
    forall p | 0 <= p < nPages ensures p in c'.free || p in c'.orphans || exists jd :: Owns(c'.seqs, jd, p) {
      if p !in c.free && p !in c.orphans {
        var jd :| Owns(c.seqs, jd, p);
        assert jd != id ==> Owns(c'.seqs, jd, p);
      }
    }
  }

  lemma {:induction false} WithoutSame(s: seq<int>, id: int)
    requires id !in s
    ensures Without(s, id) == s
    decreases |s|
  {
    if s != [] {
      WithoutSame(s[1..], id);
      assert s == [s[0]] + s[1..];
    }
  }

  /** The leak scan keeps every page in one place if and only if it frees no live sequence's page. */
  lemma ReclaimKeepsIff(nPages: nat, c: Core, stale: set<int>)
    requires Inv(nPages, c)
    requires forall p :: p in stale ==> 0 <= p < nPages
    ensures Inv(nPages, Reclaim(c, stale)) <==> forall id, p :: Owns(c.seqs, id, p) ==> p !in stale
  {
    var c' := Reclaim(c, stale);
    if forall id, p :: Owns(c.seqs, id, p) ==> p !in stale {
      forall p | 0 <= p < nPages ensures p in c'.free || p in c'.orphans || exists jd :: Owns(c'.seqs, jd, p) {
        if p !in c.free && p !in c.orphans {
          var jd :| Owns(c.seqs, jd, p);
          assert Owns(c'.seqs, jd, p);
        }
      }
    } else {
      var id, p :| Owns(c.seqs, id, p) && p in stale;
      assert Owns(c'.seqs, id, p) && p in c'.free;
    }
  }

  // ---- remaining work ----

  /** Tokens a running sequence can still consume; a preempted or finished one consumes none. */
  function Work(s: Sequence): int {
    match s.state
    case PREFILL => s.RemainingPrefill() + Limit(s)
    case DECODE => Limit(s) - |s.output|
    case _ => 0
  }

  function RequestWork(s: Sequence): int { |s.prompt| + Limit(s) }

  /** The sum of a measure over the listed sequences. */
  function Sum(f: Sequence -> int, ids: seq<int>, m: map<int, Sequence>): int
    requires forall id :: id in ids ==> id in m
  {
    if ids == [] then 0 else
      var id := ids[0];
      assert id in ids;
      f(m[id]) + Sum(f, ids[1..], m)
  }

  /** Tokens the scheduler can still consume on behalf of the requests it holds. */
  function TotalWork(c: Core): int
    requires forall id :: id in c.running || id in c.waiting ==> id in c.seqs
  {
    Sum(Work, c.running, c.seqs) + Sum(RequestWork, c.waiting, c.seqs)
  }

  lemma {:induction false} SumSame(f: Sequence -> int, ids: seq<int>, m: map<int, Sequence>, m': map<int, Sequence>)
    requires forall id :: id in ids ==> id in m && id in m' && f(m'[id]) == f(m[id])
    ensures Sum(f, ids, m') == Sum(f, ids, m)
    decreases |ids|
  {
    if ids != [] {
      var id := ids[0];
      assert id in ids;
      SumSame(f, ids[1..], m, m');
    }
  }

  lemma {:induction false} SumAppend(f: Sequence -> int, ids: seq<int>, m: map<int, Sequence>, id: int)
    requires forall jd :: jd in ids ==> jd in m
    requires id in m
    ensures Sum(f, ids + [id], m) == Sum(f, ids, m) + f(m[id])
    decreases |ids|
  {
    if ids == [] {
      assert [] + [id] == [id] && [id][1..] == [];
    } else {
      assert (ids + [id])[1..] == ids[1..] + [id];
      SumAppend(f, ids[1..], m, id);
    }
  }

  /** Changing one listed sequence changes the sum by its own difference. */
  lemma {:induction false} SumUpdate(f: Sequence -> int, ids: seq<int>, m: map<int, Sequence>, id: int, s: Sequence)
    requires Ascending(ids) && id in ids && forall jd :: jd in ids ==> jd in m
    ensures Sum(f, ids, m[id := s]) == Sum(f, ids, m) - f(m[id]) + f(s)
    decreases |ids|
  {
    assert ids == [ids[0]] + ids[1..];
    assert forall i :: 0 <= i < |ids| - 1 ==> ids[1..][i] == ids[i + 1];
    if ids[0] == id {
      assert id !in ids[1..];
      SumSame(f, ids[1..], m, m[id := s]);
    } else {
      SumUpdate(f, ids[1..], m, id, s);
    }
  }

  lemma {:induction false} SumWithout(f: Sequence -> int, ids: seq<int>, m: map<int, Sequence>, id: int)
    requires forall jd :: jd in ids ==> jd in m
    ensures forall jd :: jd in Without(ids, id) ==> jd in m
    ensures Sum(f, Without(ids, id), m) == Sum(f, ids, m) - if id in ids then f(m[id]) else 0
    decreases |ids|
  {
    if ids != [] && ids[0] != id {
      SumWithout(f, ids[1..], m, id);
      var w := Without(ids[1..], id);
      assert ([ids[0]] + w)[1..] == w;
    }
  }

  /** One running sequence changes: the total changes by its own difference. */
  lemma UpdateWork(c: Core, c': Core, id: int)
    requires Queues(c) && id in c.running && id in c'.seqs
    requires c'.running == c.running && c'.waiting == c.waiting && c'.seqs == c.seqs[id := c'.seqs[id]]
    ensures TotalWork(c') == TotalWork(c) - Work(c.seqs[id]) + Work(c'.seqs[id])
  {
    QueuesDisjoint(c);
    SumUpdate(Work, c.running, c.seqs, id, c'.seqs[id]);
    SumSame(RequestWork, c.waiting, c.seqs, c'.seqs);
  }

  /** Admission does not change the remaining work. */
  lemma AdmitWork(nPages: nat, c: Core, out: seq<int>)
    requires Inv(nPages, c) && c.waiting != [] && c.waiting[0] in c.seqs
    requires Queues(Admit(Grant(c, c.waiting[0], out)))
    ensures TotalWork(Admit(Grant(c, c.waiting[0], out))) == TotalWork(c)
  {
    var id := c.waiting[0];
    assert id in c.waiting;
    var c' := Admit(Grant(c, id, out));
    QueuesDisjoint(c);
    assert WaitingOk(c.seqs[id], c.log[id]);
    assert forall jd :: jd in c.waiting[1..] ==> jd in c.waiting && jd != id;
    assert forall jd :: jd in c.running || jd in c.waiting ==> jd in c.seqs;
    hide Inv, Queues, Ascending;
    SumSame(Work, c.running, c.seqs, c'.seqs);
    SumAppend(Work, c.running, c'.seqs, id);
    SumSame(RequestWork, c.waiting[1..], c.seqs, c'.seqs);
  }

  /** A new request brings its own work. */
  lemma EnqueueWork(c: Core, s: Sequence)
    requires Queues(c) && Queues(Enqueue(c, s))
    ensures TotalWork(Enqueue(c, s)) == TotalWork(c) + RequestWork(s)
  {
    var c' := Enqueue(c, s);
    SumSame(Work, c.running, c.seqs, c'.seqs);
    SumSame(RequestWork, c.waiting, c.seqs, c'.seqs);
    SumAppend(RequestWork, c.waiting, c'.seqs, c.nextId);
  }

  /** Removing a sequence never adds work. */
  lemma RemoveWork(nPages: nat, c: Core, c': Core, id: int)
    requires Inv(nPages, c) && Queues(c') && id in c.seqs
    requires c'.seqs == c.seqs - {id}
    requires c'.waiting == Without(c.waiting, id) && c'.running == Without(c.running, id)
    ensures TotalWork(c') <= TotalWork(c)
  {
    QueuesDisjoint(c);
    SumWithout(Work, c.running, c.seqs, id);
    SumWithout(RequestWork, c.waiting, c.seqs, id);
    assert id in c.running ==> RunningOk(c.seqs[id], c.log[id]);
    WithoutProps(c.running, id);
    WithoutProps(c.waiting, id);
    SumSame(Work, c'.running, c.seqs, c'.seqs);
    SumSame(RequestWork, c'.waiting, c.seqs, c'.seqs);
  }

  lemma {:induction false} SumNonNegative(f: Sequence -> int, ids: seq<int>, m: map<int, Sequence>)
    requires forall id :: id in ids ==> id in m && f(m[id]) >= 0
    ensures Sum(f, ids, m) >= 0
    decreases |ids|
  {
    if ids != [] {
      var id := ids[0];
      assert id in ids;
      SumNonNegative(f, ids[1..], m);
    }
  }

  lemma WorkNonNegative(nPages: nat, c: Core)
    requires Inv(nPages, c)
    ensures TotalWork(c) >= 0
  {
    forall id | id in c.running ensures Work(c.seqs[id]) >= 0 {
      assert RunningOk(c.seqs[id], c.log[id]);
    }
    SumNonNegative(Work, c.running, c.seqs);
    SumNonNegative(RequestWork, c.waiting, c.seqs);
  }
}
