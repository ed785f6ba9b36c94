/**
 The lock-free pop and push of `PagePoolFast` as a state machine over single atomic accesses, with
 any number of threads in any interleaving (sequentially consistent).

 A heads entry carries no version tag, so a pop whose snapshotted top was popped and pushed back in
 the meantime may install a stale successor.  `stale` is a history variable recording exactly those
 threads; no step reads it.
 */
module PoolConcurrent {
  import opened DistinctSeqs
  import opened FreeStack

  /** Where a thread is inside `alloc` (Pop*) or `free_pages` (Push*). */
  datatype Pc =
    | Idle
    | PopTop(s: nat, top: int)
    | PopNext(s: nat, top: int, nxt: int)
    | PushTop(id: int, top: int)
    | PushReady(id: int, top: int)

  datatype Thread = Thread(pc: Pc, hand: set<int>)

  datatype State = State(heads: seq<int>, next: seq<int>, shard: seq<nat>, threads: seq<Thread>, stale: set<nat>)

  datatype Action =
    | LoadHead(t: nat, s: nat)
    | LoadNext(t: nat)
    | PopCas(t: nat, spurious: bool)
    | StartPush(t: nat, id: int)
    | StoreNext(t: nat)
    | PushCas(t: nat, spurious: bool)

  /** The pop's snapshot, if the thread is between its head load and its compare-exchange. */
  predicate Snapshots(th: Thread, p: int) {
    (th.pc.PopTop? || th.pc.PopNext?) && th.pc.top == p
  }

  predicate Enabled(st: State, a: Action) {
    && |st.shard| == |st.next|
    && (forall p :: 0 <= p < |st.shard| ==> st.shard[p] < |st.heads|)
    && a.t < |st.threads|
    && var th := st.threads[a.t];
       match a
       case LoadHead(_, s) => th.pc.Idle? && s < |st.heads|
       case LoadNext(_) => th.pc.PopTop? && 0 <= th.pc.top < |st.next|
       case PopCas(_, _) => th.pc.PopNext? && th.pc.s < |st.heads|
       case StartPush(_, id) => th.pc.Idle? && id in th.hand && 0 <= id < |st.next|
       case StoreNext(_) => th.pc.PushTop? && 0 <= th.pc.id < |st.next|
       case PushCas(_, _) => th.pc.PushReady? && 0 <= th.pc.id < |st.next|
  }

  /** A compare-exchange writes exactly when it does not fail spuriously and the head is as expected. */
  predicate CasWins(st: State, a: Action)
    requires Enabled(st, a)
  {
    var pc := st.threads[a.t].pc;
    match a
    case PopCas(_, spurious) => !spurious && st.heads[pc.s] == pc.top
    case PushCas(_, spurious) => !spurious && st.heads[st.shard[pc.id]] == pc.top
    case _ => false
  }

  function Goto(st: State, t: nat, pc: Pc): State
    requires t < |st.threads|
  {
    st.(threads := st.threads[t := st.threads[t].(pc := pc)])
  }

  function Exec(st: State, a: Action): State
    requires Enabled(st, a)
  {
    var th := st.threads[a.t];
    match a
    case LoadHead(t, s) =>
      var top := st.heads[s];
      Goto(st, t, if top == NIL then Idle else PopTop(s, top)).(stale := st.stale - {t})
    case LoadNext(t) =>
      Goto(st, t, PopNext(th.pc.s, th.pc.top, st.next[th.pc.top]))
    case PopCas(t, _) =>
      var s := th.pc.s;
      if CasWins(st, a) then
        st.(heads := st.heads[s := th.pc.nxt],
            threads := st.threads[t := Thread(Idle, th.hand + {th.pc.top})],
            stale := st.stale - {t})
      else
        // a failed compare-exchange reloads `top` from the head
        var top := st.heads[s];
        Goto(st, t, if top == NIL then Idle else PopTop(s, top)).(stale := st.stale - {t})
    case StartPush(t, id) =>
      Goto(st, t, PushTop(id, st.heads[st.shard[id]]))
    case StoreNext(t) =>
      Goto(st, t, PushReady(th.pc.id, th.pc.top)).(next := st.next[th.pc.id := th.pc.top])
    case PushCas(t, _) =>
      var id := th.pc.id;
      var s := st.shard[id];
      if CasWins(st, a) then
        st.(heads := st.heads[s := id],
            threads := st.threads[t := Thread(Idle, th.hand - {id})],
            stale := st.stale + set u | 0 <= u < |st.threads| && Snapshots(st.threads[u], id))
      else
        Goto(st, t, PushTop(id, st.heads[s]))
  }

  ghost predicate Legal(st: State, run: seq<Action>)
    decreases |run|
  {
    run == [] || (Enabled(st, run[0]) && Legal(Exec(st, run[0]), run[1..]))
  }

  ghost function After(st: State, run: seq<Action>): State
    requires Legal(st, run)
    decreases |run|
  {
    if run == [] then st else After(Exec(st, run[0]), run[1..])
  }

  /** The hypothesis: no pop wins its compare-exchange after its snapshot was recycled. */
  ghost predicate NoRecycledPop(st: State, run: seq<Action>)
    requires Legal(st, run)
    decreases |run|
  {
    run != [] ==>
      && !(run[0].PopCas? && CasWins(st, run[0]) && run[0].t in st.stale)
      && NoRecycledPop(Exec(st, run[0]), run[1..])
  }

  // ---- the invariant ----

  ghost predicate Holds(st: State, t: int, p: int) {
    0 <= t < |st.threads| && p in st.threads[t].hand
  }

  ghost predicate Stacked(st: State, stacks: seq<seq<int>>, p: int)
    requires Shards(st.heads, st.next, st.shard, stacks)
  {
    0 <= p < |st.next| && p in stacks[st.shard[p]]
  }

  /** Every page is in exactly one place: its shard's stack or one thread's hands. */
  ghost predicate Exclusive(st: State, stacks: seq<seq<int>>)
    requires Shards(st.heads, st.next, st.shard, stacks)
  {
    && (forall t, p :: Holds(st, t, p) ==> 0 <= p < |st.next| && !Stacked(st, stacks, p))
    && (forall t, u, p :: Holds(st, t, p) && Holds(st, u, p) ==> t == u)
    && (forall p :: 0 <= p < |st.next| ==> Stacked(st, stacks, p) || exists t :: Holds(st, t, p))
  }

  /** What a thread knows between two of its steps. */
  ghost predicate ThreadOk(st: State, stacks: seq<seq<int>>, t: nat)
    requires Shards(st.heads, st.next, st.shard, stacks) && t < |st.threads|
  {
    match st.threads[t].pc
    case Idle => true
    case PopTop(s, top) => s < |st.heads| && 0 <= top < |st.next| && st.shard[top] == s
    case PopNext(s, top, nxt) =>
      && s < |st.heads| && 0 <= top < |st.next| && st.shard[top] == s
      && (t !in st.stale && top in stacks[s] ==> nxt == st.next[top])
    case PushTop(id, _) => Holds(st, t, id)
    case PushReady(id, top) => Holds(st, t, id) && 0 <= id < |st.next| && st.next[id] == top
  }

  ghost predicate Inv(st: State, stacks: seq<seq<int>>) {
    && Shards(st.heads, st.next, st.shard, stacks)
    && Exclusive(st, stacks)
    && forall t :: 0 <= t < |st.threads| ==> ThreadOk(st, stacks, t)
  }

  /** What callers rely on: acyclic stacks and exclusive ownership. */
  ghost predicate Safe(st: State, stacks: seq<seq<int>>) {
    && Shards(st.heads, st.next, st.shard, stacks)
    && (forall s :: 0 <= s < |stacks| ==> Distinct(stacks[s]))
    && Exclusive(st, stacks)
  }

  lemma TopOfStack(st: State, stacks: seq<seq<int>>, s: nat)
    requires Shards(st.heads, st.next, st.shard, stacks) && s < |st.heads| && st.heads[s] != NIL
    ensures stacks[s] != [] && stacks[s][0] == st.heads[s]
    ensures 0 <= st.heads[s] < |st.next| && st.shard[st.heads[s]] == s
    ensures Linked(st.next[st.heads[s]], st.next, stacks[s][1..])
    ensures st.heads[s] !in stacks[s][1..]
  {
    assert Linked(st.heads[s], st.next, stacks[s]);
    assert st.heads[s] in stacks[s];
    LinkedDistinct(st.heads[s], st.next, stacks[s]);
  }

  /** A page in a hand is on no stack. */
  lemma HandNotStacked(st: State, stacks: seq<seq<int>>, t: nat, p: int)
    requires Shards(st.heads, st.next, st.shard, stacks) && Exclusive(st, stacks)
    requires Holds(st, t, p)
    ensures forall s :: 0 <= s < |stacks| ==> p !in stacks[s]
  {
    assert !Stacked(st, stacks, p);
  }

  /** The steps that touch no head and no link. */
  lemma LocalStep(st: State, stacks: seq<seq<int>>, a: Action)
    requires Inv(st, stacks) && Enabled(st, a)
    requires !a.StoreNext? && !CasWins(st, a)
    ensures Inv(Exec(st, a), stacks)
  {
    LocalFrame(st, a);
    var st' := Exec(st, a);
    assert forall u, p :: Holds(st', u, p) == Holds(st, u, p);
    assert forall p :: Stacked(st', stacks, p) == Stacked(st, stacks, p);
    forall u | 0 <= u < |st'.threads| ensures ThreadOk(st', stacks, u) {
      if u == a.t { LocalMoved(st, stacks, a); } else { LocalOther(st, stacks, a, u); }
    }
    hide ThreadOk, Exec, Enabled, CasWins;
  }

  lemma LocalFrame(st: State, a: Action)
    requires Enabled(st, a) && !a.StoreNext? && !CasWins(st, a)
    ensures var st' := Exec(st, a);
            && st'.heads == st.heads && st'.next == st.next && st'.shard == st.shard && |st'.threads| == |st.threads|
            && (forall u :: 0 <= u < |st.threads| ==> st'.threads[u].hand == st.threads[u].hand)
            && (forall u :: 0 <= u < |st.threads| && u != a.t ==>
                  st'.threads[u] == st.threads[u] && (u in st'.stale <==> u in st.stale))
  {
  }

  lemma LocalOther(st: State, stacks: seq<seq<int>>, a: Action, u: nat)
    requires Inv(st, stacks) && Enabled(st, a) && !a.StoreNext? && !CasWins(st, a) && u < |st.threads| && u != a.t
    ensures Shards(Exec(st, a).heads, Exec(st, a).next, Exec(st, a).shard, stacks) && u < |Exec(st, a).threads|
    ensures ThreadOk(Exec(st, a), stacks, u)
  {
    LocalFrame(st, a);
    hide Exec, Enabled, CasWins, Shards, Exclusive;
    assert ThreadOk(st, stacks, u);
  }

  lemma LocalMoved(st: State, stacks: seq<seq<int>>, a: Action)
    requires Inv(st, stacks) && Enabled(st, a) && !a.StoreNext? && !CasWins(st, a)
    ensures Shards(Exec(st, a).heads, Exec(st, a).next, Exec(st, a).shard, stacks) && a.t < |Exec(st, a).threads|
    ensures ThreadOk(Exec(st, a), stacks, a.t)
  {
    LocalFrame(st, a);
    assert ThreadOk(st, stacks, a.t);
    match a {
      case LoadHead(t, s) => if st.heads[s] != NIL { TopOfStack(st, stacks, s); }
      case PopCas(t, _) =>
        var s := st.threads[t].pc.s;
        if st.heads[s] != NIL { TopOfStack(st, stacks, s); }
      case _ =>
    }
    hide Shards, Exclusive;
  }

  lemma StoreNextStep(st: State, stacks: seq<seq<int>>, a: Action)
    requires Inv(st, stacks) && Enabled(st, a) && a.StoreNext?
    ensures Inv(Exec(st, a), stacks)
  {
    var st' := Exec(st, a);
    var th := st.threads[a.t];
    assert ThreadOk(st, stacks, a.t);
    var id := th.pc.id;
    HandNotStacked(st, stacks, a.t, id);
    forall s | 0 <= s < |st.heads| ensures Linked(st'.heads[s], st'.next, stacks[s]) {
      LinkedFrame(st.heads[s], st.next, stacks[s], id, th.pc.top);
    }
    assert forall u, p :: Holds(st', u, p) == Holds(st, u, p);
    assert forall p :: Stacked(st', stacks, p) == Stacked(st, stacks, p);
    forall u | 0 <= u < |st'.threads| ensures ThreadOk(st', stacks, u) {
      assert ThreadOk(st, stacks, u);
    }
  }

  /** A pop that installs the current successor of the top removes the top and nothing else. */
  lemma PopStep(st: State, stacks: seq<seq<int>>, a: Action)
    requires Inv(st, stacks) && Enabled(st, a) && a.PopCas? && CasWins(st, a)
    requires 0 <= st.threads[a.t].pc.top < |st.next|
    requires st.threads[a.t].pc.nxt == st.next[st.threads[a.t].pc.top]
    ensures var s := st.threads[a.t].pc.s;
            stacks[s] != [] && Inv(Exec(st, a), stacks[s := stacks[s][1..]])
  {
    var st' := Exec(st, a);
    var pc := st.threads[a.t].pc;
    assert ThreadOk(st, stacks, a.t);
    TopOfStack(st, stacks, pc.s);
    var stacks' := stacks[pc.s := stacks[pc.s][1..]];
    assert forall p :: p in stacks[pc.s] <==> p == pc.top || p in stacks'[pc.s];
    forall r | 0 <= r < |st'.heads| ensures Linked(st'.heads[r], st'.next, stacks'[r]) {
      assert r != pc.s ==> Linked(st.heads[r], st.next, stacks[r]);
    }
    assert Shards(st'.heads, st'.next, st'.shard, stacks');
    assert forall p :: Stacked(st', stacks', p) == (Stacked(st, stacks, p) && p != pc.top);
    assert forall u, p :: Holds(st', u, p) == (Holds(st, u, p) || (u == a.t && p == pc.top));
    assert Stacked(st, stacks, pc.top);
    forall p | 0 <= p < |st'.next| ensures Stacked(st', stacks', p) || exists u :: Holds(st', u, p) {
      if p == pc.top {
        assert Holds(st', a.t, p);
      } else if !Stacked(st, stacks, p) {
        var u :| Holds(st, u, p);
        assert Holds(st', u, p);
      }
    }
    forall u | 0 <= u < |st'.threads| ensures ThreadOk(st', stacks', u) {
      assert ThreadOk(st, stacks, u);
    }
  }

  lemma PushStep(st: State, stacks: seq<seq<int>>, a: Action)
    requires Inv(st, stacks) && Enabled(st, a) && a.PushCas? && CasWins(st, a)
    ensures var id := st.threads[a.t].pc.id;
            var s := st.shard[id];
            Inv(Exec(st, a), stacks[s := [id] + stacks[s]])
  {
    var st' := Exec(st, a);
    var id := st.threads[a.t].pc.id;
    var s := st.shard[id];
    assert ThreadOk(st, stacks, a.t);
    HandNotStacked(st, stacks, a.t, id);
    var stacks' := stacks[s := [id] + stacks[s]];
    LinkedPush(st.heads[s], st.next, stacks[s], id);
    assert st.next[id := st.heads[s]] == st.next;
    assert forall p :: p in stacks'[s] <==> p == id || p in stacks[s];
    forall r | 0 <= r < |st'.heads| ensures Linked(st'.heads[r], st'.next, stacks'[r]) {
      assert r != s ==> Linked(st.heads[r], st.next, stacks[r]);
    }
    assert Shards(st'.heads, st'.next, st'.shard, stacks');
    assert forall p :: Stacked(st', stacks', p) == (Stacked(st, stacks, p) || p == id);
    assert forall u, p :: Holds(st', u, p) == (Holds(st, u, p) && !(u == a.t && p == id));
    forall p | 0 <= p < |st'.next| ensures Stacked(st', stacks', p) || exists u :: Holds(st', u, p) {
      if p != id && !Stacked(st, stacks, p) {
        var u :| Holds(st, u, p);
        assert Holds(st', u, p);
      }
    }
    forall u | 0 <= u < |st'.threads| ensures ThreadOk(st', stacks', u) {
      assert ThreadOk(st, stacks, u);
    }
  }

  /** If the action is a winning pop, the successor it read is the page's successor now. */
  predicate Current(st: State, a: Action)
    requires Enabled(st, a)
  {
    a.PopCas? && CasWins(st, a) ==>
      var pc := st.threads[a.t].pc; 0 <= pc.top < |st.next| && pc.nxt == st.next[pc.top]
  }

  /** A pop that was not recycled is current. */
  lemma UnrecycledIsCurrent(st: State, stacks: seq<seq<int>>, a: Action)
    requires Inv(st, stacks) && Enabled(st, a) && !(a.PopCas? && CasWins(st, a) && a.t in st.stale)
    ensures Current(st, a)
  {
    if a.PopCas? && CasWins(st, a) {
      assert ThreadOk(st, stacks, a.t);
      TopOfStack(st, stacks, st.threads[a.t].pc.s);
    }
  }

  lemma Step(st: State, stacks: seq<seq<int>>, a: Action) returns (stacks': seq<seq<int>>)
    requires Inv(st, stacks) && Enabled(st, a) && Current(st, a)
    ensures Inv(Exec(st, a), stacks')
  {
    if a.StoreNext? {
      StoreNextStep(st, stacks, a);
      stacks' := stacks;
    } else if !CasWins(st, a) {
      LocalStep(st, stacks, a);
      stacks' := stacks;
    } else if a.PopCas? {
      var pc := st.threads[a.t].pc;
      PopStep(st, stacks, a);
      stacks' := stacks[pc.s := stacks[pc.s][1..]];
    } else {
      PushStep(st, stacks, a);
      var id := st.threads[a.t].pc.id;
      stacks' := stacks[st.shard[id] := [id] + stacks[st.shard[id]]];
    }
  }

  lemma InvIsSafe(st: State, stacks: seq<seq<int>>)
    requires Inv(st, stacks)
    ensures Safe(st, stacks)
  {
    forall s | 0 <= s < |stacks| ensures Distinct(stacks[s]) {
      LinkedDistinct(st.heads[s], st.next, stacks[s]);
    }
  }

  // ---- exactly when a winning pop is safe ----

  /** A winning pop leaves some well-formed pool if and only if the successor it read is still current. */
  lemma PopSafeIff(st: State, stacks: seq<seq<int>>, a: Action)
    requires Inv(st, stacks) && Enabled(st, a) && a.PopCas? && CasWins(st, a)
    ensures var pc := st.threads[a.t].pc;
            0 <= pc.top < |st.next| &&
            ((exists stacks' :: Safe(Exec(st, a), stacks')) <==> pc.nxt == st.next[pc.top])
  {
    var pc := st.threads[a.t].pc;
    var st' := Exec(st, a);
    assert ThreadOk(st, stacks, a.t);
    TopOfStack(st, stacks, pc.s);
    if pc.nxt == st.next[pc.top] {
      PopStep(st, stacks, a);
      InvIsSafe(st', stacks[pc.s := stacks[pc.s][1..]]);
    }
    forall stacks' | Safe(st', stacks') ensures pc.nxt == st.next[pc.top] {
      StaleSuccessorRefuted(st, stacks, a, stacks');
    }
  }

  lemma StaleSuccessorRefuted(st: State, stacks: seq<seq<int>>, a: Action, stacks': seq<seq<int>>)
    requires Inv(st, stacks) && Enabled(st, a) && a.PopCas? && CasWins(st, a)
    requires Safe(Exec(st, a), stacks')
    ensures var pc := st.threads[a.t].pc; 0 <= pc.top < |st.next| && pc.nxt == st.next[pc.top]
  {
    var pc := st.threads[a.t].pc;
    var st' := Exec(st, a);
    assert ThreadOk(st, stacks, a.t);
    TopOfStack(st, stacks, pc.s);
    var rest, new_ := stacks[pc.s][1..], stacks'[pc.s];
    assert Linked(pc.nxt, st.next, new_);
    // the popped page is now in a hand, so the stack holds exactly the other pages
    if rest == [] {
      if new_ != [] { SamePages(st, stacks, a, stacks', new_[0]); }
    } else {
      SamePages(st, stacks, a, stacks', rest[0]);
      var k :| 0 <= k < |new_| && new_[k] == rest[0];
      SamePages(st, stacks, a, stacks', new_[0]);
      var j :| 0 <= j < |rest| && rest[j] == new_[0];
      LinkedSuffix(st.next[pc.top], st.next, rest, j);
      LinkedUnique(pc.nxt, st.next, new_, rest[j..]);
      assert rest[0] == rest[j + k];
      LinkedDistinct(st.next[pc.top], st.next, rest);
    }
  }

  lemma SamePages(st: State, stacks: seq<seq<int>>, a: Action, stacks': seq<seq<int>>, p: int)
    requires Inv(st, stacks) && Enabled(st, a) && a.PopCas? && CasWins(st, a)
    requires Safe(Exec(st, a), stacks')
    ensures var s := st.threads[a.t].pc.s; stacks[s] != [] && (p in stacks'[s] <==> p in stacks[s][1..])
  {
    var pc := st.threads[a.t].pc;
    var st' := Exec(st, a);
    assert ThreadOk(st, stacks, a.t);
    TopOfStack(st, stacks, pc.s);
    assert forall q :: q in stacks[pc.s] <==> q == pc.top || q in stacks[pc.s][1..];
    // the hands are unchanged except that the popping thread now holds the top
    assert forall u, q :: Holds(st', u, q) == (Holds(st, u, q) || (u == a.t && q == pc.top));
    assert Holds(st', a.t, pc.top);
    assert p in stacks[pc.s] <==> Stacked(st, stacks, p) && st.shard[p] == pc.s;
    assert p in stacks'[pc.s] <==> Stacked(st', stacks', p) && st.shard[p] == pc.s;
    assert p in stacks[pc.s][1..] ==> p != pc.top;
  }

  // ---- whole runs ----

  ghost predicate Described(st: State) { exists stacks :: Safe(st, stacks) }

  /** Every state of the run is a well-formed pool with exclusive ownership. */
  ghost predicate AlwaysDescribed(st: State, run: seq<Action>)
    requires Legal(st, run)
    decreases |run|
  {
    Described(st) && (run != [] ==> AlwaysDescribed(Exec(st, run[0]), run[1..]))
  }

  /** A thread left alone takes the top page of a stack, as the sequential pool does. */
  lemma SoloPop(st: State, stacks: seq<seq<int>>, t: nat, s: nat)
    requires Inv(st, stacks) && t < |st.threads| && st.threads[t].pc.Idle? && s < |st.heads| && stacks[s] != []
    ensures var run := [LoadHead(t, s), LoadNext(t), PopCas(t, false)];
            && Legal(st, run)
            && var st' := After(st, run);
               && 0 <= st.heads[s] < |st.next| && st'.heads == st.heads[s := st.next[st.heads[s]]]
               && st'.next == st.next && st'.shard == st.shard
               && st'.threads == st.threads[t := Thread(Idle, st.threads[t].hand + {stacks[s][0]})]
  {
    assert Linked(st.heads[s], st.next, stacks[s]);
    TopOfStack(st, stacks, s);
    var st1 := Exec(st, LoadHead(t, s));
    var st2 := Exec(st1, LoadNext(t));
    hide Inv, Linked;
    ThreeSteps(st, LoadHead(t, s), LoadNext(t), PopCas(t, false), st1, st2);
  }

  /** Left alone it puts a page back on top of the page's stack. */
  lemma SoloPush(st: State, stacks: seq<seq<int>>, t: nat, id: int)
    requires Inv(st, stacks) && t < |st.threads| && st.threads[t].pc.Idle? && id in st.threads[t].hand
    ensures 0 <= id < |st.next|
    ensures var run := [StartPush(t, id), StoreNext(t), PushCas(t, false)];
            && Legal(st, run)
            && var st', s := After(st, run), st.shard[id];
               && st'.heads == st.heads[s := id] && st'.next == st.next[id := st.heads[s]] && st'.shard == st.shard
               && st'.threads == st.threads[t := Thread(Idle, st.threads[t].hand - {id})]
  {
    assert Holds(st, t, id);
    var st1 := Exec(st, StartPush(t, id));
    var st2 := Exec(st1, StoreNext(t));
    hide Inv;
    ThreeSteps(st, StartPush(t, id), StoreNext(t), PushCas(t, false), st1, st2);
  }

  /** A compare-exchange that fails changes no head, no link and no hand. */
  lemma LostRace(st: State, a: Action)
    requires Enabled(st, a) && (a.PopCas? || a.PushCas?) && !CasWins(st, a)
    ensures var st' := Exec(st, a);
            && st'.heads == st.heads && st'.next == st.next && |st'.threads| == |st.threads|
            && forall u :: 0 <= u < |st.threads| ==> st'.threads[u].hand == st.threads[u].hand
  {
  }

  lemma ThreeSteps(st: State, a1: Action, a2: Action, a3: Action, st1: State, st2: State)
    requires Enabled(st, a1) && st1 == Exec(st, a1) && Enabled(st1, a2) && st2 == Exec(st1, a2) && Enabled(st2, a3)
    ensures Legal(st, [a1, a2, a3]) && After(st, [a1, a2, a3]) == Exec(st2, a3)
  {
    hide Enabled, Exec;
    assert [a1, a2, a3][1..] == [a2, a3] && [a2, a3][1..] == [a3] && [a3][1..] == [];
    assert Legal(st2, [a3]) && After(st2, [a3]) == Exec(st2, a3);
    assert Legal(st1, [a2, a3]) && After(st1, [a2, a3]) == Exec(st2, a3);
  }

  /** Every winning pop of the run reads the successor that is current when it wins. */
  ghost predicate CurrentPops(st: State, run: seq<Action>)
    requires Legal(st, run)
    decreases |run|
  {
    run != [] ==> Current(st, run[0]) && CurrentPops(Exec(st, run[0]), run[1..])
  }

  /**
   Over every interleaving: the pool is well formed, and every page in exactly one place, in all states of
   the run if and only if no winning pop installs a successor that is no longer current.
   */
  lemma {:induction false} RunSafeIff(st: State, stacks: seq<seq<int>>, run: seq<Action>)
    requires Inv(st, stacks) && Legal(st, run)
    ensures AlwaysDescribed(st, run) <==> CurrentPops(st, run)
    decreases |run|
  {
    InvIsSafe(st, stacks);
    hide Inv, Safe, Enabled;
    if run != [] {
      var st' := Exec(st, run[0]);
      if Current(st, run[0]) {
        var mid := Step(st, stacks, run[0]);
        RunSafeIff(st', mid, run[1..]);
      } else {
        PopSafeIff(st, stacks, run[0]);
        assert !Described(st');
      }
    }
  }

  /** A run of current pops ends in a pool that its stacks describe. */
  lemma {:induction false} RunCurrent(st: State, stacks: seq<seq<int>>, run: seq<Action>)
    returns (stacks': seq<seq<int>>)
    requires Inv(st, stacks) && Legal(st, run) && CurrentPops(st, run)
    ensures Inv(After(st, run), stacks') && Safe(After(st, run), stacks')
    decreases |run|
  {
    if run == [] {
      InvIsSafe(st, stacks);
      stacks' := stacks;
    } else {
      hide Inv, Safe, Enabled;
      var mid := Step(st, stacks, run[0]);
      stacks' := RunCurrent(Exec(st, run[0]), mid, run[1..]);
    }
  }

  lemma {:induction false} UnrecycledRun(st: State, stacks: seq<seq<int>>, run: seq<Action>)
    requires Inv(st, stacks) && Legal(st, run) && NoRecycledPop(st, run)
    ensures CurrentPops(st, run)
    decreases |run|
  {
    if run != [] {
      hide Inv, Enabled, Current;
      UnrecycledIsCurrent(st, stacks, run[0]);
      var mid := Step(st, stacks, run[0]);
      UnrecycledRun(Exec(st, run[0]), mid, run[1..]);
    }
  }

  /** Every interleaving without a recycled pop keeps the stacks acyclic and ownership exclusive throughout. */
  lemma RunSafe(st: State, stacks: seq<seq<int>>, run: seq<Action>)
    returns (stacks': seq<seq<int>>)
    requires Inv(st, stacks) && Legal(st, run) && NoRecycledPop(st, run)
    ensures Inv(After(st, run), stacks') && Safe(After(st, run), stacks')
    ensures AlwaysDescribed(st, run)
  {
    hide Inv, Safe;
    UnrecycledRun(st, stacks, run);
    RunSafeIff(st, stacks, run);
    stacks' := RunCurrent(st, stacks, run);
  }

  // ---- two classes of clients that meet the hypothesis ----

  /** Runs that never push never recycle. */
  lemma {:induction false} PopOnlyRunsSafe(st: State, run: seq<Action>)
    requires Legal(st, run) && st.stale == {}
    requires forall i :: 0 <= i < |run| ==> !run[i].PushCas?
    ensures NoRecycledPop(st, run)
    decreases |run|
  {
    if run != [] {
      assert Exec(st, run[0]).stale == {};
      PopOnlyRunsSafe(Exec(st, run[0]), run[1..]);
    }
  }

  /** The only thread that pops keeps its snapshot on the stack. */
  ghost predicate SnapshotKept(st: State, stacks: seq<seq<int>>, t: nat)
    requires Shards(st.heads, st.next, st.shard, stacks)
  {
    && st.stale == {}
    && (forall u :: 0 <= u < |st.threads| && u != t ==>
          !st.threads[u].pc.PopTop? && !st.threads[u].pc.PopNext?)
    && (t < |st.threads| && (st.threads[t].pc.PopTop? || st.threads[t].pc.PopNext?) ==>
          var pc := st.threads[t].pc; pc.s < |stacks| && pc.top in stacks[pc.s])
  }

  /** With a single allocating thread and any number of freeing ones the hypothesis always holds. */
  lemma {:induction false} SinglePopperSafe(st: State, stacks: seq<seq<int>>, run: seq<Action>, t: nat)
    requires Inv(st, stacks) && SnapshotKept(st, stacks, t) && Legal(st, run)
    requires forall i :: 0 <= i < |run| && (run[i].LoadHead? || run[i].PopCas?) ==> run[i].t == t
    ensures NoRecycledPop(st, run)
    decreases |run|
  {
    if run != [] {
      UnrecycledIsCurrent(st, stacks, run[0]);
      var stacks' := Step(st, stacks, run[0]);
      SnapshotStep(st, stacks, run[0], stacks', t);
      SinglePopperSafe(Exec(st, run[0]), stacks', run[1..], t);
    }
  }

  lemma SnapshotStep(st: State, stacks: seq<seq<int>>, a: Action, stacks': seq<seq<int>>, t: nat)
    requires Inv(st, stacks) && SnapshotKept(st, stacks, t) && Enabled(st, a)
    requires a.LoadHead? || a.PopCas? ==> a.t == t
    requires Inv(Exec(st, a), stacks')
    ensures SnapshotKept(Exec(st, a), stacks', t)
  {
    var st' := Exec(st, a);
    forall u | 0 <= u < |st.threads| ensures ThreadOk(st, stacks, u) { }
    if CasWins(st, a) {
      if a.PushCas? {
        var id := st.threads[a.t].pc.id;
        var s := st.shard[id];
        PushStep(st, stacks, a);
        assert ThreadOk(st, stacks, a.t);
        HandNotStacked(st, stacks, a.t, id);
        LinkedUnique(st'.heads[s], st'.next, stacks'[s], [id] + stacks[s]);
        forall r | 0 <= r < |stacks| && r != s ensures stacks'[r] == stacks[r] {
          LinkedUnique(st'.heads[r], st'.next, stacks'[r], stacks[r]);
        }
      }
    } else if a.StoreNext? {
      StoreNextStep(st, stacks, a);
      forall r | 0 <= r < |stacks| ensures stacks'[r] == stacks[r] {
        LinkedUnique(st'.heads[r], st'.next, stacks'[r], stacks[r]);
      }
    } else {
      LocalStep(st, stacks, a);
      forall r | 0 <= r < |stacks| ensures stacks'[r] == stacks[r] {
        LinkedUnique(st'.heads[r], st'.next, stacks'[r], stacks[r]);
      }
      if a.LoadHead? && st.heads[a.s] != NIL { TopOfStack(st, stacks, a.s); }
      if a.PopCas? && st.heads[st.threads[a.t].pc.s] != NIL { TopOfStack(st, stacks, st.threads[a.t].pc.s); }
    }
  }
}
