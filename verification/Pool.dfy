/**
 The paged KV allocator, sequentially: `PagePoolFast` (sharded, index-linked stacks) against
 `PagePool` (one free list), both described by the set of free pages.
 */
module Pool {
  import opened DistinctSeqs
  import opened FreeStack

  /** How many steps the cyclic walk takes from shard `s0` to shard `r`. */
  function Hops(s0: nat, n: nat, r: nat): (h: nat)
    requires s0 < n && r < n
    ensures h < n && (s0 + h == r || s0 + h == r + n)
  {
    if r >= s0 then r - s0 else r + n - s0
  }

  lemma {:induction false} CardMonotone(a: set<int>, b: set<int>)
    requires a <= b
    ensures |a| <= |b|
  {
    assert b == a + (b - a);
  }

  lemma TakeOne(free0: set<int>, taken: set<int>, x: int)
    requires taken <= free0 && x in free0 - taken
    ensures taken + {x} <= free0 && x !in taken && free0 - taken - {x} == free0 - (taken + {x})
  {
  }

  /** No more pages can be taken than are free, and none is left exactly when all are taken. */
  lemma TakenSize(out: seq<int>, free0: set<int>, free: set<int>)
    requires Distinct(out) && SetOf(out) <= free0 && free == free0 - SetOf(out)
    ensures |out| <= |free0| && (free == {} ==> |out| == |free0|)
  {
    DistinctCard(out);
    CardMonotone(SetOf(out), free0);
    if free == {} {
      assert forall p :: p in free0 && p !in SetOf(out) ==> p in free;
      assert SetOf(out) == free0;
    }
  }

  lemma LinkStep(heads: seq<int>, next: seq<int>, shard: seq<nat>, stacks: seq<seq<int>>, p: int)
    requires Shards(heads, next, shard, stacks) && 0 <= p < |next| && p !in stacks[shard[p]]
    ensures var s := shard[p];
            Shards(heads[s := p], next[p := heads[s]], shard, stacks[s := [p] + stacks[s]])
  {
    var s := shard[p];
    var stacks' := stacks[s := [p] + stacks[s]];
    forall r | 0 <= r < |heads| ensures Linked(heads[s := p][r], next[p := heads[s]], stacks'[r]) {
      if r == s {
        LinkedPush(heads[s], next, stacks[s], p);
      } else {
        LinkedFrame(heads[r], next, stacks[r], p, heads[s]);
      }
    }
    assert forall q :: q in stacks'[s] <==> q == p || q in stacks[s];
  }

  lemma UnlinkStep(heads: seq<int>, next: seq<int>, shard: seq<nat>, stacks: seq<seq<int>>, s: nat)
    requires Shards(heads, next, shard, stacks) && s < |heads| && heads[s] != NIL
    ensures stacks[s] != [] && stacks[s][0] == heads[s]
    ensures 0 <= heads[s] < |next| && shard[heads[s]] == s
    ensures heads[s] !in stacks[s][1..]
    ensures Shards(heads[s := next[heads[s]]], next, shard, stacks[s := stacks[s][1..]])
  {
    assert Linked(heads[s], next, stacks[s]);
    assert heads[s] in stacks[s];
    LinkedDistinct(heads[s], next, stacks[s]);
    var stacks' := stacks[s := stacks[s][1..]];
    forall r | 0 <= r < |heads| ensures Linked(heads[s := next[heads[s]]][r], next, stacks'[r]) {
      assert Linked(heads[r], next, stacks[r]);
    }
    assert forall q :: q in stacks'[s] ==> q in stacks[s];
  }

  /** Some finite stacks describe the links, with every page on at most one of them. */
  ghost predicate Described(heads: seq<int>, next: seq<int>, shard: seq<nat>) {
    exists stacks :: Shards(heads, next, shard, stacks)
  }

  /** Some finite stacks describe the links, and page `p` is on none of them. */
  ghost predicate DescribedWithout(heads: seq<int>, next: seq<int>, shard: seq<nat>, p: int)
    requires 0 <= p < |shard|
  {
    exists stacks :: Shards(heads, next, shard, stacks) && p !in stacks[shard[p]]
  }

  /** The links leave no choice of stacks. */
  lemma StacksUnique(heads: seq<int>, next: seq<int>, shard: seq<nat>, a: seq<seq<int>>, b: seq<seq<int>>)
    requires Shards(heads, next, shard, a) && Shards(heads, next, shard, b)
    ensures a == b
  {
    forall s | 0 <= s < |heads| ensures a[s] == b[s] {
      LinkedUnique(heads[s], next, a[s], b[s]);
    }
  }

  /**
   Pushing a page that is already on its stack (a double free) closes a cycle, and no push repairs one: a push
   leaves a well-formed pool if and only if the pool was well formed and the page was not free.
   */
  lemma PushSafeIff(heads: seq<int>, next: seq<int>, shard: seq<nat>, p: int)
    requires 0 <= p < |next| == |shard| && shard[p] < |heads|
    ensures Described(heads[shard[p] := p], next[p := heads[shard[p]]], shard) <==>
            DescribedWithout(heads, next, shard, p)
  {
    var s := shard[p];
    if DescribedWithout(heads, next, shard, p) {
      var stacks :| Shards(heads, next, shard, stacks) && p !in stacks[s];
      LinkStep(heads, next, shard, stacks, p);
    }
    var heads', next' := heads[s := p], next[p := heads[s]];
    if Described(heads', next', shard) {
      var stacks :| Shards(heads', next', shard, stacks);
      UnlinkStep(heads', next', shard, stacks, s);
      var rest := stacks[s := stacks[s][1..]];
      assert heads'[s := next'[p]] == heads && next'[p := next[p]] == next;
      assert p !in rest[s];
      forall r | 0 <= r < |heads| ensures Linked(heads[r], next, rest[r]) {
        LinkedFrame(heads[r], next', rest[r], p, next[p]);
      }
    }
  }

  /** The stacks hold exactly the pages below `i`. */
  ghost predicate Built(heads: seq<int>, next: seq<int>, shard: seq<nat>, stacks: seq<seq<int>>, i: int) {
    Shards(heads, next, shard, stacks) && forall p :: 0 <= p < |next| ==> (p in stacks[shard[p]] <==> p < i)
  }

  lemma BuildStep(heads: seq<int>, next: seq<int>, shard: seq<nat>, stacks: seq<seq<int>>, i: int)
    requires 0 <= i < |next| && Built(heads, next, shard, stacks, i)
    ensures var s := shard[i];
            Built(heads[s := i], next[i := heads[s]], shard, stacks[s := [i] + stacks[s]], i + 1)
  {
    var s := shard[i];
    assert i !in stacks[s];
    LinkStep(heads, next, shard, stacks, i);
    hide Shards;
    assert forall p :: p in [i] + stacks[s] <==> p == i || p in stacks[s];
  }

  lemma HopsAt(s0: nat, n: nat, k: nat, s: nat)
    requires s0 < n && k < n && s == if s0 + k < n then s0 + k else s0 + k - n
    ensures s < n && forall r :: 0 <= r < n ==> (Hops(s0, n, r) == k <==> r == s)
  {
  }

  /** Pages nearer to the home shard are taken first. */
  ghost predicate NearestFirst(out: seq<int>, free: set<int>, home: nat, n: nat)
    requires home < n
  {
    forall p, q :: p in out && q in free && q !in out ==> Hops(home, n, p % n) <= Hops(home, n, q % n)
  }

  /** The walk so far: it has taken pages from the first `k` shards, and left none but in the last of them. */
  ghost predicate Walked(out: seq<int>, free: set<int>, home: nat, n: nat, k: nat, full: bool)
    requires home < n
  {
    && (forall p :: p in out ==> Hops(home, n, p % n) < k)
    && forall p :: p in free ==> Hops(home, n, p % n) >= if full then k - 1 else k
  }

  lemma WalkStep(out: seq<int>, out': seq<int>, free: set<int>, free': set<int>, home: nat, n: nat, k: nat, full: bool)
    requires home < n && k < n && Walked(out, free, home, n, k, false) && free' <= free
    requires forall p :: p in out' && p !in out ==> Hops(home, n, p % n) == k
    requires !full ==> forall p :: p in free' ==> Hops(home, n, p % n) != k
    ensures Walked(out', free', home, n, k + 1, full)
  {
    hide Hops;
  }

  lemma WalkEnds(out: seq<int>, free0: set<int>, free: set<int>, home: nat, n: nat, k: nat, full: bool)
    requires home < n && Walked(out, free, home, n, k, full) && free == free0 - SetOf(out)
    ensures NearestFirst(out, free0, home, n)
  {
    hide Hops;
    assert forall q :: q in free0 && q !in out ==> q in free;
  }

  /** Shards not visited yet are as they were, the others have lost pages from the top. */
  ghost predicate Depleted(stacks0: seq<seq<int>>, stacks: seq<seq<int>>, home: nat, n: nat, k: nat)
    requires home < n
  {
    && |stacks0| == |stacks| == n
    && forall r :: 0 <= r < n ==>
         if Hops(home, n, r) >= k then stacks[r] == stacks0[r] else Topped(stacks0[r], stacks[r])
  }

  lemma DepletedTops(stacks0: seq<seq<int>>, stacks: seq<seq<int>>, home: nat, n: nat, k: nat)
    requires home < n && Depleted(stacks0, stacks, home, n, k)
    ensures |stacks| == |stacks0| == n && forall r :: 0 <= r < n ==> Topped(stacks0[r], stacks[r])
  {
    hide Hops;
  }

  /** Only pages on top of the stack are gone. */
  ghost predicate Topped(was: seq<int>, now: seq<int>) {
    |now| <= |was| && now == was[|was| - |now|..]
  }

  /** No page is returned twice, and none that is free already. */
  ghost predicate Freeable(free: set<int>, ids: seq<int>) {
    Distinct(ids) && forall p :: p in ids ==> p !in free
  }

  lemma FreeableNone(free: set<int>)
    ensures Freeable(free, []) && free + SetOf([]) == free
  {
  }

  lemma FreeableMore(free: set<int>, ids: seq<int>, i: nat)
    requires i < |ids|
    ensures ids[i] in ids && ids[..i + 1] == ids[..i] + [ids[i]]
    ensures SetOf(ids[..i + 1]) == SetOf(ids[..i]) + {ids[i]}
    ensures Freeable(free, ids[..i + 1]) <==> Freeable(free, ids[..i]) && ids[i] !in free + SetOf(ids[..i])
  {
    var init, more := ids[..i], ids[..i + 1];
    assert more == init + [ids[i]];
    assert Distinct(more) ==> forall j :: 0 <= j < i ==> more[j] == init[j] && more[j] != more[i];
    assert Distinct(more) ==> Distinct(init);
  }

  class PagePoolFast {
    const nShards: nat
    var heads: seq<int>
    var next: seq<int>
    var shard: seq<nat>
    var touchUs: seq<nat>
    var allocCnt: nat
    var freeCnt: nat
    ghost var stacks: seq<seq<int>>

    ghost predicate Valid()
      reads this`heads, this`next, this`shard, this`touchUs, this`stacks
    {
      && nShards > 0 && |heads| == nShards
      && Shards(heads, next, shard, stacks)
      && |touchUs| == |next|
      && (forall p :: 0 <= p < |shard| ==> shard[p] == p % nShards)
      && (forall p :: 0 <= p < |touchUs| ==> (touchUs[p] == 0 <==> p in stacks[shard[p]]))
    }

    ghost function Free(): set<int>
      reads this`shard, this`stacks
    {
      set p | 0 <= p < |shard| && shard[p] < |stacks| && p in stacks[shard[p]]
    }

    /** Each stack holds exactly the free pages whose id selects its shard. */
    lemma StackOfShard(s: nat)
      requires Valid() && s < nShards
      ensures Linked(heads[s], next, stacks[s]) && Distinct(stacks[s])
      ensures forall p :: p in stacks[s] <==> p in Free() && p % nShards == s
    {
      LinkedDistinct(heads[s], next, stacks[s]);
    }

    ghost predicate Holdable(ids: seq<int>)
      reads this
    {
      Freeable(Free(), ids) && forall p :: p in ids ==> 0 <= p < |next|
    }

    /** The arrays have their lengths and every page its shard; what the links say is open. */
    ghost predicate Shaped()
      reads this`heads, this`next, this`shard, this`touchUs, this`stacks
    {
      && nShards > 0 && |heads| == |stacks| == nShards && |next| == |shard| == |touchUs|
      && forall p :: 0 <= p < |shard| ==> shard[p] == p % nShards
    }

    constructor (nPages: nat, shards: nat)
      requires shards > 0
      ensures Valid() && nShards == shards && |next| == nPages
      ensures forall p :: p in Free() <==> 0 <= p < nPages
      ensures allocCnt == 0 && freeCnt == 0 && forall p :: 0 <= p < nPages ==> touchUs[p] == 0
    {
      nShards := shards;
      heads := seq(shards, _ => NIL);
      next := seq(nPages, _ => NIL);
      shard := seq(nPages, i => i % shards);
      touchUs := seq(nPages, _ => 0);
      allocCnt, freeCnt := 0, 0;
      stacks := seq(shards, _ => []);
      new;
      for i := 0 to nPages
        invariant |heads| == nShards == shards && |next| == |shard| == |touchUs| == nPages
        invariant Built(heads, next, shard, stacks, i)
        invariant forall p :: 0 <= p < nPages ==> shard[p] == p % shards && touchUs[p] == 0
        invariant allocCnt == 0 && freeCnt == 0
      {
        BuildStep(heads, next, shard, stacks, i);
        hide Built;
        var s := i % shards;
        next := next[i := heads[s]];
        heads := heads[s := i];
        stacks := stacks[s := [i] + stacks[s]];
      }
    }

    /** The compare-exchange loop of `alloc`, run alone: takes the top page of shard `s`. */
    method Pop(s: nat, ts: nat) returns (top: int)
      requires Valid() && s < nShards && heads[s] != NIL && ts > 0
      modifies this
      ensures Valid() && |next| == old(|next|) && stacks[s] == old(stacks[s])[1..] && |old(stacks[s])| > 0
      ensures forall r :: 0 <= r < nShards && r != s ==> stacks[r] == old(stacks[r])
      ensures top == old(stacks[s])[0] && top in old(Free()) && Free() == old(Free()) - {top}
      ensures touchUs == old(touchUs)[top := ts]
      ensures allocCnt == old(allocCnt) && freeCnt == old(freeCnt)
    {
      top := heads[s];
      UnlinkStep(heads, next, shard, stacks, s);
      var nxt := next[top];
      ghost var was := stacks[s];
      assert forall q :: q in was <==> q == top || q in was[1..];
      heads := heads[s := nxt];
      stacks := stacks[s := stacks[s][1..]];
      touchUs := touchUs[top := ts];
    }

    /** Pushes any page; a pool that no stacks describe stays so. */
    method Push(id: int)
      requires Shaped() && 0 <= id < |next|
      modifies this
      ensures Shaped() && |next| == old(|next|)
      ensures old(Valid() && id !in Free()) ==> Valid() && Free() == old(Free()) + {id}
      ensures var s := id % nShards; stacks == old(stacks)[s := [id] + old(stacks)[s]]
      ensures Described(heads, next, shard) ==> old(Described(heads, next, shard))
      ensures old(Valid() && id in Free()) ==> !Described(heads, next, shard)
      ensures touchUs == old(touchUs)[id := 0]
      ensures allocCnt == old(allocCnt) && freeCnt == old(freeCnt)
    {
      PushSafeIff(heads, next, shard, id);
      OnlyStacks(id);
      ghost var valid := Valid() && id !in Free();
      touchUs := touchUs[id := 0];
      var s := shard[id];
      if valid { LinkStep(heads, next, shard, stacks, id); }
      hide Shards;
      var top := heads[s];
      next := next[id := top];
      heads := heads[s := id];
      ghost var was := stacks[s];
      stacks := stacks[s := [id] + stacks[s]];
      assert forall q :: q in stacks[s] <==> q == id || q in was;
    }

    lemma OnlyStacks(id: int)
      requires 0 <= id < |next|
      ensures Valid() && id in Free() ==> !DescribedWithout(heads, next, shard, id)
    {
      if Valid() && id in Free() && DescribedWithout(heads, next, shard, id) {
        var other :| Shards(heads, next, shard, other) && id !in other[shard[id]];
        StacksUnique(heads, next, shard, stacks, other);
        assert false;
      }
    }

    /** A well-formed pool has its shape and its stacks. */
    lemma WellFormed()
      ensures Valid() ==> Shaped() && Described(heads, next, shard)
    {
    }

    /**
     Returns pages to their shards, unchecked: the pool stays well formed if and only if the pages are
     distinct and none of them is free, and otherwise no stacks describe it.
     */
    method FreePages(ids: seq<int>)
      requires Valid() && forall p :: p in ids ==> 0 <= p < |next|
      modifies this
      ensures Valid() <==> old(Holdable(ids))
      ensures Described(heads, next, shard) <==> old(Holdable(ids))
      ensures |next| == old(|next|) && |touchUs| == old(|touchUs|)
      ensures old(Holdable(ids)) ==> Free() == old(Free()) + SetOf(ids)
      ensures forall p :: 0 <= p < |touchUs| ==> touchUs[p] == if p in ids then 0 else old(touchUs)[p]
      ensures allocCnt == old(allocCnt) && freeCnt == old(freeCnt) + |ids|
    {
      hide Valid, Free, Described, Freeable;
      ghost var free0 := Free();
      WellFormed();
      FreeableNone(free0);
      for i := 0 to |ids|
        invariant Shaped() && |next| == old(|next|) && ids[..0] == []
        invariant Freeable(free0, ids[..i]) ==> Valid() && Free() == free0 + SetOf(ids[..i])
        invariant !Freeable(free0, ids[..i]) ==> !Described(heads, next, shard)
        invariant forall p :: 0 <= p < |touchUs| ==> touchUs[p] == if p in ids[..i] then 0 else old(touchUs)[p]
        invariant allocCnt == old(allocCnt) && freeCnt == old(freeCnt)
      {
        FreeableMore(free0, ids, i);
        Push(ids[i]);
      }
      assert ids[..|ids|] == ids;
      freeCnt := freeCnt + |ids|;
      WellFormed();
    }

    /** The inner loop of `alloc`: pops shard `s` until `n` pages are taken or the shard is empty. */
    method TakeFrom(s: nat, n: nat, ts: nat, taken: seq<int>, ghost free0: set<int>, ghost touch0: seq<nat>)
      returns (out: seq<int>)
      requires Valid() && s < nShards && ts > 0 && |taken| < n
      requires Taken(taken, free0, touch0, ts)
      modifies this
      ensures Valid() && |next| == old(|next|)
      ensures Taken(out, free0, touch0, ts) && |out| <= n && taken <= out
      ensures |out| < n ==> stacks[s] == []
      ensures forall r :: 0 <= r < nShards && r != s ==> stacks[r] == old(stacks[r])
      ensures Topped(old(stacks[s]), stacks[s])
      ensures forall p :: p in out && p !in taken ==> p % nShards == s
      ensures allocCnt == old(allocCnt) && freeCnt == old(freeCnt)
    {
      out := taken;
      var top := heads[s];
      while top != NIL
        invariant Valid() && |next| == old(|next|)
        invariant top == heads[s] && |out| < n && taken <= out
        invariant Taken(out, free0, touch0, ts)
        invariant forall r :: 0 <= r < nShards && r != s ==> stacks[r] == old(stacks[r])
        invariant Topped(old(stacks[s]), stacks[s])
        invariant forall p :: p in out && p !in taken ==> p % nShards == s
        invariant allocCnt == old(allocCnt) && freeCnt == old(freeCnt)
        decreases |stacks[s]|
      {
        ghost var before := out;
        top := Pop(s, ts);
        out := out + [top];
        assert SetOf(out) == SetOf(before) + {top};
        if |out| == n { return; }
        top := heads[s];
      }
      assert Linked(heads[s], next, stacks[s]);
    }

    /** The outer loop of `alloc`: visits every shard once, starting from the hashed one. */
    method Gather(n: nat, threadHash: int, ts: nat) returns (out: seq<int>)
      requires Valid() && ts > 0
      modifies this
      ensures Valid() && |next| == old(|next|)
      ensures Taken(out, old(Free()), old(touchUs), ts) && |out| <= n
      ensures |out| < n ==> Free() == {}
      ensures nShards > 0 && NearestFirst(out, old(Free()), threadHash % 0x1_0000_0000 % nShards, nShards)
      ensures |stacks| == old(|stacks|) && forall r :: 0 <= r < |stacks| ==> Topped(old(stacks[r]), stacks[r])
      ensures allocCnt == old(allocCnt) && freeCnt == old(freeCnt)
    {
      WalkStarts();
      hide Valid, Free, Hops, Taken, Walked, Depleted;
      out := [];
      var s := (threadHash % 0x1_0000_0000) % nShards;  // the hash is cast to unsigned
      ghost var s0, k := s, 0;
      var tries := nShards;
      while |out| < n && tries > 0
        invariant Valid() && |next| == old(|next|) && s0 < nShards
        invariant k + tries == nShards && s == if s0 + k < nShards then s0 + k else s0 + k - nShards
        invariant Taken(out, old(Free()), old(touchUs), ts) && |out| <= n
        invariant Walked(out, Free(), s0, nShards, k, |out| == n && k > 0)
        invariant Depleted(old(stacks), stacks, s0, nShards, k)
        invariant allocCnt == old(allocCnt) && freeCnt == old(freeCnt)
        decreases tries
      {
        tries := tries - 1;
        out := TakeNext(s, n, ts, out, old(Free()), old(touchUs), old(stacks), s0, k);
        s := if s + 1 == nShards then 0 else s + 1;
        k := k + 1;
      }
      TakenIs(out, old(Free()), old(touchUs), ts);
      WalkEnds(out, old(Free()), Free(), s0, nShards, k, |out| == n && k > 0);
      DepletedTops(old(stacks), stacks, s0, nShards, k);
      if |out| < n { NothingLeft(out, s0); }
    }

    lemma WalkStarts()
      requires Valid()
      ensures nShards > 0 && Taken([], Free(), touchUs, 0) && forall ts :: Taken([], Free(), touchUs, ts)
      ensures forall s0 :: 0 <= s0 < nShards ==>
                Walked([], Free(), s0, nShards, 0, false) && Depleted(stacks, stacks, s0, nShards, 0)
    {
    }

    lemma TakenIs(out: seq<int>, free0: set<int>, touch0: seq<nat>, ts: nat)
      requires Valid() && Taken(out, free0, touch0, ts)
      ensures Free() == free0 - SetOf(out) && |stacks| == nShards && Distinct(out) && SetOf(out) <= free0
      ensures |touchUs| == |touch0|
      ensures forall p :: 0 <= p < |touchUs| ==> touchUs[p] == if p in out then ts else touch0[p]
    {
    }

    /** One turn of the walk. */
    method TakeNext(s: nat, n: nat, ts: nat, taken: seq<int>, ghost free0: set<int>, ghost touch0: seq<nat>,
                    ghost stacks0: seq<seq<int>>, ghost s0: nat, ghost k: nat)
      returns (out: seq<int>)
      requires Valid() && ts > 0 && |taken| < n && s0 < nShards && k < nShards
      requires s == if s0 + k < nShards then s0 + k else s0 + k - nShards
      requires Taken(taken, free0, touch0, ts) && Walked(taken, Free(), s0, nShards, k, false)
      requires Depleted(stacks0, stacks, s0, nShards, k)
      modifies this
      ensures Valid() && |next| == old(|next|) && Taken(out, free0, touch0, ts) && |out| <= n
      ensures Walked(out, Free(), s0, nShards, k + 1, |out| == n) && Depleted(stacks0, stacks, s0, nShards, k + 1)
      ensures allocCnt == old(allocCnt) && freeCnt == old(freeCnt)
    {
      ghost var free := Free();
      HopsAt(s0, nShards, k, s);
      hide Hops, Walked;
      out := TakeFrom(s, n, ts, taken, free0, touch0);
      StillFree(taken, out, free0, free);
      WalkStep(taken, out, free, Free(), s0, nShards, k, |out| == n);
    }

    /** Taking more leaves fewer free. */
    lemma StillFree(taken: seq<int>, out: seq<int>, free0: set<int>, free: set<int>)
      requires taken <= out && free == free0 - SetOf(taken)
      ensures Free() == free0 - SetOf(out) ==> Free() <= free
    {
      assert forall p :: p in taken ==> p in out;
    }

    lemma NothingLeft(out: seq<int>, s0: nat)
      requires Valid() && s0 < nShards && Walked(out, Free(), s0, nShards, nShards, false)
      ensures Free() == {}
    {
    }

    /** Returns n distinct free pages, or gives back whatever it took and returns none. */
    method Alloc(n: nat, threadHash: int, ts: nat) returns (out: seq<int>)
      requires Valid() && ts > 0
      modifies this
      ensures Valid() && |next| == old(|next|)
      ensures |old(Free())| < n ==>
                && out == [] && Free() == old(Free()) && touchUs == old(touchUs)
                && allocCnt == old(allocCnt) && freeCnt == old(freeCnt) + |old(Free())|
      ensures n <= |old(Free())| ==>
                && |out| == n && Distinct(out) && SetOf(out) <= old(Free())
                && Free() == old(Free()) - SetOf(out)
                && allocCnt == old(allocCnt) + n && freeCnt == old(freeCnt)
                && |touchUs| == old(|touchUs|)
                && (forall p :: 0 <= p < |touchUs| ==> touchUs[p] == if p in out then ts else old(touchUs)[p])
                && nShards > 0 && NearestFirst(out, old(Free()), threadHash % 0x1_0000_0000 % nShards, nShards)
    {
      StampsKnown();
      FreeInRange();
      hide Valid, Free, Hops, NearestFirst, Taken, Distinct, SetOf, Topped;
      ghost var free0, touch0 := Free(), touchUs;
      out := Gather(n, threadHash, ts);
      TakenIs(out, free0, touch0, ts);
      TakenSize(out, free0, Free());
      if |out| < n {
        Rollback(out, free0, touch0, ts);
        out := [];
      } else {
        allocCnt := allocCnt + n;
      }
    }

    /** Giving back what was taken restores the pool, up to the order inside a stack. */
    method Rollback(out: seq<int>, ghost free0: set<int>, ghost touch0: seq<nat>, ghost ts: nat)
      requires Valid() && Taken(out, free0, touch0, ts)
      requires forall p :: p in free0 ==> 0 <= p < |touch0| && touch0[p] == 0
      modifies this
      ensures Valid() && |next| == old(|next|) && Free() == free0 && touchUs == touch0
      ensures allocCnt == old(allocCnt) && freeCnt == old(freeCnt) + |out|
    {
      assert forall p :: p in out ==> p in SetOf(out);
      FreePages(out);
    }

    /** The pages taken so far are distinct, came from the free set, and are the only ones touched. */
    ghost predicate Taken(out: seq<int>, free0: set<int>, touch0: seq<nat>, ts: nat)
      requires Valid()
      reads this
    {
      && Distinct(out) && SetOf(out) <= free0 && Free() == free0 - SetOf(out)
      && |touchUs| == |touch0|
      && forall p :: 0 <= p < |touchUs| ==> touchUs[p] == if p in out then ts else touch0[p]
    }

    /** Stamps the given pages; stamping a free page would make it count as in use. */
    method Touch(ids: seq<int>, ts: nat)
      requires Valid() && ts > 0 && forall p :: p in ids ==> 0 <= p < |next|
      modifies this`touchUs
      ensures Valid() <==> forall p :: p in ids ==> p !in Free()
      ensures Free() == old(Free()) && |touchUs| == old(|touchUs|)
      ensures forall p :: 0 <= p < |touchUs| ==> touchUs[p] == if p in ids then ts else old(touchUs)[p]
    {
      for i := 0 to |ids|
        invariant |touchUs| == old(|touchUs|)
        invariant forall p :: 0 <= p < |touchUs| ==> touchUs[p] == if p in ids[..i] then ts else old(touchUs)[p]
      {
        assert ids[i] in ids && ids[..i + 1] == ids[..i] + [ids[i]];
        touchUs := touchUs[ids[i] := ts];
      }
      assert ids[..|ids|] == ids;
    }

    /** In use and untouched for longer than the time to live. */
    ghost predicate Stale(now: nat, ttlMs: nat, p: int)
      reads this
    {
      0 <= p < |touchUs| && touchUs[p] != 0 && now - touchUs[p] > ttlMs * 1000
    }

    lemma FreeInRange()
      requires Valid()
      ensures forall p :: p in Free() ==> 0 <= p < |next|
    {
    }

    /** A page has no stamp exactly while it is free. */
    lemma StampsKnown()
      requires Valid()
      ensures |touchUs| == |next| && forall p :: 0 <= p < |touchUs| ==> (touchUs[p] == 0 <==> p in Free())
    {
    }

    /** Reclaims every stale page, whoever owns it. */
    method LeakScan(now: nat, ttlMs: nat) returns (n: nat)
      requires Valid() && forall p :: 0 <= p < |touchUs| ==> touchUs[p] <= now
      modifies this
      ensures Valid() && |next| == old(|next|)
      ensures forall p :: p in Free() <==> p in old(Free()) || old(Stale(now, ttlMs, p))
      ensures forall p :: 0 <= p < |next| ==>
                (p in Free() <==> old(touchUs)[p] == 0 || now - old(touchUs)[p] > ttlMs * 1000)
      ensures forall p :: 0 <= p < |touchUs| ==> touchUs[p] == if old(Stale(now, ttlMs, p)) then 0 else old(touchUs)[p]
      ensures n == freeCnt - old(freeCnt) == |Free()| - |old(Free())| && allocCnt == old(allocCnt)
    {
      StampsKnown();
      hide Valid, Free;
      var orphan := FindStale(now, ttlMs);
      ghost var free0 := Free();
      hide Stale;
      FreePages(orphan);
      n := |orphan|;
      DistinctCard(orphan);
      assert free0 !! SetOf(orphan);
    }

    method FindStale(now: nat, ttlMs: nat) returns (orphan: seq<int>)
      requires forall p :: 0 <= p < |touchUs| ==> touchUs[p] <= now
      ensures Distinct(orphan) && forall p :: p in orphan <==> Stale(now, ttlMs, p)
    {
      orphan := [];
      for i := 0 to |touchUs|
        invariant forall p :: p in orphan <==> p < i && Stale(now, ttlMs, p)
        invariant Distinct(orphan)
      {
        var t := touchUs[i];
        if t != 0 && now - t > ttlMs * 1000 {
          Append(orphan, i);
          orphan := orphan + [i];
        }
      }
    }

    method Stats() returns (total: nat, inUse: nat)
      requires Valid()
      ensures total == |next| && inUse == total - |Free()|
    {
      total, inUse := |touchUs|, 0;
      ghost var seen := {};
      for i := 0 to |touchUs|
        invariant forall p :: p in seen <==> 0 <= p < i && p in Free()
        invariant |seen| + inUse == i
      {
        if touchUs[i] != 0 { inUse := inUse + 1; } else { seen := seen + {i}; }
      }
      assert seen == Free();
    }
  }

  /** The free list names exactly the pages marked freed, once each. */
  ghost predicate Marks(freeList: seq<int>, freed: seq<bool>) {
    && Distinct(freeList)
    && (forall p :: p in freeList ==> 0 <= p < |freed|)
    && forall p :: 0 <= p < |freed| ==> (freed[p] <==> p in freeList)
  }

  lemma TakeLast(freeList: seq<int>, freed: seq<bool>)
    requires Marks(freeList, freed) && freeList != []
    ensures var id, rest := freeList[|freeList| - 1], freeList[..|freeList| - 1];
            && 0 <= id < |freed| && id !in rest && id in freeList
            && Marks(rest, freed[id := false]) && SetOf(rest) == SetOf(freeList) - {id}
  {
    var id, rest := freeList[|freeList| - 1], freeList[..|freeList| - 1];
    assert freeList == rest + [id] && id in freeList;
    Append(rest, id);
    assert forall p :: p in freeList <==> p in rest || p == id;
    assert id !in rest;
  }

  /** The pages popped off a list, last first. */
  ghost predicate FromTheEnd(list: seq<int>, out: seq<int>) {
    |out| <= |list| && forall i :: 0 <= i < |out| ==> out[i] == list[|list| - 1 - i]
  }

  lemma MoreFromTheEnd(list: seq<int>, out: seq<int>)
    requires FromTheEnd(list, out) && |out| < |list|
    ensures var k := |list| - |out|;
            && list[..k][k - 1] == list[k - 1] && list[..k][..k - 1] == list[..k - 1]
            && FromTheEnd(list, out + [list[k - 1]])
  {
  }

  lemma Popped(list: seq<int>, out: seq<int>)
    requires Distinct(list) && FromTheEnd(list, out)
    ensures Distinct(out) && SetOf(out) <= SetOf(list)
    ensures SetOf(list[..|list| - |out|]) == SetOf(list) - SetOf(out)
  {
    var rest := list[..|list| - |out|];
    forall p ensures p in rest <==> p in list && p !in out {
      if p in rest {
        var i :| 0 <= i < |rest| && list[i] == p;
        assert forall j :: 0 <= j < |out| ==> out[j] != p;
      }
      if p in list {
        var i :| 0 <= i < |list| && list[i] == p;
        if i < |rest| { assert rest[i] == p; } else { assert out[|list| - 1 - i] == p; }
      }
    }
    forall i, j | 0 <= i < j < |out| ensures out[i] != out[j] {
      assert list[|list| - 1 - j] != list[|list| - 1 - i];
    }
    assert forall p :: p in out ==> p in list;
  }

  lemma PutLast(freeList: seq<int>, freed: seq<bool>, id: int)
    requires Marks(freeList, freed) && 0 <= id < |freed| && !freed[id]
    ensures Marks(freeList + [id], freed[id := true]) && SetOf(freeList + [id]) == SetOf(freeList) + {id}
    ensures id !in freeList
  {
    Append(freeList, id);
    assert forall p :: p in freeList + [id] <==> p in freeList || p == id;
  }

  /** The simple allocator: one free list under a mutex, and a `freed` mark per page. */
  class PagePool {
    var freeList: seq<int>
    var freed: seq<bool>
    var allocCnt: nat
    var freeCnt: nat

    ghost predicate Valid()
      reads this
    {
      Marks(freeList, freed)
    }

    ghost function Free(): set<int>
      reads this
    {
      SetOf(freeList)
    }

    lemma FreeInRange()
      requires Valid()
      ensures forall p :: p in Free() ==> 0 <= p < |freed|
    {
    }

    constructor (nPages: nat)
      ensures Valid() && |freed| == nPages && allocCnt == 0 && freeCnt == 0
      ensures forall p :: p in Free() <==> 0 <= p < nPages
    {
      freed := seq(nPages, _ => true);
      freeList := [];
      allocCnt, freeCnt := 0, 0;
      new;
      for i := 0 to nPages
        invariant |freed| == nPages && allocCnt == 0 && freeCnt == 0
        invariant forall p :: 0 <= p < nPages ==> freed[p]
        invariant Distinct(freeList) && forall p :: p in freeList <==> 0 <= p < i
      {
        Append(freeList, i);
        freeList := freeList + [i];
      }
    }

    method Alloc(n: nat) returns (out: seq<int>)
      requires Valid()
      modifies this
      ensures Valid() && |freed| == old(|freed|) && freeCnt == old(freeCnt)
      ensures |old(Free())| < n ==> out == [] && Free() == old(Free()) && allocCnt == old(allocCnt)
      ensures n <= |old(Free())| ==>
                && |out| == n && Distinct(out) && SetOf(out) <= old(Free())
                && Free() == old(Free()) - SetOf(out) && allocCnt == old(allocCnt) + n
      ensures old(|freeList|) == old(|Free()|) && |freeList| == old(|freeList|) - |out|
      ensures freeList == old(freeList)[..|freeList|] && FromTheEnd(old(freeList), out)
    {
      DistinctCard(freeList);
      if |freeList| < n { return []; }
      ghost var list0 := freeList;
      hide Marks, Distinct, SetOf;
      out := [];
      for i := 0 to n
        invariant Valid() && |freed| == old(|freed|) && freeCnt == old(freeCnt) && allocCnt == old(allocCnt)
        invariant freeList == list0[..|list0| - i] && FromTheEnd(list0, out) && |out| == i
      {
        TakeLast(freeList, freed);
        MoreFromTheEnd(list0, out);
        var id := freeList[|freeList| - 1];
        freeList := freeList[..|freeList| - 1];
        freed := freed[id := false];
        out := out + [id];
      }
      Popped(list0, out);
      allocCnt := allocCnt + n;
    }

    /** Pages already free are skipped, so a double free is harmless here. */
    method FreePages(ids: seq<int>)
      requires Valid() && forall p :: p in ids ==> 0 <= p < |freed|
      modifies this
      ensures Valid() && |freed| == old(|freed|) && allocCnt == old(allocCnt)
      ensures Free() == old(Free()) + SetOf(ids)
      ensures freeCnt - old(freeCnt) == |Free()| - |old(Free())| && old(freeList) <= freeList
    {
      for i := 0 to |ids|
        invariant Valid() && |freed| == old(|freed|) && allocCnt == old(allocCnt)
        invariant Free() == old(Free()) + SetOf(ids[..i])
        invariant freeCnt - old(freeCnt) == |freeList| - |old(freeList)| && old(freeList) <= freeList
      {
        var id := ids[i];
        assert ids[..i + 1] == ids[..i] + [id] && id in ids;
        Append(ids[..i], id);
        if !freed[id] {
          PutLast(freeList, freed, id);
          freed := freed[id := true];
          freeList := freeList + [id];
          freeCnt := freeCnt + 1;
        }
      }
      assert ids[..|ids|] == ids;
      DistinctCard(freeList);
      DistinctCard(old(freeList));
    }
  }

  // ---- the fast pool refines the simple one over whole client histories ----

  /** A client allocates pages, or returns the pages at some positions of the list it holds. */
  datatype Op = OpAlloc(n: nat, hash: int, ts: nat) | OpFree(at: seq<nat>)

  /** The pages a client holds: distinct, in range, none of them free. */
  ghost predicate Held(held: seq<int>, nPages: nat, free: set<int>) {
    Distinct(held) && forall p :: p in held ==> 0 <= p < nPages && p !in free
  }

  /** Distinct positions of a list of `n` pages; a client that names others does not own what it frees. */
  predicate Positions(at: seq<nat>, n: nat) {
    && (forall i :: 0 <= i < |at| ==> at[i] < n)
    && forall i, j :: 0 <= i < j < |at| ==> at[i] != at[j]
  }

  function Chosen(held: seq<int>, at: seq<nat>): seq<int>
    requires Positions(at, |held|)
  {
    seq(|at|, i requires 0 <= i < |at| => held[at[i]])
  }

  /** The first `n` pages held, less those at the given positions. */
  function Rest(held: seq<int>, at: seq<nat>, n: nat): seq<int>
    requires n <= |held|
  {
    if n == 0 then []
    else Rest(held, at, n - 1) + if n - 1 in at then [] else [held[n - 1]]
  }

  lemma {:induction false} RestPages(held: seq<int>, at: seq<nat>, n: nat)
    requires n <= |held| && Distinct(held)
    ensures Distinct(Rest(held, at, n))
    ensures forall p :: p in Rest(held, at, n) <==> exists k :: 0 <= k < n && k !in at && held[k] == p
  {
    if n > 0 {
      RestPages(held, at, n - 1);
      var r := Rest(held, at, n - 1);
      if n - 1 !in at { Append(r, held[n - 1]); }
      forall p ensures p in Rest(held, at, n) <==> exists k :: 0 <= k < n && k !in at && held[k] == p {
        if exists k :: 0 <= k < n && k !in at && held[k] == p {
          var k :| 0 <= k < n && k !in at && held[k] == p;
          if k < n - 1 { assert p in r; }
        }
      }
    }
  }

  /** The pages left and the pages chosen make up the pages held. */
  lemma RestAndChosen(held: seq<int>, at: seq<nat>)
    requires Distinct(held) && Positions(at, |held|)
    ensures var r, c := Rest(held, at, |held|), Chosen(held, at);
            && SetOf(r) + SetOf(c) == SetOf(held) && SetOf(r) !! SetOf(c)
            && |c| == |at| && Distinct(c) && Distinct(r) && |r| + |at| == |held|
  {
    var r, c := Rest(held, at, |held|), Chosen(held, at);
    RestPages(held, at, |held|);
    ChosenPages(held, at);
    forall p ensures p in SetOf(held) <==> p in SetOf(r) || p in SetOf(c) {
      if p in held {
        var k :| 0 <= k < |held| && held[k] == p;
        if k in at { var i :| 0 <= i < |at| && at[i] == k; assert c[i] == p; }
      }
    }
    forall p | p in SetOf(r) ensures p !in SetOf(c) {
      var k :| 0 <= k < |held| && k !in at && held[k] == p;
      RestNotChosen(held, at, k);
    }
    hide Rest, Chosen, Positions;
    DistinctCard(r);
    DistinctCard(c);
    DistinctCard(held);
    hide Distinct;
    assert |SetOf(r) + SetOf(c)| == |SetOf(r)| + |SetOf(c)|;
  }

  lemma ChosenPages(held: seq<int>, at: seq<nat>)
    requires Distinct(held) && Positions(at, |held|)
    ensures Distinct(Chosen(held, at)) && forall p :: p in Chosen(held, at) ==> p in held
  {
    var c := Chosen(held, at);
    forall i, j | 0 <= i < j < |c| ensures c[i] != c[j] {
      assert held[at[i]] != held[at[j]];
    }
  }

  // ---- what both pools answer ----

  /** Pages free, pages the client holds, and the answers to its requests so far. */
  datatype Tally = Tally(free: nat, held: nat, granted: seq<bool>)

  /** A request is granted exactly when enough pages are free, wherever they are. */
  function TallyStep(t: Tally, op: Op): Tally {
    match op
    case OpAlloc(n, _, _) =>
      if n <= t.free then Tally(t.free - n, t.held + n, t.granted + [true])
      else t.(granted := t.granted + [false])
    case OpFree(at) =>
      if Positions(at, t.held) then
        PositionsFit(at, t.held);
        Tally(t.free + |at|, t.held - |at|, t.granted)
      else t
  }

  function TallyAfter(ops: seq<Op>, free: nat): Tally
    decreases |ops|
  {
    if ops == [] then Tally(free, 0, [])
    else TallyStep(TallyAfter(ops[..|ops| - 1], free), ops[|ops| - 1])
  }

  lemma PositionsFit(at: seq<nat>, n: nat)
    requires Positions(at, n)
    ensures |at| <= n
  {
    DistinctBelow(at, n);
  }

  /** What a client's history has made of a pool: counts as tallied, and no page lost or duplicated. */
  ghost predicate Balanced(t: Tally, nPages: nat, free0: set<int>, free: set<int>, held: seq<int>) {
    Held(held, nPages, free) && |free| == t.free && |held| == t.held && free + SetOf(held) == free0
  }

  /**
   Driven by the same history of a client that frees only what it holds, in any portions and any order,
   the two pools grant exactly the requests for which enough pages are free, although they hand out
   different pages; the free pages and the pages held are always those free at first.
   */
  method RunBoth(fast: PagePoolFast, simple: PagePool, ops: seq<Op>)
    returns (fastOk: seq<bool>, simpleOk: seq<bool>, fastHeld: seq<int>, simpleHeld: seq<int>)
    requires fast.Valid() && simple.Valid()
    requires |fast.next| == |simple.freed| && |fast.Free()| == |simple.Free()|
    requires forall i :: 0 <= i < |ops| && ops[i].OpAlloc? ==> ops[i].ts > 0
    modifies fast, simple
    ensures fast.Valid() && simple.Valid()
    ensures var t := TallyAfter(ops, |old(fast.Free())|);
            && fastOk == simpleOk == t.granted
            && Balanced(t, |fast.next|, old(fast.Free()), fast.Free(), fastHeld)
            && Balanced(t, |simple.freed|, old(simple.Free()), simple.Free(), simpleHeld)
  {
    hide PagePoolFast.Valid, PagePool.Valid, PagePoolFast.Free, PagePool.Free, Balanced, Held, Rest, TallyStep,
      TallyAfter;
    ghost var fast0, simple0 := fast.Free(), simple.Free();
    fastOk, simpleOk, fastHeld, simpleHeld := [], [], [], [];
    NothingHeld(ops, |fast.next|, fast0);
    NothingHeld(ops, |simple.freed|, simple0);
    for i := 0 to |ops|
      invariant fast.Valid() && simple.Valid()
      invariant Balanced(TallyAfter(ops[..i], |fast0|), |fast.next|, fast0, fast.Free(), fastHeld)
      invariant Balanced(TallyAfter(ops[..i], |fast0|), |simple.freed|, simple0, simple.Free(), simpleHeld)
      invariant fastOk == simpleOk == TallyAfter(ops[..i], |fast0|).granted
    {
      TallyNext(ops, |fast0|, i);
      ghost var t := TallyAfter(ops[..i], |fast0|);
      if ops[i].OpAlloc? {
        var ok, ok';
        fastHeld, ok := AllocFast(fast, fastHeld, ops[i], t, fast0);
        simpleHeld, ok' := AllocSimple(simple, simpleHeld, ops[i], t, simple0);
        fastOk, simpleOk := fastOk + [ok], simpleOk + [ok'];
      } else {
        fastHeld := FreeFast(fast, fastHeld, ops[i], t, fast0);
        simpleHeld := FreeSimple(simple, simpleHeld, ops[i], t, simple0);
      }
    }
    assert ops[..|ops|] == ops;
  }

  lemma TallyNext(ops: seq<Op>, free: nat, i: nat)
    requires i < |ops|
    ensures TallyAfter(ops[..i + 1], free) == TallyStep(TallyAfter(ops[..i], free), ops[i])
  {
    assert ops[..i + 1][..i] == ops[..i];
  }

  lemma NothingHeld(ops: seq<Op>, nPages: nat, free: set<int>)
    ensures ops[..0] == [] && TallyAfter([], |free|).granted == []
    ensures Balanced(TallyAfter([], |free|), nPages, free, free, [])
  {
  }

  /** A request of the client to the fast pool; `ok` is the answer. */
  method AllocFast(pool: PagePoolFast, held: seq<int>, op: Op, ghost t: Tally, ghost free0: set<int>)
    returns (held': seq<int>, ok: bool)
    requires pool.Valid() && Balanced(t, |pool.next|, free0, pool.Free(), held) && op.OpAlloc? && op.ts > 0
    modifies pool
    ensures pool.Valid() && |pool.next| == old(|pool.next|)
    ensures Balanced(TallyStep(t, op), |pool.next|, free0, pool.Free(), held')
    ensures TallyStep(t, op).granted == t.granted + [ok]
  {
    ghost var free := pool.Free();
    pool.FreeInRange();
    hide PagePoolFast.Valid, PagePoolFast.Free, Balanced, Held, TallyStep;
    var out := pool.Alloc(op.n, op.hash, op.ts);
    PagesNone(free, held);
    assert |free| < op.n ==> out == [];
    AllocBalanced(t, |pool.next|, free0, free, held, op, out);
    held', ok := held + out, |out| == op.n;
  }

  method AllocSimple(pool: PagePool, held: seq<int>, op: Op, ghost t: Tally, ghost free0: set<int>)
    returns (held': seq<int>, ok: bool)
    requires pool.Valid() && Balanced(t, |pool.freed|, free0, pool.Free(), held) && op.OpAlloc?
    modifies pool
    ensures pool.Valid() && |pool.freed| == old(|pool.freed|)
    ensures Balanced(TallyStep(t, op), |pool.freed|, free0, pool.Free(), held')
    ensures TallyStep(t, op).granted == t.granted + [ok]
  {
    ghost var free := pool.Free();
    pool.FreeInRange();
    hide PagePool.Valid, PagePool.Free, Balanced, Held, TallyStep;
    var out := pool.Alloc(op.n);
    PagesNone(free, held);
    assert |free| < op.n ==> out == [];
    AllocBalanced(t, |pool.freed|, free0, free, held, op, out);
    held', ok := held + out, |out| == op.n;
  }

  /** Returning pages held to the fast pool. */
  method FreeFast(pool: PagePoolFast, held: seq<int>, op: Op, ghost t: Tally, ghost free0: set<int>)
    returns (held': seq<int>)
    requires pool.Valid() && Balanced(t, |pool.next|, free0, pool.Free(), held) && op.OpFree?
    modifies pool
    ensures pool.Valid() && |pool.next| == old(|pool.next|)
    ensures Balanced(TallyStep(t, op), |pool.next|, free0, pool.Free(), held') && TallyStep(t, op).granted == t.granted
  {
    hide PagePoolFast.Valid, PagePoolFast.Free, Balanced, TallyStep, Positions, Chosen, Rest;
    ghost var free := pool.Free();
    Unbalanced(t, |pool.next|, free0, free, held);
    if !Positions(op.at, |held|) {
      RefusedFree(t, op);
      return held;
    }
    FreeBalanced(t, |pool.next|, free0, free, held, op);
    pool.FreePages(Chosen(held, op.at));
    held' := Rest(held, op.at, |held|);
  }

  method FreeSimple(pool: PagePool, held: seq<int>, op: Op, ghost t: Tally, ghost free0: set<int>)
    returns (held': seq<int>)
    requires pool.Valid() && Balanced(t, |pool.freed|, free0, pool.Free(), held) && op.OpFree?
    modifies pool
    ensures pool.Valid() && |pool.freed| == old(|pool.freed|)
    ensures Balanced(TallyStep(t, op), |pool.freed|, free0, pool.Free(), held') && TallyStep(t, op).granted == t.granted
  {
    hide PagePool.Valid, PagePool.Free, Balanced, TallyStep, Positions, Chosen, Rest;
    ghost var free := pool.Free();
    Unbalanced(t, |pool.freed|, free0, free, held);
    if !Positions(op.at, |held|) {
      RefusedFree(t, op);
      return held;
    }
    FreeBalanced(t, |pool.freed|, free0, free, held, op);
    pool.FreePages(Chosen(held, op.at));
    held' := Rest(held, op.at, |held|);
  }

  lemma Unbalanced(t: Tally, nPages: nat, free0: set<int>, free: set<int>, held: seq<int>)
    requires Balanced(t, nPages, free0, free, held)
    ensures Held(held, nPages, free) && |held| == t.held && |free| == t.free
  {
  }

  lemma RefusedFree(t: Tally, op: Op)
    requires op.OpFree? && !Positions(op.at, t.held)
    ensures TallyStep(t, op) == t
  {
  }

  /** What either pool's answer to a request does to the balance. */
  lemma AllocBalanced(t: Tally, nPages: nat, free0: set<int>, free: set<int>, held: seq<int>, op: Op, out: seq<int>)
    requires Balanced(t, nPages, free0, free, held) && op.OpAlloc?
    requires forall p :: p in free ==> 0 <= p < nPages
    requires Distinct(out) && SetOf(out) <= free && |out| == if op.n <= |free| then op.n else 0
    ensures Balanced(TallyStep(t, op), nPages, free0, free - SetOf(out), held + out)
    ensures TallyStep(t, op).granted == t.granted + [|out| == op.n]
  {
    hide Distinct, Held, SetOf;
    DistinctCard(out);
    HeldAfterAlloc(held, nPages, free, out);
    PagesShift(free, held, out);
    if op.n > |free| { PagesNone(free, held); }
  }

  lemma PagesShift(free: set<int>, held: seq<int>, out: seq<int>)
    requires SetOf(out) <= free
    ensures (free - SetOf(out)) + SetOf(held + out) == free + SetOf(held)
  {
    assert forall p :: p in held + out <==> p in held || p in out;
  }

  lemma PagesNone(free: set<int>, held: seq<int>)
    ensures SetOf([]) == {} && free - {} == free && held + [] == held
  {
  }

  lemma FreeBalanced(t: Tally, nPages: nat, free0: set<int>, free: set<int>, held: seq<int>, op: Op)
    requires Balanced(t, nPages, free0, free, held) && op.OpFree? && Positions(op.at, |held|)
    ensures var c := Chosen(held, op.at);
            && Held(c, nPages, free)
            && Balanced(TallyStep(t, op), nPages, free0, free + SetOf(c), Rest(held, op.at, |held|))
            && TallyStep(t, op).granted == t.granted
  {
    ChosenHeld(held, nPages, free, op.at);
    HeldAfterFree(held, nPages, free, op.at);
    RestAndChosen(held, op.at);
    hide Distinct, Held, Rest, Chosen;
  }

  lemma HeldAfterAlloc(held: seq<int>, nPages: nat, free: set<int>, out: seq<int>)
    requires Held(held, nPages, free) && Distinct(out) && SetOf(out) <= free
    requires forall p :: p in free ==> 0 <= p < nPages
    ensures Held(held + out, nPages, free - SetOf(out))
    ensures |free - SetOf(out)| == |free| - |SetOf(out)|
  {
    assert forall p :: p in out ==> p in SetOf(out);
    assert free == (free - SetOf(out)) + SetOf(out);
    var t := held + out;
    forall i, j | 0 <= i < j < |t| ensures t[i] != t[j] {
      if i < |held| <= j { assert held[i] in held && out[j - |held|] in out; }
    }
  }

  lemma HeldAfterFree(held: seq<int>, nPages: nat, free: set<int>, at: seq<nat>)
    requires Held(held, nPages, free) && Positions(at, |held|)
    ensures var c := Chosen(held, at);
            && Held(c, nPages, free) && |free + SetOf(c)| == |free| + |at|
            && Held(Rest(held, at, |held|), nPages, free + SetOf(c))
  {
    var c := Chosen(held, at);
    ChosenHeld(held, nPages, free, at);
    RestPages(held, at, |held|);
    forall p | p in Rest(held, at, |held|) ensures 0 <= p < nPages && p !in free + SetOf(c) {
      var k :| 0 <= k < |held| && k !in at && held[k] == p;
      RestNotChosen(held, at, k);
    }
    hide Positions, Distinct;
    DistinctCard(c);
    assert free !! SetOf(c);
  }

  lemma ChosenHeld(held: seq<int>, nPages: nat, free: set<int>, at: seq<nat>)
    requires Held(held, nPages, free) && Positions(at, |held|)
    ensures Held(Chosen(held, at), nPages, free)
  {
    var c := Chosen(held, at);
    forall i, j | 0 <= i < j < |c| ensures c[i] != c[j] {
      assert held[at[i]] != held[at[j]];
    }
    forall p | p in c ensures 0 <= p < nPages && p !in free {
      var i :| 0 <= i < |c| && c[i] == p;
      assert held[at[i]] in held;
    }
  }

  lemma RestNotChosen(held: seq<int>, at: seq<nat>, k: nat)
    requires Distinct(held) && Positions(at, |held|) && k < |held| && k !in at
    ensures held[k] !in Chosen(held, at) && held[k] in held
  {
    var c := Chosen(held, at);
    forall i | 0 <= i < |c| ensures c[i] != held[k] {
      assert at[i] in at && at[i] != k;
    }
  }
}
