/**
 The index-linked free stacks of the page pools: `head` names the top page, `next[p]` the page below
 `p`, and NIL (-1) ends a stack.
 */
module FreeStack {
  import opened DistinctSeqs

  const NIL: int := -1

  /** Following `next` from `head` visits exactly `stack`, in order, and then stops. */
  ghost predicate Linked(head: int, next: seq<int>, stack: seq<int>)
    decreases |stack|
  {
    if stack == [] then head == NIL
    else head == stack[0] && 0 <= head < |next| && Linked(next[head], next, stack[1..])
  }

  /** What a head reaches is determined by the links. */
  lemma {:induction false} LinkedUnique(head: int, next: seq<int>, s: seq<int>, t: seq<int>)
    requires Linked(head, next, s) && Linked(head, next, t)
    ensures s == t
    decreases |s|
  {
    if s == [] || t == [] {
    } else {
      LinkedUnique(next[head], next, s[1..], t[1..]);
      assert s == [s[0]] + s[1..] && t == [t[0]] + t[1..];
    }
  }

  lemma {:induction false} LinkedSuffix(head: int, next: seq<int>, s: seq<int>, k: nat)
    requires Linked(head, next, s) && k < |s|
    ensures 0 <= s[k] < |next| && Linked(s[k], next, s[k..])
    decreases k
  {
    if k == 0 {
      assert s[0..] == s;
    } else {
      LinkedSuffix(next[head], next, s[1..], k - 1);
      assert s[1..][k - 1..] == s[k..];
    }
  }

  /** A stack that ends is acyclic. */
  lemma {:induction false} LinkedDistinct(head: int, next: seq<int>, s: seq<int>)
    requires Linked(head, next, s)
    ensures Distinct(s)
  {
    forall i, j | 0 <= i < j < |s| ensures s[i] != s[j] {
      LinkedSuffix(head, next, s, i);
      LinkedSuffix(head, next, s, j);
      if s[i] == s[j] {
        LinkedUnique(s[i], next, s[i..], s[j..]);
      }
    }
  }

  /** A link outside a stack may be rewritten without disturbing it. */
  lemma {:induction false} LinkedFrame(head: int, next: seq<int>, s: seq<int>, p: int, v: int)
    requires Linked(head, next, s) && 0 <= p < |next| && p !in s
    ensures Linked(head, next[p := v], s)
    decreases |s|
  {
    if s != [] {
      assert s[0] != p;
      LinkedFrame(next[head], next, s[1..], p, v);
    }
  }

  /** Pushing `p` links it above a stack that does not contain it. */
  lemma LinkedPush(head: int, next: seq<int>, s: seq<int>, p: int)
    requires Linked(head, next, s) && 0 <= p < |next| && p !in s
    ensures Linked(p, next[p := head], [p] + s)
  {
    LinkedFrame(head, next, s, p, head);
    assert ([p] + s)[1..] == s;
  }

  /** One stack per shard; a page lives only in the shard recorded for it. */
  ghost predicate Shards(heads: seq<int>, next: seq<int>, shard: seq<nat>, stacks: seq<seq<int>>) {
    && |stacks| == |heads| && |shard| == |next|
    && (forall p :: 0 <= p < |shard| ==> shard[p] < |heads|)
    && (forall s :: 0 <= s < |heads| ==> Linked(heads[s], next, stacks[s]))
    && (forall s, p {:trigger p in stacks[s]} :: 0 <= s < |stacks| && p in stacks[s] ==>
        0 <= p < |next| && shard[p] == s)
  }
}
