/** Lists without repetition and the sets of their elements. */
module DistinctSeqs {

  ghost predicate Distinct(s: seq<int>) {
    forall i, j :: 0 <= i < j < |s| ==> s[i] != s[j]
  }

  function SetOf(s: seq<int>): set<int> {
    set p | p in s
  }

  lemma {:induction false} DistinctCard(s: seq<int>)
    requires Distinct(s)
    ensures |SetOf(s)| == |s|
    decreases |s|
  {
    if s != [] {
      var r := s[..|s| - 1];
      DistinctCard(r);
      assert s == r + [s[|s| - 1]];
      assert s[|s| - 1] !in r;
      hide Distinct;
      assert SetOf(s) == SetOf(r) + {s[|s| - 1]};
    }
  }

  lemma Append(s: seq<int>, x: int)
    ensures SetOf(s + [x]) == SetOf(s) + {x}
    ensures Distinct(s) && x !in s ==> Distinct(s + [x])
  {
    var t := s + [x];
    assert forall p :: p in t <==> p in s || p == x;
    if x !in s {
      assert forall i :: 0 <= i < |s| ==> t[i] == s[i] && s[i] in s;
    }
  }

  function Range(n: nat): (s: set<int>)
    ensures |s| == n && forall c :: c in s <==> 0 <= c < n
  {
    if n == 0 then {} else Range(n - 1) + {n - 1}
  }

  lemma DistinctBelow(s: seq<int>, n: nat)
    requires Distinct(s) && forall c :: c in s ==> 0 <= c < n
    ensures |s| <= n
    ensures (forall c :: 0 <= c < n ==> c in s) ==> |s| == n
  {
    var elems := SetOf(s);
    DistinctCard(s);
    assert elems <= Range(n);
    assert Range(n) == elems + (Range(n) - elems);
  }
}
