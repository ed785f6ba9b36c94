/** Inserting the missing barriers, over whole files of kernels. */
module SyncFix {
  import opened SyncDiagnose

  // ---- all barriers at once ----

  /** The file with a barrier before every line of `marks`, from line `i` on. */
  ghost function WeaveFrom(lines: seq<Line>, marks: set<nat>, i: nat): seq<Line>
    requires i <= |lines|
    decreases |lines| - i
  {
    if i == |lines| then []
    else (if i in marks then [BARRIER] else []) + [lines[i]] + WeaveFrom(lines, marks, i + 1)
  }

  ghost function Woven(lines: seq<Line>, marks: set<nat>): seq<Line> { WeaveFrom(lines, marks, 0) }

  /** Where line `i`, or the barrier put before it, ends up. */
  ghost function Pos(marks: set<nat>, i: nat): nat {
    if i == 0 then 0 else Pos(marks, i - 1) + if i - 1 in marks then 2 else 1
  }

  lemma {:induction false} WovenFrom(lines: seq<Line>, marks: set<nat>, i: nat)
    requires i <= |lines|
    ensures Pos(marks, i) <= |Woven(lines, marks)| && Woven(lines, marks)[Pos(marks, i)..] == WeaveFrom(lines, marks, i)
  {
    if i > 0 {
      WovenFrom(lines, marks, i - 1);
      var w, p := Woven(lines, marks), Pos(marks, i - 1);
      var step := if i - 1 in marks then 2 else 1;
      assert w[p..][step..] == w[p + step..];
    }
  }

  lemma WovenAt(lines: seq<Line>, marks: set<nat>, i: nat)
    requires i < |lines|
    ensures var w, p := Woven(lines, marks), Pos(marks, i);
            && Pos(marks, i + 1) <= |w|
            && (i !in marks ==> w[p] == lines[i])
            && (i in marks ==> w[p] == BARRIER && w[p + 1] == lines[i])
  {
    WovenFrom(lines, marks, i);
    WovenFrom(lines, marks, i + 1);
    var w, p := Woven(lines, marks), Pos(marks, i);
    assert w[p..][0] == w[p];
    if i in marks { assert w[p..][1] == w[p + 1]; }
  }

  lemma WovenEnd(lines: seq<Line>, marks: set<nat>)
    ensures Pos(marks, |lines|) == |Woven(lines, marks)|
  {
    WovenFrom(lines, marks, |lines|);
  }

  lemma {:induction false} PosGrows(marks: set<nat>, i: nat, j: nat)
    requires i <= j
    ensures Pos(marks, i) + (j - i) <= Pos(marks, j)
    decreases j
  {
    if i < j { PosGrows(marks, i, j - 1); }
  }

  /** Every line of the result is an original line or the barrier before one. */
  lemma {:induction false} Locate(marks: set<nat>, lo: nat, hi: nat, p: nat) returns (i: nat)
    requires lo <= hi && Pos(marks, lo) <= p < Pos(marks, hi)
    ensures lo <= i < hi && (p == Pos(marks, i) || (i in marks && p == Pos(marks, i) + 1))
    decreases hi
  {
    if hi == lo || p >= Pos(marks, hi - 1) {
      i := hi - 1;
    } else {
      i := Locate(marks, lo, hi - 1, p);
    }
  }

  // ---- bottom-up insertion ----

  function Insert(lines: seq<Line>, i: nat): seq<Line>
    requires i <= |lines|
  {
    lines[..i] + [BARRIER] + lines[i..]
  }

  ghost predicate Descending(s: seq<nat>) { forall a, b :: 0 <= a < b < |s| ==> s[a] > s[b] }

  lemma WeaveUnmarked(lines: seq<Line>, marks: set<nat>, i: nat)
    requires i < |lines| && i !in marks
    ensures WeaveFrom(lines, marks, i) == [lines[i]] + WeaveFrom(lines, marks, i + 1)
  {
  }

  lemma {:induction false} WeaveGap(lines: seq<Line>, marks: set<nat>, a: nat, b: nat)
    requires a <= b <= |lines| && forall i :: a <= i < b ==> i !in marks
    ensures WeaveFrom(lines, marks, a) == lines[a..b] + WeaveFrom(lines, marks, b)
    decreases b - a
  {
    if a < b {
      WeaveGap(lines, marks, a + 1, b);
      WeaveUnmarked(lines, marks, a);
      hide WeaveFrom;
      var rest := WeaveFrom(lines, marks, b);
      assert lines[a..b] == [lines[a]] + lines[a + 1..b];
      assert [lines[a]] + (lines[a + 1..b] + rest) == ([lines[a]] + lines[a + 1..b]) + rest;
    }
  }

  /** From the bottom up, line numbers above stay valid: the result has exactly the wanted barriers. */
  method InsertBottomUp(lines: seq<Line>, numbers: seq<nat>, ghost marks: set<nat>) returns (out: seq<Line>)
    requires Descending(numbers) && forall k :: 0 <= k < |numbers| ==> 1 <= numbers[k] <= |lines|
    requires forall i: nat :: i in marks <==> i + 1 in numbers
    ensures out == Woven(lines, marks)
  {
    out := lines;
    ghost var d: nat := |lines|;
    assert WeaveFrom(lines, marks, |lines|) == [];
    for k := 0 to |numbers|
      invariant d <= |lines| && out == lines[..d] + WeaveFrom(lines, marks, d)
      invariant forall j :: 0 <= j < k ==> d < numbers[j]
      invariant forall j :: k <= j < |numbers| ==> numbers[j] <= d
    {
      var i := numbers[k] - 1;
      assert numbers[k] in numbers;
      NoneBetween(numbers, k, marks, i + 1, d);
      WeaveGap(lines, marks, i + 1, d);
      InsertWeaves(lines, marks, i, d, out);
      out := Insert(out, i);
      d := i;
    }
    forall i | 0 <= i < d ensures i !in marks { NotListed(numbers, marks, i, d); }
    WeaveGap(lines, marks, 0, d);
  }

  lemma NotListed(numbers: seq<nat>, marks: set<nat>, i: nat, d: nat)
    requires forall i: nat :: i in marks <==> i + 1 in numbers
    requires i < d && forall j :: 0 <= j < |numbers| ==> d < numbers[j]
    ensures i !in marks
  {
  }

  lemma NoneBetween(numbers: seq<nat>, k: nat, marks: set<nat>, a: nat, d: nat)
    requires Descending(numbers) && k < |numbers| && a == numbers[k] && a <= d
    requires forall i: nat :: i in marks <==> i + 1 in numbers
    requires forall j :: 0 <= j < k ==> d < numbers[j]
    ensures forall i :: a <= i < d ==> i !in marks
  {
    forall i | a <= i < d ensures i !in marks {
      forall j | 0 <= j < |numbers| ensures numbers[j] != i + 1 {
        if j > k { assert numbers[k] > numbers[j]; }
      }
    }
  }

  lemma InsertWeaves(lines: seq<Line>, marks: set<nat>, i: nat, d: nat, out: seq<Line>)
    requires i < d <= |lines| && i in marks && out == lines[..d] + WeaveFrom(lines, marks, d)
    requires WeaveFrom(lines, marks, i + 1) == lines[i + 1..d] + WeaveFrom(lines, marks, d)
    ensures Insert(out, i) == lines[..i] + WeaveFrom(lines, marks, i)
  {
    WeaveMarked(lines, marks, i);
    hide WeaveFrom;
    CutAt(lines, i, d, WeaveFrom(lines, marks, d), out);
    var tail := [lines[i]] + WeaveFrom(lines, marks, i + 1);
    assert lines[..i] + [BARRIER] + tail == lines[..i] + ([BARRIER] + tail);
  }

  lemma CutAt(lines: seq<Line>, i: nat, d: nat, rest: seq<Line>, out: seq<Line>)
    requires i < d <= |lines| && out == lines[..d] + rest
    ensures out[..i] == lines[..i] && out[i..] == [lines[i]] + (lines[i + 1..d] + rest)
  {
  }

  lemma WeaveMarked(lines: seq<Line>, marks: set<nat>, i: nat)
    requires i < |lines| && i in marks
    ensures WeaveFrom(lines, marks, i) == [BARRIER] + ([lines[i]] + WeaveFrom(lines, marks, i + 1))
  {
  }

  // ---- one scope of the woven file ----

  /** Barriers only help: an array seen as written after weaving was seen as written before. */
  lemma {:induction false} WrittenStays(lines: seq<Line>, marks: set<nat>, lo: nat, i: nat, n: Name)
    requires lo <= i <= |lines|
    ensures Pos(marks, lo) <= Pos(marks, i) <= |Woven(lines, marks)|
    ensures StateAt(Woven(lines, marks), Pos(marks, lo), Pos(marks, i), n).Written? ==>
            StateAt(lines, lo, i, n).Written?
    decreases i
  {
    PosGrows(marks, lo, i);
    WovenFrom(lines, marks, i);
    if i > lo {
      WrittenStays(lines, marks, lo, i - 1, n);
      WovenAt(lines, marks, i - 1);
      hide Woven;
      var w, lo', p := Woven(lines, marks), Pos(marks, lo), Pos(marks, i - 1);
      StateStep(w, lo', p);
      if i - 1 in marks { StateStep(w, lo', p + 1); }
      StateStep(lines, lo, i - 1);
      hide StateAt;
    }
  }

  /** If every read that misses a barrier is marked, the woven scope has none, whatever else is marked. */
  lemma WovenScopeClean(lines: seq<Line>, marks: set<nat>, lo: nat, hi: nat, n: Name, p: nat)
    requires lo <= hi <= |lines|
    requires forall i :: lo <= i < hi && Missing(lines, lo, i, n) ==> i in marks
    requires Pos(marks, lo) <= p < Pos(marks, hi)
    ensures p < |Woven(lines, marks)| && !Missing(Woven(lines, marks), Pos(marks, lo), p, n)
  {
    var w, lo' := Woven(lines, marks), Pos(marks, lo);
    var i := Locate(marks, lo, hi, p);
    WovenAt(lines, marks, i);
    WrittenStays(lines, marks, lo, i, n);
    WrittenMeans(lines, lo, i, n);
    WrittenMeans(w, lo', p, n);
    hide Woven, Pos;
  }

  // ---- files of kernels ----

  /** The lines below `n` that begin a kernel. */
  function Starts(lines: seq<Line>, n: nat): (s: seq<nat>)
    requires n <= |lines|
    ensures forall k :: 0 <= k < |s| ==> s[k] < n && lines[s[k]].kernel
    ensures forall j, k :: 0 <= j < k < |s| ==> s[j] < s[k]
  {
    if n == 0 then [] else Starts(lines, n - 1) + if lines[n - 1].kernel then [n - 1] else []
  }

  lemma {:induction false} StartsAll(lines: seq<Line>, n: nat, i: nat)
    requires i < n <= |lines| && lines[i].kernel
    ensures i in Starts(lines, n)
  {
    if i < n - 1 { StartsAll(lines, n - 1, i); }
  }

  /** The ranges scanned on their own: from each kernel marker to the next, or the whole file if there is none. */
  function Scopes(lines: seq<Line>): (s: seq<(nat, nat)>)
    ensures |s| > 0 && forall k :: 0 <= k < |s| ==> s[k].0 <= s[k].1 <= |lines|
  {
    var starts := Starts(lines, |lines|);
    if starts == [] then [(0, |lines|)] else seq(|starts|, k requires 0 <= k < |starts| => Scope(lines, starts, k))
  }

  function Scope(lines: seq<Line>, starts: seq<nat>, k: nat): (nat, nat)
    requires k < |starts|
  {
    (starts[k], if k + 1 < |starts| then starts[k + 1] else |lines|)
  }

  /** The shared arrays declared in a range, in order, repeats included. */
  function Names(lines: seq<Line>, lo: nat, hi: nat): seq<Name>
    requires lo <= hi <= |lines|
    decreases hi
  {
    if hi == lo then []
    else Names(lines, lo, hi - 1) + if lines[hi - 1].decl.Declares? then [lines[hi - 1].decl.name] else []
  }

  lemma {:induction false} NamesAre(lines: seq<Line>, lo: nat, hi: nat, n: Name)
    requires lo <= hi <= |lines|
    ensures n in Names(lines, lo, hi) <==> exists d :: lo <= d < hi && lines[d].decl == Declares(n)
    decreases hi
  {
    if lo < hi {
      NamesAre(lines, lo, hi - 1, n);
      assert lines[hi - 1].decl == Declares(n) ==> n in Names(lines, lo, hi);
    }
  }

  /** Lines `lo` up to `hi` are a kernel: a marker and everything up to the next one, or a file without markers. */
  ghost predicate Kernel(lines: seq<Line>, lo: nat, hi: nat) {
    && lo < hi <= |lines| && (hi == |lines| || lines[hi].kernel)
    && (lines[lo].kernel || (lo == 0 && hi == |lines|)) && forall j :: lo < j < hi ==> !lines[j].kernel
  }

  /** The list names exactly the lines with a marker, in order. */
  ghost predicate Markers(lines: seq<Line>, s: seq<nat>) {
    && (forall k :: 0 <= k < |s| ==> s[k] < |lines| && lines[s[k]].kernel)
    && (forall j, k :: 0 <= j < k < |s| ==> s[j] < s[k])
    && forall i: nat :: i < |lines| && lines[i].kernel ==> i in s
  }

  lemma StartsMarkers(lines: seq<Line>)
    ensures Markers(lines, Starts(lines, |lines|))
  {
    forall i: nat | i < |lines| && lines[i].kernel ensures i in Starts(lines, |lines|) {
      StartsAll(lines, |lines|, i);
    }
  }

  /**
   The scopes are the kernels: every marker begins one, which ends at the next marker or with the file, and a
   file without a marker is one.
   */
  lemma ScopesAre(lines: seq<Line>, lo: nat, hi: nat)
    requires lines != []
    ensures (lo, hi) in Scopes(lines) <==>
            && lo < hi <= |lines| && (hi == |lines| || lines[hi].kernel)
            && (lines[lo].kernel || (lo == 0 && hi == |lines|)) && forall j :: lo < j < hi ==> !lines[j].kernel
  {
    var s := Starts(lines, |lines|);
    StartsMarkers(lines);
    hide Starts;
    if s == [] {
      assert Scopes(lines) == [(0, |lines|)];
    } else {
      hide Markers;
      if Kernel(lines, lo, hi) {
        KernelScope(lines, s, lo, hi);
        var k :| 0 <= k < |s| && Scope(lines, s, k) == (lo, hi);
        assert Scopes(lines)[k] == (lo, hi);
      }
      if (lo, hi) in Scopes(lines) {
        var k :| 0 <= k < |s| && Scopes(lines)[k] == (lo, hi);
        ScopeKernel(lines, s, k);
      }
    }
  }

  lemma KernelScope(lines: seq<Line>, s: seq<nat>, lo: nat, hi: nat)
    requires Markers(lines, s) && s != [] && Kernel(lines, lo, hi)
    ensures exists k :: 0 <= k < |s| && Scope(lines, s, k) == (lo, hi)
  {
    assert lines[s[0]].kernel;
    var k :| 0 <= k < |s| && s[k] == lo;
    if hi < |lines| {
      var m :| 0 <= m < |s| && s[m] == hi;
      assert k < m;
      NextMarker(lines, s, k);
    } else {
      NextMarker(lines, s, k);
    }
    assert Scope(lines, s, k) == (lo, hi);
  }

  lemma NextMarker(lines: seq<Line>, s: seq<nat>, k: nat)
    requires Markers(lines, s) && k < |s|
    ensures k + 1 < |s| ==> s[k] < s[k + 1] < |lines| && lines[s[k + 1]].kernel
    ensures forall m :: k + 1 < m < |s| ==> s[k + 1] < s[m]
  {
  }

  lemma ScopeKernel(lines: seq<Line>, s: seq<nat>, k: nat)
    requires Markers(lines, s) && k < |s|
    ensures Kernel(lines, Scope(lines, s, k).0, Scope(lines, s, k).1)
  {
    var (lo, hi) := Scope(lines, s, k);
    forall j | lo < j < hi ensures !lines[j].kernel {
      if lines[j].kernel { MarkerBeyond(lines, s, k, j); }
    }
  }

  lemma MarkerBeyond(lines: seq<Line>, s: seq<nat>, k: nat, j: nat)
    requires Markers(lines, s) && k < |s| && s[k] < j < |lines| && lines[j].kernel
    ensures k + 1 < |s| && s[k + 1] <= j
  {
    var m :| 0 <= m < |s| && s[m] == j;
    assert m > k;
  }

  /** No two of them overlap. */
  lemma ScopesApart(lines: seq<Line>, j: nat, k: nat)
    requires j < k < |Scopes(lines)|
    ensures Scopes(lines)[j].1 <= Scopes(lines)[k].0
  {
    var s := Starts(lines, |lines|);
    StartsMarkers(lines);
    hide Starts;
    assert Scopes(lines)[j] == Scope(lines, s, j) && Scopes(lines)[k] == Scope(lines, s, k);
    hide Scopes;
    if j + 1 < k { assert s[j + 1] < s[k]; }
  }

  ghost predicate FoundIn(lines: seq<Line>, k: nat, f: Finding)
    requires k < |Scopes(lines)|
  {
    var (lo, hi) := Scopes(lines)[k];
    Justified(lines, lo, hi, Names(lines, lo, hi), f)
  }

  /** The barrier findings of a file are those of its scopes. */
  method AnalyzeFile(lines: seq<Line>) returns (findings: seq<Finding>)
    ensures forall f :: f in findings <==> exists k :: 0 <= k < |Scopes(lines)| && FoundIn(lines, k, f)
    ensures forall f :: f in findings <==> exists lo, hi :: InKernel(lines, lo, hi, f)
  {
    hide Scopes, Names, Justified;
    var scopes := Scopes(lines);
    findings := [];
    for k := 0 to |scopes|
      invariant forall f :: f in findings <==> exists j :: 0 <= j < k && FoundIn(lines, j, f)
    {
      var (lo, hi) := scopes[k];
      var found := DetectSyncIssues(lines, lo, hi, Names(lines, lo, hi));
      assert forall f :: f in found <==> FoundIn(lines, k, f);
      hide FoundIn;
      findings := findings + found;
    }
    forall f ensures f in findings <==> exists lo, hi :: InKernel(lines, lo, hi, f) { FoundMeans(lines, f); }
  }

  /** The kernel declares the array on some line of it, and the finding's line is accused within it. */
  ghost predicate InKernel(lines: seq<Line>, lo: nat, hi: nat, f: Finding) {
    && Kernel(lines, lo, hi) && lo < f.line <= hi
    && (exists d :: lo <= d < hi && lines[d].decl == Declares(f.name))
    && match f.pattern
       case MissingSync => Missing(lines, lo, f.line - 1, f.name)
       case CarriedOverwrite => Overwrites(lines, lo, f.line - 1, f.name)
  }

  lemma FoundMeans(lines: seq<Line>, f: Finding)
    ensures (exists k :: 0 <= k < |Scopes(lines)| && FoundIn(lines, k, f)) <==>
            exists lo, hi :: InKernel(lines, lo, hi, f)
  {
    hide Scopes, Missing, Overwrites, Kernel, Names;
    forall k | 0 <= k < |Scopes(lines)| && FoundIn(lines, k, f)
      ensures InKernel(lines, Scopes(lines)[k].0, Scopes(lines)[k].1, f)
    {
      var (lo, hi) := Scopes(lines)[k];
      assert (lo, hi) in Scopes(lines);
      KernelIsScope(lines, lo, hi);
      NamesAre(lines, lo, hi, f.name);
    }
    forall lo: nat, hi: nat | InKernel(lines, lo, hi, f)
      ensures exists k :: 0 <= k < |Scopes(lines)| && FoundIn(lines, k, f)
    {
      KernelIsScope(lines, lo, hi);
      var k :| 0 <= k < |Scopes(lines)| && Scopes(lines)[k] == (lo, hi);
      NamesAre(lines, lo, hi, f.name);
      assert FoundIn(lines, k, f);
    }
  }

  lemma KernelIsScope(lines: seq<Line>, lo: nat, hi: nat)
    ensures Kernel(lines, lo, hi) ==> (lo, hi) in Scopes(lines)
    ensures (lo, hi) in Scopes(lines) && lo < hi ==> Kernel(lines, lo, hi)
  {
    if lines != [] { ScopesAre(lines, lo, hi); }
    hide Scopes;
  }

  /** A line with a read that misses a barrier. */
  ghost predicate FlaggedLine(lines: seq<Line>, i: nat) {
    i < |lines| && exists k, n :: FlaggedIn(lines, k, i, n)
  }

  ghost predicate FlaggedIn(lines: seq<Line>, k: nat, i: nat, n: Name) {
    && k < |Scopes(lines)|
    && var (lo, hi) := Scopes(lines)[k];
       lo <= i < hi && n in Names(lines, lo, hi) && Missing(lines, lo, i, n)
  }

  ghost function Marks(lines: seq<Line>): set<nat> {
    set i: nat | i < |lines| && FlaggedLine(lines, i)
  }

  /** The marked lines are the reads that miss a barrier in their kernel, of an array that it declares. */
  lemma MarksMean(lines: seq<Line>, line: nat)
    requires line >= 1
    ensures line - 1 in Marks(lines) <==> exists lo, hi, n :: InKernel(lines, lo, hi, Finding(line, MissingSync, n))
  {
    hide Scopes, Names, Missing, InKernel;
    var i := line - 1;
    if i in Marks(lines) {
      var k, n :| FlaggedIn(lines, k, i, n);
      assert FoundIn(lines, k, Finding(line, MissingSync, n));
      FoundMeans(lines, Finding(line, MissingSync, n));
    }
    if exists lo, hi, n :: InKernel(lines, lo, hi, Finding(line, MissingSync, n)) {
      var lo, hi, n :| InKernel(lines, lo, hi, Finding(line, MissingSync, n));
      FoundMeans(lines, Finding(line, MissingSync, n));
      var k :| 0 <= k < |Scopes(lines)| && FoundIn(lines, k, Finding(line, MissingSync, n));
      assert FlaggedIn(lines, k, i, n);
    }
  }

  /** The line numbers to fix, largest first, each once. */
  function FixLines(findings: seq<Finding>, n: nat): (s: seq<nat>)
    ensures Descending(s) && forall k :: 0 <= k < |s| ==> 1 <= s[k] <= n
    ensures forall i :: i in s <==> 1 <= i <= n && exists f :: f in findings && f.line == i && f.pattern == MissingSync
  {
    if n == 0 then []
    else
      var here := exists f :: f in findings && f.line == n && f.pattern == MissingSync;
      (if here then [n] else []) + FixLines(findings, n - 1)
  }

  // ---- the fixed file ----

  ghost predicate SparesKernels(lines: seq<Line>, marks: set<nat>) {
    forall i :: i in marks ==> i < |lines| && !lines[i].kernel
  }

  ghost predicate Shifted(s: seq<nat>, s': seq<nat>, marks: set<nat>) {
    |s'| == |s| && forall k :: 0 <= k < |s| ==> s'[k] == Pos(marks, s[k])
  }

  lemma {:induction false} StartsWoven(lines: seq<Line>, marks: set<nat>, n: nat)
    requires n <= |lines| && SparesKernels(lines, marks)
    ensures Pos(marks, n) <= |Woven(lines, marks)|
    ensures Shifted(Starts(lines, n), Starts(Woven(lines, marks), Pos(marks, n)), marks)
  {
    WovenFrom(lines, marks, n);
    if n > 0 {
      StartsWoven(lines, marks, n - 1);
      StartsMove(lines, marks, n - 1);
      StartsStep(lines, n - 1);
      hide Woven, Shifted, Starts, Pos;
      ShiftedPush(Starts(lines, n - 1), Starts(Woven(lines, marks), Pos(marks, n - 1)), marks, n - 1);
    }
  }

  lemma StartsMove(lines: seq<Line>, marks: set<nat>, i: nat)
    requires i < |lines| && SparesKernels(lines, marks)
    ensures Pos(marks, i) <= Pos(marks, i + 1) <= |Woven(lines, marks)|
    ensures var before := Starts(Woven(lines, marks), Pos(marks, i));
            Starts(Woven(lines, marks), Pos(marks, i + 1)) ==
                if lines[i].kernel then before + [Pos(marks, i)] else before
  {
    hide Woven, WeaveFrom, Starts, Pos;
    WovenAt(lines, marks, i);
    PosNext(marks, i);
    var w, p := Woven(lines, marks), Pos(marks, i);
    StartsStep(w, p);
    if i in marks { StartsStep(w, p + 1); }
  }

  lemma PosNext(marks: set<nat>, i: nat)
    ensures Pos(marks, i + 1) == Pos(marks, i) + if i in marks then 2 else 1
  {
  }

  lemma ShiftedPush(s: seq<nat>, s': seq<nat>, marks: set<nat>, i: nat)
    requires Shifted(s, s', marks)
    ensures Shifted(s + [i], s' + [Pos(marks, i)], marks)
  {
  }

  lemma StartsStep(lines: seq<Line>, n: nat)
    requires n < |lines|
    ensures Starts(lines, n + 1) == if lines[n].kernel then Starts(lines, n) + [n] else Starts(lines, n)
  {
  }

  lemma ScopesWoven(lines: seq<Line>, marks: set<nat>, k: nat)
    requires SparesKernels(lines, marks)
    ensures k < |Scopes(lines)| <==> k < |Scopes(Woven(lines, marks))|
    ensures k < |Scopes(lines)| ==>
            Scopes(Woven(lines, marks))[k] == (Pos(marks, Scopes(lines)[k].0), Pos(marks, Scopes(lines)[k].1))
  {
    hide Woven, WeaveFrom, Starts, Pos;
    WovenEnd(lines, marks);
    StartsWoven(lines, marks, |lines|);
    var s, s' := Starts(lines, |lines|), Starts(Woven(lines, marks), |Woven(lines, marks)|);
    assert s == [] ==> Pos(marks, 0) == 0 by { PosZero(marks); }
    if s != [] && k < |s| { ScopeShifted(lines, Woven(lines, marks), s, s', marks, k); }
  }

  lemma PosZero(marks: set<nat>)
    ensures Pos(marks, 0) == 0
  {
  }

  lemma ScopeShifted(lines: seq<Line>, w: seq<Line>, s: seq<nat>, s': seq<nat>, marks: set<nat>, k: nat)
    requires Shifted(s, s', marks) && k < |s| && |w| == Pos(marks, |lines|)
    ensures Scope(w, s', k) == (Pos(marks, Scope(lines, s, k).0), Pos(marks, Scope(lines, s, k).1))
  {
  }

  lemma {:induction false} NamesWoven(lines: seq<Line>, marks: set<nat>, lo: nat, hi: nat)
    requires lo <= hi <= |lines|
    ensures Pos(marks, lo) <= Pos(marks, hi) <= |Woven(lines, marks)|
    ensures Names(Woven(lines, marks), Pos(marks, lo), Pos(marks, hi)) == Names(lines, lo, hi)
    decreases hi
  {
    hide Woven, WeaveFrom;
    PosGrows(marks, lo, hi);
    WovenFrom(lines, marks, hi);
    if lo < hi {
      NamesWoven(lines, marks, lo, hi - 1);
      NamesMove(lines, marks, lo, hi - 1);
      NamesStep(lines, lo, hi - 1);
      hide Names, Pos;
    }
  }

  lemma NamesMove(lines: seq<Line>, marks: set<nat>, lo: nat, i: nat)
    requires lo <= i < |lines|
    ensures Pos(marks, lo) <= Pos(marks, i) <= Pos(marks, i + 1) <= |Woven(lines, marks)|
    ensures var before := Names(Woven(lines, marks), Pos(marks, lo), Pos(marks, i));
            Names(Woven(lines, marks), Pos(marks, lo), Pos(marks, i + 1)) ==
            before + if lines[i].decl.Declares? then [lines[i].decl.name] else []
  {
    hide Woven, WeaveFrom, Names;
    PosGrows(marks, lo, i);
    WovenAt(lines, marks, i);
    var w, lo', p := Woven(lines, marks), Pos(marks, lo), Pos(marks, i);
    NamesStep(w, lo', p);
    if i in marks { NamesStep(w, lo', p + 1); }
  }

  lemma NamesStep(lines: seq<Line>, lo: nat, i: nat)
    requires lo <= i < |lines|
    ensures Names(lines, lo, i + 1) ==
            Names(lines, lo, i) + if lines[i].decl.Declares? then [lines[i].decl.name] else []
  {
  }

  /** A flagged line is inside its scope, so no kernel marker is pushed down. */
  lemma FlaggedInside(lines: seq<Line>, k: nat, i: nat, n: Name)
    requires i < |lines| && FlaggedIn(lines, k, i, n)
    ensures !lines[i].kernel
  {
    FlaggedAfterStart(lines, k, i, n);
    if lines[i].kernel { StartsAll(lines, |lines|, i); }
    hide Missing, Names, Starts, FlaggedIn;
    var s := Starts(lines, |lines|);
    forall m | 0 <= m < |s| ensures s[m] != i {
      if m > k && k + 1 < |s| { assert s[k + 1] <= s[m]; }
    }
  }

  lemma FlaggedAfterStart(lines: seq<Line>, k: nat, i: nat, n: Name)
    requires FlaggedIn(lines, k, i, n)
    ensures k < |Scopes(lines)| && Scopes(lines)[k].0 < i < Scopes(lines)[k].1
  {
    hide Scopes, Names;
  }

  lemma MarksSpareKernels(lines: seq<Line>)
    ensures SparesKernels(lines, Marks(lines))
  {
    forall i | i in Marks(lines) ensures i < |lines| && !lines[i].kernel {
      var k, n :| FlaggedIn(lines, k, i, n);
      FlaggedInside(lines, k, i, n);
    }
  }

  /** Detecting again in the fixed file finds no read that misses a barrier, in any kernel. */
  lemma FixedFileIsClean(lines: seq<Line>, p: nat)
    ensures !FlaggedLine(Woven(lines, Marks(lines)), p)
  {
    var marks := Marks(lines);
    var w := Woven(lines, marks);
    MarksSpareKernels(lines);
    hide Woven, Missing;
    forall k, n ensures !FlaggedIn(w, k, p, n) {
      if FlaggedIn(w, k, p, n) { NotFlagged(lines, marks, k, n, p); }
    }
  }

  lemma NotFlagged(lines: seq<Line>, marks: set<nat>, k: nat, n: Name, p: nat)
    requires marks == Marks(lines) && SparesKernels(lines, marks)
    ensures !FlaggedIn(Woven(lines, marks), k, p, n)
  {
    var w := Woven(lines, marks);
    hide Woven, Scopes, Names, Missing;
    if FlaggedIn(w, k, p, n) {
      ScopesWoven(lines, marks, k);
      var (lo, hi) := Scopes(lines)[k];
      NamesWoven(lines, marks, lo, hi);
      forall i | lo <= i < hi && Missing(lines, lo, i, n) ensures i in marks {
        assert FlaggedIn(lines, k, i, n);
      }
      WovenScopeClean(lines, marks, lo, hi, n, p);
    }
  }

  /** The fixer: detect, insert bottom-up; the result is clean and otherwise unchanged. */
  method Suggest(lines: seq<Line>) returns (out: seq<Line>)
    ensures out == Woven(lines, Marks(lines))
    ensures forall p :: !FlaggedLine(out, p)
  {
    var findings := AnalyzeFile(lines);
    var numbers := FixLines(findings, |lines|);
    forall i: nat ensures i in Marks(lines) <==> i + 1 in numbers { MarksAre(lines, findings, i); }
    out := InsertBottomUp(lines, numbers, Marks(lines));
    forall p ensures !FlaggedLine(out, p) { FixedFileIsClean(lines, p); }
  }

  lemma MarksAre(lines: seq<Line>, findings: seq<Finding>, i: nat)
    requires forall f :: f in findings <==> exists k :: 0 <= k < |Scopes(lines)| && FoundIn(lines, k, f)
    ensures i in Marks(lines) <==>
            i < |lines| && exists f :: f in findings && f.line == i + 1 && f.pattern == MissingSync
  {
    hide Scopes, Names, Missing;
    if i in Marks(lines) {
      var k, n :| FlaggedIn(lines, k, i, n);
      var f := Finding(i + 1, MissingSync, n);
      assert FoundIn(lines, k, f);
      assert f in findings;
    }
    forall f | i < |lines| && f in findings && f.line == i + 1 && f.pattern == MissingSync ensures i in Marks(lines) {
      var k :| 0 <= k < |Scopes(lines)| && FoundIn(lines, k, f);
      assert FlaggedIn(lines, k, i, f.name);
    }
  }

  // ---- the other finding in the fixed file ----

  /** A barrier stands at line `s` of the fixed file, or before it, and no write of the array follows on the line. */
  predicate BarrierAt(lines: seq<Line>, marks: set<nat>, s: nat, n: Name)
    requires s < |lines|
  {
    lines[s].sync || (s in marks && !Writes(lines[s], n))
  }

  /** Strictly between the two lines the fixed file has no barrier, and no write of the array. */
  ghost predicate Calm(lines: seq<Line>, marks: set<nat>, s: nat, i: nat, n: Name)
    requires i <= |lines|
  {
    forall k :: s < k < i ==> Passes(lines, marks, k) && !Writes(lines[k], n)
  }

  /** In the fixed file the array has been read, and not written, since the barrier at `s`. */
  ghost predicate ReadSinceFix(lines: seq<Line>, marks: set<nat>, s: nat, i: nat, n: Name)
    requires s < i <= |lines|
  {
    && BarrierAt(lines, marks, s, n) && Calm(lines, marks, s, i, n)
    && exists k :: s <= k < i && Reads(lines[k], n)
  }

  /** In the fixed file the array has not been touched since the barrier at `s`. */
  ghost predicate UntouchedFix(lines: seq<Line>, marks: set<nat>, s: nat, i: nat, n: Name)
    requires s < i <= |lines|
  {
    && BarrierAt(lines, marks, s, n) && Calm(lines, marks, s, i, n)
    && forall k :: s <= k < i ==> !Reads(lines[k], n)
  }

  /** What the detector knows of an array before line `i` of the fixed file, in terms of the original. */
  ghost function FixedState(lines: seq<Line>, marks: set<nat>, lo: nat, i: nat, n: Name): Status
    requires lo <= i <= |lines|
  {
    WrittenStays(lines, marks, lo, i, n);
    StateAt(Woven(lines, marks), Pos(marks, lo), Pos(marks, i), n)
  }

  lemma FixedStep(lines: seq<Line>, marks: set<nat>, lo: nat, i: nat, n: Name)
    requires lo <= i < |lines|
    ensures FixedState(lines, marks, lo, i + 1, n) ==
            Next(if i in marks then Synced else FixedState(lines, marks, lo, i, n), lines[i], n)
  {
    hide Woven, WeaveFrom;
    WrittenStays(lines, marks, lo, i, n);
    WrittenStays(lines, marks, lo, i + 1, n);
    WovenAt(lines, marks, i);
    var w, lo', p := Woven(lines, marks), Pos(marks, lo), Pos(marks, i);
    StateStep(w, lo', p);
    if i in marks { StateStep(w, lo', p + 1); }
    hide StateAt;
  }

  lemma {:induction false} FixedSyncedMeans(lines: seq<Line>, marks: set<nat>, lo: nat, i: nat, n: Name)
    requires lo <= i <= |lines|
    ensures FixedState(lines, marks, lo, i, n).Synced? <==>
            exists s :: lo <= s < i && UntouchedFix(lines, marks, s, i, n)
    decreases i
  {
    hide FixedState;
    if i == lo {
      FixedStarts(lines, marks, lo, n);
    } else {
      FixedSyncedMeans(lines, marks, lo, i - 1, n);
      FixedStep(lines, marks, lo, i - 1, n);
      if BarrierAt(lines, marks, i - 1, n) && !Reads(lines[i - 1], n) {
        assert UntouchedFix(lines, marks, i - 1, i, n);
      }
      forall s | lo <= s < i - 1
        ensures UntouchedFix(lines, marks, s, i, n) <==>
                UntouchedFix(lines, marks, s, i - 1, n) && Passes(lines, marks, i - 1) && n !in lines[i - 1].acc
      {
        UntouchedMoves(lines, marks, s, i - 1, n);
      }
      if FixedState(lines, marks, lo, i - 1, n).Synced? {
        var s :| lo <= s < i - 1 && UntouchedFix(lines, marks, s, i - 1, n);
        assert Passes(lines, marks, i - 1) && n !in lines[i - 1].acc ==> UntouchedFix(lines, marks, s, i, n);
      }
    }
  }

  lemma FixedStarts(lines: seq<Line>, marks: set<nat>, lo: nat, n: Name)
    requires lo <= |lines|
    ensures FixedState(lines, marks, lo, lo, n) == Unknown
  {
  }

  /** No barrier, old or new, at line `i`. */
  predicate Passes(lines: seq<Line>, marks: set<nat>, i: nat)
    requires i < |lines|
  {
    !lines[i].sync && i !in marks
  }

  lemma UntouchedMoves(lines: seq<Line>, marks: set<nat>, s: nat, i: nat, n: Name)
    requires s < i < |lines|
    ensures UntouchedFix(lines, marks, s, i + 1, n) <==>
            UntouchedFix(lines, marks, s, i, n) && Passes(lines, marks, i) && n !in lines[i].acc
  {
    hide BarrierAt;
    if UntouchedFix(lines, marks, s, i + 1, n) { assert !Writes(lines[i], n) && !Reads(lines[i], n); }
  }

  /** The array has been read since `s` once line `i` is passed. */
  ghost predicate ReadOn(lines: seq<Line>, marks: set<nat>, s: nat, i: nat, n: Name)
    requires s < i < |lines|
  {
    && Passes(lines, marks, i) && !Writes(lines[i], n)
    && (ReadSinceFix(lines, marks, s, i, n) || (Reads(lines[i], n) && UntouchedFix(lines, marks, s, i, n)))
  }

  lemma ReadSinceMoves(lines: seq<Line>, marks: set<nat>, s: nat, i: nat, n: Name)
    requires s < i < |lines|
    ensures ReadSinceFix(lines, marks, s, i + 1, n) <==> ReadOn(lines, marks, s, i, n)
  {
    hide BarrierAt;
    if ReadSinceFix(lines, marks, s, i, n) {
      var k :| s <= k < i && Reads(lines[k], n);
      assert s <= k < i + 1 && Reads(lines[k], n);
    }
  }

  lemma {:induction false} FixedReadMeans(lines: seq<Line>, marks: set<nat>, lo: nat, i: nat, n: Name)
    requires lo <= i <= |lines|
    ensures FixedState(lines, marks, lo, i, n).WasRead? <==>
            exists s :: lo <= s < i && ReadSinceFix(lines, marks, s, i, n)
    decreases i
  {
    hide FixedState;
    if i == lo {
      FixedStarts(lines, marks, lo, n);
    } else {
      FixedReadMeans(lines, marks, lo, i - 1, n);
      FixedSyncedMeans(lines, marks, lo, i - 1, n);
      FixedStep(lines, marks, lo, i - 1, n);
      if i - 1 in marks && Reads(lines[i - 1], n) {
        assert ReadSinceFix(lines, marks, i - 1, i, n);
      }
      forall s | lo <= s < i - 1
        ensures ReadSinceFix(lines, marks, s, i, n) <==> ReadOn(lines, marks, s, i - 1, n)
      {
        ReadSinceMoves(lines, marks, s, i - 1, n);
      }
      if FixedState(lines, marks, lo, i - 1, n).WasRead? {
        var s :| lo <= s < i - 1 && ReadSinceFix(lines, marks, s, i - 1, n);
        assert ReadOn(lines, marks, s, i - 1, n) ==> ReadSinceFix(lines, marks, s, i, n);
      }
      if FixedState(lines, marks, lo, i - 1, n).Synced? {
        var s :| lo <= s < i - 1 && UntouchedFix(lines, marks, s, i - 1, n);
        assert ReadOn(lines, marks, s, i - 1, n) ==> ReadSinceFix(lines, marks, s, i, n);
      }
    }
  }

  /** The new position of line `i`. */
  ghost function NewPos(marks: set<nat>, i: nat): nat { Pos(marks, i) + if i in marks then 1 else 0 }

  /**
   Exactly which writes the detector reports in a scope after any barriers were inserted: those on an
   unmarked line that follow an old or new barrier with a read and no write of the array in between.
   */
  lemma FixedOverwriteIff(lines: seq<Line>, marks: set<nat>, lo: nat, i: nat, n: Name)
    requires lo <= i < |lines|
    ensures Pos(marks, lo) <= NewPos(marks, i) < |Woven(lines, marks)|
    ensures Overwrites(Woven(lines, marks), Pos(marks, lo), NewPos(marks, i), n) <==>
            && Writes(lines[i], n) && i !in marks
            && exists s :: lo <= s < i && ReadSinceFix(lines, marks, s, i, n)
  {
    hide Woven, WeaveFrom, ReadSinceFix;
    WovenAt(lines, marks, i);
    WrittenStays(lines, marks, lo, i, n);
    FixedReadMeans(lines, marks, lo, i, n);
    var w, lo', p := Woven(lines, marks), Pos(marks, lo), Pos(marks, i);
    WasReadMeans(w, lo', NewPos(marks, i), n);
    if i in marks { StateStep(w, lo', p); }
    hide StateAt, ReadSince;
  }

  /**
   The overwrites reported for a fixed file, exactly: for every kernel, line and array, the report depends
   only on the original lines and on which of them were flagged.
   */
  lemma FixedFileOverwritesIff(lines: seq<Line>, k: nat, i: nat, n: Name)
    requires k < |Scopes(lines)| && Scopes(lines)[k].0 <= i < Scopes(lines)[k].1
    ensures var (lo, hi) := Scopes(lines)[k]; var marks := Marks(lines);
            && k < |Scopes(Woven(lines, marks))|
            && (FoundIn(Woven(lines, marks), k, Finding(NewPos(marks, i) + 1, CarriedOverwrite, n)) <==>
                && n in Names(lines, lo, hi) && Writes(lines[i], n) && !FlaggedLine(lines, i)
                && exists s :: lo <= s < i && ReadSinceFix(lines, marks, s, i, n))
  {
    hide Woven, WeaveFrom, Scopes, Names, ReadSinceFix, Overwrites, Writes, FlaggedLine;
    var (lo, hi) := Scopes(lines)[k];
    var marks := Marks(lines);
    MarksSpareKernels(lines);
    ScopesWoven(lines, marks, k);
    NamesWoven(lines, marks, lo, hi);
    FixedOverwriteIff(lines, marks, lo, i, n);
    PosGrows(marks, i + 1, hi);
  }

  /**
   The inserted barrier can bring up the detector's other finding. In this kernel the read is flagged and
   no write is reported; in the fixed file the write after the read is, since a barrier now precedes it.
   */
  lemma FixExposesOverwrite(n: Name) returns (lines: seq<Line>)
    ensures |Scopes(lines)| == 1 && FlaggedLine(lines, 2)
    ensures forall i: nat, m :: !FoundIn(lines, 0, Finding(i, CarriedOverwrite, m))
    ensures |Scopes(Woven(lines, Marks(lines)))| > 0
    ensures FoundIn(Woven(lines, Marks(lines)), 0, Finding(NewPos(Marks(lines), 3) + 1, CarriedOverwrite, n))
  {
    var w, r := Line(false, NoDecl, false, map[n := Write]), Line(false, NoDecl, false, map[n := Read]);
    lines := [Line(true, Declares(n), false, map[]), w, r, w];
    OneKernel(lines, n);
    NoBarrierNoOverwrite(lines);
    NotMarked(lines, 3);
    assert LastWrite(lines, 1, 2, n);
    hide Scopes, Names, Starts, FoundIn, Woven, WeaveFrom;
    assert FlaggedIn(lines, 0, 2, n);
    hide Missing, FlaggedIn;
    assert FlaggedLine(lines, 2);
    var marks := Marks(lines);
    assert 2 in marks;
    assert ReadSinceFix(lines, marks, 2, 3, n) by { assert Reads(lines[2], n); }
    FixedFileOverwritesIff(lines, 0, 3, n);
  }

  lemma NoBarrierNoOverwrite(lines: seq<Line>)
    requires |Scopes(lines)| == 1 && forall s :: 0 <= s < |lines| ==> !lines[s].sync
    ensures forall i: nat, m :: !FoundIn(lines, 0, Finding(i, CarriedOverwrite, m))
  {
    hide Scopes, Names;
  }

  lemma OneKernel(lines: seq<Line>, n: Name)
    requires |lines| == 4 && lines[0].kernel && !lines[1].kernel && !lines[2].kernel && !lines[3].kernel
    requires lines[0].decl == Declares(n) && lines[1].decl == lines[2].decl == lines[3].decl == NoDecl
    ensures Scopes(lines) == [(0, 4)] && Names(lines, 0, 4) == [n]
  {
    assert Starts(lines, 1) == [0] && Starts(lines, 2) == [0] && Starts(lines, 3) == [0];
    assert Names(lines, 0, 1) == [n] && Names(lines, 0, 2) == [n] && Names(lines, 0, 3) == [n];
  }

  /** A line that reads nothing is not flagged. */
  lemma NotMarked(lines: seq<Line>, i: nat)
    requires i < |lines| && forall n :: !Reads(lines[i], n)
    ensures !FlaggedLine(lines, i)
  {
  }
}
