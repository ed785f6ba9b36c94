/**
 The barrier detector. A source line is reduced to what the detector matches on it: a kernel marker, a
 shared array declaration, a barrier, the arrays accessed.
 */
module SyncDiagnose {

  datatype Name = Name(text: string)

  /** How a line accesses an array: as an assignment target anywhere on it, or only reading. */
  datatype Access = Read | Write

  datatype Decl = NoDecl | Declares(name: Name)

  datatype Line = Line(kernel: bool, decl: Decl, sync: bool, acc: map<Name, Access>)

  const BARRIER: Line := Line(false, NoDecl, true, map[])

  datatype Pattern = MissingSync | CarriedOverwrite

  /** Line numbers count from one. */
  datatype Finding = Finding(line: nat, pattern: Pattern, name: Name)

  datatype Status = Unknown | Written | Synced | WasRead | Flagged

  predicate Reads(l: Line, n: Name) { !l.sync && n in l.acc && l.acc[n].Read? }

  predicate Writes(l: Line, n: Name) { !l.sync && n in l.acc && l.acc[n].Write? }

  // ---- what the findings mean ----

  /** Nothing between the two lines is a barrier or touches the array. */
  ghost predicate Quiet(lines: seq<Line>, j: nat, i: nat, n: Name)
    requires i <= |lines|
  {
    forall k :: j < k < i ==> !lines[k].sync && n !in lines[k].acc
  }

  ghost predicate LastWrite(lines: seq<Line>, j: nat, i: nat, n: Name)
    requires j < i <= |lines|
  {
    Writes(lines[j], n) && Quiet(lines, j, i, n)
  }

  /** A read whose latest earlier barrier or access of the array, in its scope, is a write. */
  ghost predicate Missing(lines: seq<Line>, lo: nat, i: nat, n: Name)
    requires lo <= i < |lines|
  {
    Reads(lines[i], n) && exists j :: lo <= j < i && LastWrite(lines, j, i, n)
  }

  /** Since the barrier the array has been read, and neither written nor guarded by another barrier. */
  ghost predicate ReadSince(lines: seq<Line>, s: nat, i: nat, n: Name)
    requires s < i <= |lines|
  {
    && lines[s].sync && (forall k :: s < k < i ==> !lines[k].sync && !Writes(lines[k], n))
    && exists k :: s < k < i && Reads(lines[k], n)
  }

  ghost predicate Overwrites(lines: seq<Line>, lo: nat, i: nat, n: Name)
    requires lo <= i < |lines|
  {
    Writes(lines[i], n) && exists s :: lo <= s < i && ReadSince(lines, s, i, n)
  }

  // ---- the detector's state ----

  function Next(st: Status, l: Line, n: Name): Status {
    if l.sync then Synced
    else if n !in l.acc then st
    else if l.acc[n].Write? then Written
    else if st.Written? then Flagged
    else if st.Synced? then WasRead
    else st
  }

  ghost function StateAt(lines: seq<Line>, lo: nat, i: nat, n: Name): Status
    requires lo <= i <= |lines|
    decreases i
  {
    if i == lo then Unknown else Next(StateAt(lines, lo, i - 1, n), lines[i - 1], n)
  }

  lemma {:induction false} WrittenMeans(lines: seq<Line>, lo: nat, i: nat, n: Name)
    requires lo <= i <= |lines|
    ensures StateAt(lines, lo, i, n).Written? <==> exists j :: lo <= j < i && LastWrite(lines, j, i, n)
    decreases i
  {
    if i > lo {
      WrittenMeans(lines, lo, i - 1, n);
      var l := lines[i - 1];
      if Writes(l, n) {
        assert LastWrite(lines, i - 1, i, n);
      } else if !l.sync && n !in l.acc {
        if StateAt(lines, lo, i - 1, n).Written? {
          var j :| lo <= j < i - 1 && LastWrite(lines, j, i - 1, n);
          assert LastWrite(lines, j, i, n);
        }
        forall j | lo <= j < i && LastWrite(lines, j, i, n) ensures StateAt(lines, lo, i, n).Written? {
          assert LastWrite(lines, j, i - 1, n);
        }
      }
    }
  }

  /** Since the barrier the array has not been touched. */
  ghost predicate Untouched(lines: seq<Line>, s: nat, i: nat, n: Name)
    requires s < i <= |lines|
  {
    lines[s].sync && Quiet(lines, s, i, n)
  }

  lemma {:induction false} SyncedMeans(lines: seq<Line>, lo: nat, i: nat, n: Name)
    requires lo <= i <= |lines|
    ensures StateAt(lines, lo, i, n).Synced? <==> exists s :: lo <= s < i && Untouched(lines, s, i, n)
    decreases i
  {
    if i > lo {
      SyncedMeans(lines, lo, i - 1, n);
      var l := lines[i - 1];
      if l.sync {
        assert Untouched(lines, i - 1, i, n);
      } else if n !in l.acc {
        if StateAt(lines, lo, i - 1, n).Synced? {
          var s :| lo <= s < i - 1 && Untouched(lines, s, i - 1, n);
          assert Untouched(lines, s, i, n);
        }
        forall s | lo <= s < i && Untouched(lines, s, i, n) ensures StateAt(lines, lo, i, n).Synced? {
          assert Untouched(lines, s, i - 1, n);
        }
      }
    }
  }

  lemma {:induction false} WasReadMeans(lines: seq<Line>, lo: nat, i: nat, n: Name)
    requires lo <= i <= |lines|
    ensures StateAt(lines, lo, i, n).WasRead? <==> exists s :: lo <= s < i && ReadSince(lines, s, i, n)
    decreases i
  {
    if i > lo {
      WasReadMeans(lines, lo, i - 1, n);
      SyncedMeans(lines, lo, i - 1, n);
      var l := lines[i - 1];
      if !l.sync && !Writes(l, n) {
        if StateAt(lines, lo, i - 1, n).WasRead? {
          var s :| lo <= s < i - 1 && ReadSince(lines, s, i - 1, n);
          assert ReadSince(lines, s, i, n);
        }
        if Reads(l, n) && StateAt(lines, lo, i - 1, n).Synced? {
          var s :| lo <= s < i - 1 && Untouched(lines, s, i - 1, n);
          assert ReadSince(lines, s, i, n);
        }
        forall s | lo <= s < i && ReadSince(lines, s, i, n) ensures StateAt(lines, lo, i, n).WasRead? {
          ReadSinceBack(lines, s, i, n);
        }
      }
    }
  }

  lemma ReadSinceBack(lines: seq<Line>, s: nat, i: nat, n: Name)
    requires s < i <= |lines| && ReadSince(lines, s, i, n)
    ensures s < i - 1 && (ReadSince(lines, s, i - 1, n) || (Reads(lines[i - 1], n) && Untouched(lines, s, i - 1, n)))
  {
    var k :| s < k < i && Reads(lines[k], n);
    if exists k' :: s < k' < i - 1 && Reads(lines[k'], n) {
      assert ReadSince(lines, s, i - 1, n);
    } else {
      assert k == i - 1;
      forall k' | s < k' < i - 1 ensures !lines[k'].sync && n !in lines[k'].acc {
        assert !Reads(lines[k'], n) && !Writes(lines[k'], n);
      }
    }
  }

  // ---- the detector ----

  /** The findings of one scope up to a line, exactly. */
  ghost predicate Reported(lines: seq<Line>, lo: nat, i: nat, names: seq<Name>, findings: seq<Finding>)
    requires lo <= i <= |lines|
  {
    forall f :: f in findings <==> Justified(lines, lo, i, names, f)
  }

  ghost predicate Justified(lines: seq<Line>, lo: nat, i: nat, names: seq<Name>, f: Finding)
    requires lo <= i <= |lines|
  {
    lo < f.line <= i && f.name in names && Accused(lines, lo, f.line - 1, f)
  }

  ghost predicate Accused(lines: seq<Line>, lo: nat, i: nat, f: Finding)
    requires lo <= i < |lines|
  {
    match f.pattern
    case MissingSync => Missing(lines, lo, i, f.name)
    case CarriedOverwrite => Overwrites(lines, lo, i, f.name)
  }

  /** What a line of the scan reports about an array in a given state. */
  function Verdict(st: Status, l: Line, n: Name): set<Pattern> {
    if Writes(l, n) && st.WasRead? then {CarriedOverwrite}
    else if Reads(l, n) && st.Written? then {MissingSync}
    else {}
  }

  lemma VerdictMeans(lines: seq<Line>, lo: nat, i: nat, f: Finding)
    requires lo <= i < |lines|
    ensures f.pattern in Verdict(StateAt(lines, lo, i, f.name), lines[i], f.name) <==> Accused(lines, lo, i, f)
  {
    WrittenMeans(lines, lo, i, f.name);
    WasReadMeans(lines, lo, i, f.name);
    hide StateAt;
  }

  /** One line of the scan, for every array in turn; a name listed twice is looked at twice. */
  method ScanLine(l: Line, i: nat, names: seq<Name>, state: map<Name, Status>)
      returns (state': map<Name, Status>, found: seq<Finding>)
    requires !l.sync && forall n :: n in names ==> n in state
    ensures state'.Keys == state.Keys
    ensures forall n :: n in names ==> state'[n] == Next(state[n], l, n)
    ensures forall f :: f in found <==>
              f.line == i + 1 && f.name in names && f.pattern in Verdict(state[f.name], l, f.name)
  {
    state', found := state, [];
    for k := 0 to |names|
      invariant state'.Keys == state.Keys
      invariant forall n :: n in names ==> state'[n] == if n in names[..k] then Next(state[n], l, n) else state[n]
      invariant forall f :: f in found <==>
                  f.line == i + 1 && f.name in names[..k] && f.pattern in Verdict(state[f.name], l, f.name)
    {
      var n := names[k];
      assert forall m :: m in names[..k + 1] <==> m in names[..k] || m == n;
      if n in l.acc {
        if l.acc[n].Write? {
          if state'[n].WasRead? { found := found + [Finding(i + 1, CarriedOverwrite, n)]; }
          state' := state'[n := Written];
        } else if state'[n].Written? {
          found := found + [Finding(i + 1, MissingSync, n)];
          state' := state'[n := Flagged];
        } else if state'[n].Synced? {
          state' := state'[n := WasRead];
        }
      }
    }
    assert names[..|names|] == names;
  }

  /** The detector reports exactly the reads that miss a barrier and the overwrites of what may still be read. */
  method DetectSyncIssues(lines: seq<Line>, lo: nat, hi: nat, names: seq<Name>) returns (findings: seq<Finding>)
    requires lo <= hi <= |lines|
    ensures Reported(lines, lo, hi, names, findings)
  {
    hide Accused, StateAt;
    findings := [];
    var state := map n | n in names :: Unknown;
    StateStarts(lines, lo);
    var i := lo;
    while i < hi
      invariant lo <= i <= hi && state.Keys == (set n | n in names)
      invariant forall n :: n in names ==> state[n] == StateAt(lines, lo, i, n)
      invariant Reported(lines, lo, i, names, findings)
    {
      var line := lines[i];
      StateStep(lines, lo, i);
      ghost var before := findings;
      var found := [];
      if line.sync {
        state := map n | n in names :: Synced;
      } else {
        state, found := ScanLine(line, i, names, state);
      }
      findings := findings + found;
      ReportedStep(lines, lo, i, names, before, found);
      i := i + 1;
    }
  }

  lemma StateStarts(lines: seq<Line>, lo: nat)
    requires lo <= |lines|
    ensures forall n :: StateAt(lines, lo, lo, n) == Unknown
  {
  }

  lemma StateStep(lines: seq<Line>, lo: nat, i: nat)
    requires lo <= i < |lines|
    ensures forall n :: StateAt(lines, lo, i + 1, n) == Next(StateAt(lines, lo, i, n), lines[i], n)
  {
  }

  lemma ReportedStep(lines: seq<Line>, lo: nat, i: nat, names: seq<Name>, findings: seq<Finding>, found: seq<Finding>)
    requires lo <= i < |lines| && Reported(lines, lo, i, names, findings)
    requires forall f :: f in found <==>
               f.line == i + 1 && f.name in names &&
                   f.pattern in Verdict(StateAt(lines, lo, i, f.name), lines[i], f.name)
    ensures Reported(lines, lo, i + 1, names, findings + found)
  {
    hide Accused, StateAt, Verdict;
    forall f ensures f in findings + found <==> Justified(lines, lo, i + 1, names, f) {
      assert f in findings <==> Justified(lines, lo, i, names, f);
      if f.line == i + 1 { VerdictMeans(lines, lo, i, f); }
    }
  }
}
