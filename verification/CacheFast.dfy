/** `CacheStoreFast`: an L1 map with clock eviction in front of the disk store, sequentially. */
module CacheFast {
  import opened CacheCodec

  datatype Entry = Entry(data: Bytes, used: bool)

  type L1 = map<Key, Entry>

  ghost predicate Unique(s: seq<Key>) {
    forall i, j :: 0 <= i < j < |s| ==> s[i] != s[j]
  }

  /** The clock list names exactly the cached keys, once each. */
  ghost predicate Listed(clock: seq<Key>, l1: L1) {
    Unique(clock) && forall k :: k in clock <==> k in l1
  }

  /** Bytes of the listed entries. */
  function Size(keys: seq<Key>, l1: L1): nat
    requires forall k :: k in keys ==> k in l1
  {
    if keys == [] then 0 else var k := keys[0]; assert k in keys; |l1[k].data| + Size(keys[1..], l1)
  }

  /** A cache state during eviction: keys already passed, keys ahead, entries and their total size. */
  datatype Sweep = Sweep(passed: seq<Key>, ahead: seq<Key>, l1: L1, bytes: int)

  /** One scan of the clock: give used entries a second chance, evict the others, stop once there is room. */
  function Scan(s: Sweep, room: int): Sweep
    decreases |s.ahead|
  {
    if s.ahead == [] || s.bytes <= room then s
    else
      var k := s.ahead[0];
      if k !in s.l1 then Scan(s.(ahead := s.ahead[1..]), room)
      else if s.l1[k].used then
        Scan(Sweep(s.passed + [k], s.ahead[1..], s.l1[k := s.l1[k].(used := false)], s.bytes), room)
      else
        Scan(Sweep(s.passed, s.ahead[1..], s.l1 - {k}, s.bytes - |s.l1[k].data|), room)
  }

  ghost predicate SweepOk(s: Sweep) {
    Listed(s.passed + s.ahead, s.l1) && s.bytes == Size(s.passed + s.ahead, s.l1)
  }

  lemma {:induction false} SizeSame(keys: seq<Key>, l1: L1, l1': L1)
    requires forall k :: k in keys ==> k in l1 && k in l1' && l1'[k].data == l1[k].data
    ensures Size(keys, l1') == Size(keys, l1)
    decreases |keys|
  {
    if keys != [] {
      var k := keys[0];
      assert k in keys;
      SizeSame(keys[1..], l1, l1');
    }
  }

  lemma {:induction false} SizeConcat(a: seq<Key>, b: seq<Key>, l1: L1)
    requires forall k :: k in a || k in b ==> k in l1
    ensures forall k :: k in a + b ==> k in l1
    ensures Size(a + b, l1) == Size(a, l1) + Size(b, l1)
    decreases |a|
  {
    if a == [] {
      assert a + b == b;
    } else {
      assert (a + b)[1..] == a[1..] + b;
      SizeConcat(a[1..], b, l1);
    }
  }

  /** Dropping the next key ahead from the list and the map. */
  lemma DropNext(s: Sweep)
    requires SweepOk(s) && s.ahead != []
    ensures var k := s.ahead[0];
            k in s.l1 && SweepOk(Sweep(s.passed, s.ahead[1..], s.l1 - {k}, s.bytes - |s.l1[k].data|))
  {
    var k, rest := s.ahead[0], s.ahead[1..];
    var all, all' := s.passed + s.ahead, s.passed + rest;
    assert s.ahead == [k] + rest && k in all;
    NotElsewhere(s.passed, k, rest);
    forall x ensures x in all' <==> x in all && x != k { }
    SizeConcat(s.passed, s.ahead, s.l1);
    SizeConcat(s.passed, rest, s.l1);
    SizeSame(all', s.l1, s.l1 - {k});
    assert Size(s.ahead, s.l1) == |s.l1[k].data| + Size(rest, s.l1);
  }

  lemma NotElsewhere(a: seq<Key>, k: Key, b: seq<Key>)
    requires Unique(a + ([k] + b))
    ensures k !in a && k !in b && Unique(a + b)
  {
    var t := a + ([k] + b);
    assert t[|a|] == k;
    assert forall i :: 0 <= i < |a| ==> t[i] == a[i];
    assert forall i :: 0 <= i < |b| ==> t[|a| + 1 + i] == b[i];
    var u := a + b;
    assert forall i :: 0 <= i < |u| ==> u[i] == if i < |a| then t[i] else t[i + 1];
  }

  /** Passing the next key over, with its bit cleared. */
  lemma PassNext(s: Sweep)
    requires SweepOk(s) && s.ahead != []
    ensures var k := s.ahead[0];
            k in s.l1 && SweepOk(Sweep(s.passed + [k], s.ahead[1..], s.l1[k := s.l1[k].(used := false)], s.bytes))
  {
    var k := s.ahead[0];
    assert s.ahead == [k] + s.ahead[1..];
    assert (s.passed + [k]) + s.ahead[1..] == s.passed + s.ahead;
    assert k in s.passed + s.ahead;
    SizeSame(s.passed + s.ahead, s.l1, s.l1[k := s.l1[k].(used := false)]);
  }

  /** What one scan does to the entries it was given. */
  ghost predicate Scanned(s: Sweep, t: Sweep, room: int) {
    && SweepOk(t)
    && (forall k :: k in t.l1 ==> k in s.l1 && t.l1[k].data == s.l1[k].data)
    && (forall k :: k in s.l1 && k !in t.l1 ==> !s.l1[k].used)
    && (t.bytes > room ==>
          && t.ahead == [] && (forall k :: k in t.l1 && k !in s.passed ==> !t.l1[k].used)
          && (forall k :: k in s.l1 && k !in s.passed ==> (k in t.l1 <==> s.l1[k].used)))
    && (forall k :: k in s.passed ==> k in s.l1 && k in t.l1 && t.l1[k] == s.l1[k])
  }

  lemma {:induction false} ScanProps(s: Sweep, room: int)
    requires SweepOk(s)
    ensures Scanned(s, Scan(s, room), room)
    decreases |s.ahead|
  {
    hide SweepOk, Scanned;
    if s.ahead == [] || s.bytes <= room {
      ScanStops(s, room);
    } else {
      HandElsewhere(s);
      PassNext(s);
      DropNext(s);
      var k, rest := s.ahead[0], s.ahead[1..];
      if s.l1[k].used {
        var u := Sweep(s.passed + [k], rest, s.l1[k := s.l1[k].(used := false)], s.bytes);
        ScanProps(u, room);
        AfterPass(s, u, Scan(u, room), room);
      } else {
        var u := Sweep(s.passed, rest, s.l1 - {k}, s.bytes - |s.l1[k].data|);
        ScanProps(u, room);
        AfterDrop(s, u, Scan(u, room), room);
      }
    }
  }

  lemma ScanStops(s: Sweep, room: int)
    requires SweepOk(s) && (s.ahead == [] || s.bytes <= room)
    ensures Scanned(s, s, room)
  {
    assert s.ahead == [] ==> s.passed + s.ahead == s.passed;
  }

  lemma HandElsewhere(s: Sweep)
    requires SweepOk(s) && s.ahead != []
    ensures s.ahead[0] !in s.passed
  {
    assert s.ahead == [s.ahead[0]] + s.ahead[1..];
    NotElsewhere(s.passed, s.ahead[0], s.ahead[1..]);
  }

  lemma AfterPass(s: Sweep, u: Sweep, t: Sweep, room: int)
    requires SweepOk(s) && s.ahead != [] && s.ahead[0] in s.l1 && s.l1[s.ahead[0]].used && s.ahead[0] !in s.passed
    requires u == Sweep(s.passed + [s.ahead[0]], s.ahead[1..], s.l1[s.ahead[0] := s.l1[s.ahead[0]].(used := false)],
            s.bytes)
    requires Scanned(u, t, room)
    ensures Scanned(s, t, room)
  {
    hide SweepOk;
    var k := s.ahead[0];
    assert forall x :: x in u.passed <==> x in s.passed || x == k;
  }

  lemma AfterDrop(s: Sweep, u: Sweep, t: Sweep, room: int)
    requires SweepOk(s) && s.ahead != [] && s.ahead[0] in s.l1 && !s.l1[s.ahead[0]].used && s.ahead[0] !in s.passed
    requires u == Sweep(s.passed, s.ahead[1..], s.l1 - {s.ahead[0]}, s.bytes - |s.l1[s.ahead[0]].data|)
    requires Scanned(u, t, room)
    ensures Scanned(s, t, room)
  {
    hide SweepOk;
  }

  /** Bytes of the listed entries whose bit is set. */
  function UsedSize(keys: seq<Key>, l1: L1): nat {
    if keys == [] then 0
    else (if keys[0] in l1 && l1[keys[0]].used then |l1[keys[0]].data| else 0) + UsedSize(keys[1..], l1)
  }

  lemma {:induction false} UsedSizeSame(keys: seq<Key>, l1: L1, l1': L1)
    requires forall k :: k in keys ==> (k in l1 <==> k in l1') && (k in l1 ==> l1'[k] == l1[k])
    ensures UsedSize(keys, l1') == UsedSize(keys, l1)
    decreases |keys|
  {
    if keys != [] {
      var k := keys[0];
      assert k in keys;
      UsedSizeSame(keys[1..], l1, l1');
    }
  }

  /** A scan that runs to the end has evicted exactly the clear-bit entries: only used bytes remain. */
  lemma {:induction false} ScanUsedBytes(s: Sweep, room: int)
    requires SweepOk(s) && Scan(s, room).bytes > room
    ensures Scan(s, room).bytes == s.bytes - Ahead(s) + UsedSize(s.ahead, s.l1)
    decreases |s.ahead|
  {
    if s.ahead != [] && s.bytes > room {
      var u := Step(s);
      StepAhead(s);
      hide SweepOk, Step, Ahead, Size;
      ScanUsedBytes(u, room);
    }
  }

  /** One move of the clock hand. */
  ghost function Step(s: Sweep): Sweep
    requires s.ahead != [] && s.ahead[0] in s.l1
  {
    var k, rest := s.ahead[0], s.ahead[1..];
    if s.l1[k].used then Sweep(s.passed + [k], rest, s.l1[k := s.l1[k].(used := false)], s.bytes)
    else Sweep(s.passed, rest, s.l1 - {k}, s.bytes - |s.l1[k].data|)
  }

  lemma StepAhead(s: Sweep)
    requires SweepOk(s) && s.ahead != []
    ensures s.ahead[0] in s.l1 && SweepOk(Step(s)) && |Step(s).ahead| < |s.ahead|
    ensures Ahead(s) - UsedSize(s.ahead, s.l1)
         == Ahead(Step(s)) - UsedSize(Step(s).ahead, Step(s).l1) + (s.bytes - Step(s).bytes)
    ensures forall room :: s.bytes > room ==> Scan(s, room) == Scan(Step(s), room)
  {
    AheadStep(s);
    PassNext(s);
    DropNext(s);
    HandElsewhere(s);
    RestElsewhere(s);
    hide SweepOk;
    StepSizes(s);
    assert Ahead(Step(s)) == Size(s.ahead[1..], Step(s).l1);
  }

  /** Bytes of the listed entries whose bit is clear. */
  function ClearSize(keys: seq<Key>, l1: L1): nat {
    if keys == [] then 0
    else (if keys[0] in l1 && !l1[keys[0]].used then |l1[keys[0]].data| else 0) + ClearSize(keys[1..], l1)
  }

  /** The listed keys whose bit is set, in order. */
  function UsedKeys(keys: seq<Key>, l1: L1): seq<Key> {
    if keys == [] then []
    else (if keys[0] in l1 && l1[keys[0]].used then [keys[0]] else []) + UsedKeys(keys[1..], l1)
  }

  lemma {:induction false} ClearSame(keys: seq<Key>, l1: L1, l1': L1)
    requires forall k :: k in keys ==> (k in l1 <==> k in l1') && (k in l1 ==> l1'[k] == l1[k])
    ensures ClearSize(keys, l1') == ClearSize(keys, l1) && UsedKeys(keys, l1') == UsedKeys(keys, l1)
    decreases |keys|
  {
    if keys != [] {
      assert keys[0] in keys;
      ClearSame(keys[1..], l1, l1');
    }
  }

  /** Of the keys in `gone` exactly the used ones are left, their bits cleared; the other entries are as they were. */
  ghost predicate Passed(l1: L1, l1': L1, gone: seq<Key>) {
    && (forall k :: k in gone && k in l1 ==>
          (k in l1' <==> l1[k].used) && (k in l1' ==> l1'[k] == Entry(l1[k].data, false)))
    && forall k :: k !in gone ==> (k in l1' <==> k in l1) && (k in l1' ==> l1'[k] == l1[k])
  }

  /** The hand has passed the first `p` keys; the used ones among them stay listed, in order. */
  ghost predicate Halted(s: Sweep, t: Sweep, p: nat) {
    && p <= |s.ahead| && t.ahead == s.ahead[p..] && t.passed == s.passed + UsedKeys(s.ahead[..p], s.l1)
    && Passed(s.l1, t.l1, s.ahead[..p]) && t.bytes == s.bytes - ClearSize(s.ahead[..p], s.l1)
  }

  /**
   Where a scan stops: at the first key with room enough, all entries with clear bits before it evicted and no
   other, so that the last eviction was needed.
   */
  lemma {:induction false} ScanHalts(s: Sweep, room: int) returns (p: nat)
    requires SweepOk(s)
    ensures Halted(s, Scan(s, room), p)
    ensures p < |s.ahead| ==> Scan(s, room).bytes <= room
    ensures forall q :: 0 <= q < p ==> s.bytes - ClearSize(s.ahead[..q], s.l1) > room
    decreases |s.ahead|
  {
    hide SweepOk, Scan, Halted, Passed, ClearSize, UsedKeys, Step, Ahead, UsedSize;
    if s.ahead == [] || s.bytes <= room {
      p := 0;
      HaltsAtOnce(s, room);
    } else {
      StepAhead(s);
      RestElsewhere(s);
      var u := Step(s);
      var m := ScanHalts(u, room);
      p := m + 1;
      HaltedStep(s, u, Scan(u, room), m);
      HaltedRange(s, u, Scan(u, room), m);
      forall q | 0 <= q < p ensures s.bytes - ClearSize(s.ahead[..q], s.l1) > room {
        if q > 0 { ClearStep(s, u, q); } else { NothingClear(s); }
      }
    }
  }

  lemma HaltsAtOnce(s: Sweep, room: int)
    requires s.ahead == [] || s.bytes <= room
    ensures Scan(s, room) == s && Halted(s, s, 0)
  {
  }

  lemma NothingClear(s: Sweep)
    ensures ClearSize(s.ahead[..0], s.l1) == 0
  {
  }

  lemma HaltedRange(s: Sweep, u: Sweep, t: Sweep, m: nat)
    requires s.ahead != [] && s.ahead[0] in s.l1 && u == Step(s) && Halted(u, t, m)
    ensures m <= |u.ahead| && u.ahead == s.ahead[1..]
  {
  }

  lemma ClearStep(s: Sweep, u: Sweep, q: nat)
    requires s.ahead != [] && s.ahead[0] in s.l1 && s.ahead[0] !in s.ahead[1..] && u == Step(s) && 0 < q <= |s.ahead|
    ensures s.bytes - ClearSize(s.ahead[..q], s.l1) == u.bytes - ClearSize(u.ahead[..q - 1], u.l1)
    ensures u.passed + UsedKeys(u.ahead[..q - 1], u.l1) == s.passed + UsedKeys(s.ahead[..q], s.l1)
  {
    var k, rest := s.ahead[0], s.ahead[1..][..q - 1];
    assert s.ahead[..q][1..] == rest && s.ahead[..q][0] == k;
    assert forall x :: x in rest ==> x in s.ahead[1..];
    ClearSame(rest, s.l1, u.l1);
  }

  lemma HaltedStep(s: Sweep, u: Sweep, t: Sweep, m: nat)
    requires s.ahead != [] && s.ahead[0] in s.l1 && s.ahead[0] !in s.ahead[1..] && u == Step(s) && Halted(u, t, m)
    ensures Halted(s, t, m + 1)
  {
    var k := s.ahead[0];
    ClearStep(s, u, m + 1);
    assert s.ahead[..m + 1] == [k] + u.ahead[..m];
    assert k !in u.ahead[..m] by { assert forall x :: x in u.ahead[..m] ==> x in s.ahead[1..]; }
    assert s.ahead[m + 1..] == u.ahead[m..];
    SweptStep(s, u, t.l1, k, u.ahead[..m]);
    hide ClearSize, UsedKeys, Passed, Step;
  }

  lemma SweptStep(s: Sweep, u: Sweep, l1': L1, k: Key, rest: seq<Key>)
    requires s.ahead != [] && k == s.ahead[0] && k in s.l1 && k !in rest && u == Step(s) && Passed(u.l1, l1', rest)
    ensures Passed(s.l1, l1', [k] + rest)
  {
    assert forall x :: x in [k] + rest <==> x == k || x in rest;
  }

  lemma RestElsewhere(s: Sweep)
    requires SweepOk(s) && s.ahead != []
    ensures s.ahead[0] !in s.ahead[1..]
  {
    assert s.ahead == [s.ahead[0]] + s.ahead[1..];
    NotElsewhere(s.passed, s.ahead[0], s.ahead[1..]);
  }

  /** The hand's move leaves the entries behind the next one as they are. */
  lemma StepSizes(s: Sweep)
    requires s.ahead != [] && s.ahead[0] in s.l1 && s.ahead[0] !in s.ahead[1..]
    requires forall x :: x in s.ahead[1..] ==> x in s.l1
    ensures var rest := s.ahead[1..];
            && (forall x :: x in rest ==> x in Step(s).l1)
            && Size(rest, Step(s).l1) == Size(rest, s.l1) && UsedSize(rest, Step(s).l1) == UsedSize(rest, s.l1)
  {
    var rest := s.ahead[1..];
    UsedSizeSame(rest, s.l1, Step(s).l1);
    SizeSame(rest, s.l1, Step(s).l1);
  }

  /** Bytes of the entries still ahead of the hand. */
  ghost function Ahead(s: Sweep): nat
    requires SweepOk(s)
  {
    assert forall k :: k in s.ahead ==> k in s.passed + s.ahead;
    Size(s.ahead, s.l1)
  }

  lemma AheadStep(s: Sweep)
    requires SweepOk(s) && s.ahead != []
    ensures var k, rest := s.ahead[0], s.ahead[1..];
            && k in s.l1 && (forall x :: x in rest ==> x in s.l1)
            && Ahead(s) == |s.l1[k].data| + Size(rest, s.l1)
  {
    var k := s.ahead[0];
    assert k in s.passed + s.ahead;
    assert forall x :: x in s.ahead ==> x in s.passed + s.ahead;
  }

  /** The two scans of `evict_to_fit`. */
  function Evict(clock: seq<Key>, l1: L1, bytes: int, room: int): Sweep {
    var t := Scan(Sweep([], clock, l1, bytes), room);
    if t.bytes <= room then t else Scan(Sweep([], t.passed + t.ahead, t.l1, t.bytes), room)
  }

  /**
   After eviction the new entry fits or the cache is empty, and an entry whose bit was set is evicted
   only if all entries with set bits together left too little room.
   */
  lemma EvictProps(clock: seq<Key>, l1: L1, bytes: int, room: int)
    requires Listed(clock, l1) && bytes == Size(clock, l1)
    ensures var t := Evict(clock, l1, bytes, room);
            && Listed(t.passed + t.ahead, t.l1) && t.bytes == Size(t.passed + t.ahead, t.l1)
            && (forall k :: k in t.l1 ==> k in l1 && t.l1[k].data == l1[k].data)
            && (t.bytes <= room || t.l1 == map[])
            && ((exists k :: k in l1 && l1[k].used && k !in t.l1) ==> UsedSize(clock, l1) > room)
  {
    var s := Sweep([], clock, l1, bytes);
    assert [] + clock == clock;
    ScanProps(s, room);
    var t0 := Scan(s, room);
    if t0.bytes > room {
      ScanUsedBytes(s, room);
      var s1 := Sweep([], t0.passed + t0.ahead, t0.l1, t0.bytes);
      assert [] + s1.ahead == s1.ahead;
      ScanProps(s1, room);
    }
  }

  /** The sweep whose hand stands at position `i` of the clock list. */
  ghost function Hand(clock: seq<Key>, i: nat, l1: L1, bytes: int): Sweep
    requires i <= |clock|
  {
    Sweep(clock[..i], clock[i..], l1, bytes)
  }

  /** The scan in progress: a consistent sweep whose completion is the whole scan's result. */
  ghost predicate Swept(clock: seq<Key>, i: nat, l1: L1, bytes: int, room: int, goal: Sweep)
    requires i <= |clock|
  {
    SweepOk(Hand(clock, i, l1, bytes)) && Scan(Hand(clock, i, l1, bytes), room) == goal
  }

  lemma SweepStarts(clock: seq<Key>, l1: L1, bytes: int)
    requires Listed(clock, l1) && bytes == Size(clock, l1)
    ensures Hand(clock, 0, l1, bytes) == Sweep([], clock, l1, bytes) && SweepOk(Hand(clock, 0, l1, bytes))
  {
    assert clock[..0] + clock[0..] == clock;
  }

  lemma SweepEnds(clock: seq<Key>, i: nat, l1: L1, bytes: int, room: int, goal: Sweep)
    requires i <= |clock| && Swept(clock, i, l1, bytes, room, goal) && (i == |clock| || bytes <= room)
    ensures clock == goal.passed + goal.ahead && l1 == goal.l1 && bytes == goal.bytes
    ensures Listed(clock, l1) && bytes == Size(clock, l1)
  {
    assert clock[..i] + clock[i..] == clock;
  }

  lemma HandKnows(clock: seq<Key>, i: nat, l1: L1, bytes: int, room: int, goal: Sweep)
    requires i < |clock| && Swept(clock, i, l1, bytes, room, goal)
    ensures clock[i] in l1
  {
    assert clock[i] in clock[..i] + clock[i..];
  }

  lemma HandPasses(clock: seq<Key>, i: nat, l1: L1, bytes: int, room: int, goal: Sweep)
    requires i < |clock| && Swept(clock, i, l1, bytes, room, goal) && bytes > room
    requires clock[i] in l1 && l1[clock[i]].used
    ensures Swept(clock, i + 1, l1[clock[i] := l1[clock[i]].(used := false)], bytes, room, goal)
  {
    hide SweepOk, Scan, UsedSize, Ahead;
    var s := Hand(clock, i, l1, bytes);
    StepAhead(s);
    assert clock[i..][1..] == clock[i + 1..];
    assert clock[..i] + [clock[i]] == clock[..i + 1];
  }

  lemma HandDrops(clock: seq<Key>, i: nat, l1: L1, bytes: int, room: int, goal: Sweep)
    requires i < |clock| && Swept(clock, i, l1, bytes, room, goal) && bytes > room
    requires clock[i] in l1 && !l1[clock[i]].used
    ensures Swept(clock[..i] + clock[i + 1..], i, l1 - {clock[i]}, bytes - |l1[clock[i]].data|, room, goal)
  {
    hide SweepOk, Scan, UsedSize, Ahead;
    var s := Hand(clock, i, l1, bytes);
    StepAhead(s);
    var c := clock[..i] + clock[i + 1..];
    assert clock[i..][1..] == clock[i + 1..];
    assert c[..i] == clock[..i] && c[i..] == clock[i + 1..];
  }

  class CacheStoreFast {
    const disk: CacheStore
    const maxL1: nat   // 0 means unlimited
    var l1: L1
    var clock: seq<Key>
    var clockPos: set<Key>
    var l1Bytes: int
    var evictions: nat

    /** The three views of the cache contents agree. */
    ghost predicate Valid()
      reads this
    {
      Listed(clock, l1) && clockPos == l1.Keys && l1Bytes == Size(clock, l1)
    }

    /** Everything cached is what the disk would return. */
    ghost predicate Coherent()
      reads this, disk
    {
      forall k :: k in l1 ==> disk.Lookup(k) == Some(l1[k].data)
    }

    constructor (disk: CacheStore, maxL1: nat)
      ensures Valid() && Coherent() && this.disk == disk && this.maxL1 == maxL1 && l1 == map[]
    {
      this.disk, this.maxL1 := disk, maxL1;
      l1, clock, clockPos, l1Bytes, evictions := map[], [], {}, 0, 0;
    }

    /**
     One scan of the clock list, in place. The source also drops a listed key that is no longer cached;
     `Valid` rules that out.
     */
    method ScanOnce(needed: nat)
      requires Valid()
      modifies this
      ensures Valid()
      ensures var t := Scan(Sweep([], old(clock), old(l1), old(l1Bytes)), maxL1 - needed);
              clock == t.passed + t.ahead && l1 == t.l1 && l1Bytes == t.bytes
      ensures evictions + |clock| == old(evictions) + old(|clock|)
    {
      hide Scan, Size, Listed;
      SweepStarts(clock, l1, l1Bytes);
      var i := 0;
      ghost var goal := Scan(Hand(clock, 0, l1, l1Bytes), maxL1 - needed);
      while i < |clock| && l1Bytes + needed > maxL1
        invariant i <= |clock| && Swept(clock, i, l1, l1Bytes, maxL1 - needed, goal) && clockPos == l1.Keys
        invariant evictions + |clock| == old(evictions) + old(|clock|)
        decreases |clock| - i
      {
        hide Swept;
        var k := clock[i];
        HandKnows(clock, i, l1, l1Bytes, maxL1 - needed, goal);
        if l1[k].used {
          HandPasses(clock, i, l1, l1Bytes, maxL1 - needed, goal);
          l1 := l1[k := l1[k].(used := false)];
          i := i + 1;
        } else {
          HandDrops(clock, i, l1, l1Bytes, maxL1 - needed, goal);
          l1Bytes := l1Bytes - |l1[k].data|;
          clockPos := clockPos - {k};
          l1 := l1 - {k};
          clock := clock[..i] + clock[i + 1..];
          evictions := evictions + 1;
        }
      }
      SweepEnds(clock, i, l1, l1Bytes, maxL1 - needed, goal);
    }

    method EvictToFit(needed: nat)
      requires Valid()
      modifies this
      ensures Valid()
      ensures maxL1 == 0 ==> l1 == old(l1) && clock == old(clock)
      ensures maxL1 != 0 ==>
                var t := Evict(old(clock), old(l1), old(l1Bytes), maxL1 - needed);
                clock == t.passed + t.ahead && l1 == t.l1
      ensures maxL1 != 0 ==> l1Bytes + needed <= maxL1 || l1 == map[]
      ensures evictions + |clock| == old(evictions) + old(|clock|)
      ensures forall k :: k in l1 ==> k in old(l1) && l1[k].data == old(l1)[k].data
      ensures (exists k :: k in old(l1) && old(l1)[k].used && k !in l1) ==>
              UsedSize(old(clock), old(l1)) + needed > maxL1
    {
      hide Scan, Size, Listed, UsedSize;
      EvictProps(clock, l1, l1Bytes, maxL1 - needed);
      if maxL1 == 0 { return; }
      FitsAlready(clock, l1, l1Bytes, maxL1 - needed);
      if l1Bytes + needed <= maxL1 { return; }
      ScanOnce(needed);
      if l1Bytes + needed > maxL1 { ScanOnce(needed); }
    }

    /** Insert a key that is not cached, making room first. */
    method L1PutLocked(key: Key, bin: Bytes)
      requires Valid() && key !in l1
      modifies this
      ensures Valid()
      ensures key in l1 && l1[key] == Entry(bin, true)
      ensures clock != [] && clock[|clock| - 1] == key
      ensures forall k :: k in l1 && k != key ==> k in old(l1) && l1[k].data == old(l1)[k].data
      ensures maxL1 != 0 ==> l1Bytes <= maxL1 || l1.Keys == {key}
      ensures maxL1 == 0 ==> l1 == old(l1)[key := Entry(bin, true)]
      ensures (exists k :: k in old(l1) && old(l1)[k].used && k !in l1) ==>
              UsedSize(old(clock), old(l1)) + |bin| > maxL1
    {
      hide Evict, Size, Listed, UsedSize;
      EvictToFit(|bin|);
      Appended(clock, l1, key, Entry(bin, true));
      clock := clock + [key];
      clockPos := clockPos + {key};
      l1 := l1[key := Entry(bin, true)];
      l1Bytes := l1Bytes + |bin|;
    }

    /** A cached entry is returned and marked used; a disk hit is promoted; a miss changes nothing. */
    method Get(key: Key) returns (r: Option<Bytes>)
      requires Valid()
      modifies this
      ensures Valid()
      ensures r == if key in old(l1) then Some(old(l1)[key].data) else disk.Lookup(key)
      ensures old(Coherent()) ==> Coherent() && r == disk.Lookup(key)
      ensures key in old(l1) ==> l1 == old(l1)[key := old(l1)[key].(used := true)] && clock == old(clock)
      ensures key !in old(l1) && r.Some? ==> key in l1 && l1[key] == Entry(r.value, true)
      ensures r.None? ==> l1 == old(l1) && clock == old(clock) && l1Bytes == old(l1Bytes)
    {
      hide Evict, Size, Listed, UsedSize, CacheStore.Lookup;
      if key in l1 {
        Overwritten(clock, l1, key, l1[key].(used := true));
        l1 := l1[key := l1[key].(used := true)];
        return Some(l1[key].data);
      }
      r := disk.Get(key);
      if r.Some? { L1PutLocked(key, r.value); }
    }

    /**
     Write through. The cache agrees with the disk afterwards exactly when the payload's length fits the
     entry header. Overwriting a cached key evicts nothing, so only an insertion bounds the bytes held.
     */
    method Put(key: Key, bin: Bytes)
      requires Valid()
      modifies this, disk
      ensures Valid()
      ensures disk.files == old(disk.files)[key := Encode(bin)]
      ensures old(Coherent()) ==> (Coherent() <==> |bin| < WORD)
      ensures key in l1 && l1[key] == Entry(bin, true)
      ensures key in old(l1) ==>
                && clock == old(clock) && l1 == old(l1)[key := Entry(bin, true)]
                && l1Bytes == old(l1Bytes) - |old(l1)[key].data| + |bin|
      ensures key !in old(l1) && maxL1 != 0 ==> l1Bytes <= maxL1 || l1.Keys == {key}
    {
      hide Evict, Size, Listed, UsedSize, CacheStore.Lookup;
      disk.Put(key, bin);
      if key in l1 {
        Overwritten(clock, l1, key, Entry(bin, true));
        l1Bytes := l1Bytes - |l1[key].data| + |bin|;
        l1 := l1[key := Entry(bin, true)];
      } else {
        L1PutLocked(key, bin);
      }
    }
  }

  lemma FitsAlready(clock: seq<Key>, l1: L1, bytes: int, room: int)
    ensures bytes <= room ==> Scan(Sweep([], clock, l1, bytes), room) == Sweep([], clock, l1, bytes)
  {
  }

  /** Adding a key at the back of the clock list. */
  lemma Appended(clock: seq<Key>, l1: L1, key: Key, e: Entry)
    requires Listed(clock, l1) && key !in l1
    ensures Listed(clock + [key], l1[key := e]) && Size(clock + [key], l1[key := e]) == Size(clock, l1) + |e.data|
  {
    var l1' := l1[key := e];
    SizeSame(clock, l1, l1');
    assert key in [key];
    SizeConcat(clock, [key], l1');
    assert Size([key], l1') == |e.data| + Size([key][1..], l1');
  }

  /** Replacing the entry of a listed key changes the total by the difference of the two sizes. */
  lemma Overwritten(clock: seq<Key>, l1: L1, key: Key, e: Entry)
    requires Listed(clock, l1) && key in l1
    ensures Listed(clock, l1[key := e])
    ensures Size(clock, l1[key := e]) == Size(clock, l1) - |l1[key].data| + |e.data|
  {
    SizeReplaced(clock, l1, key, e);
  }

  lemma {:induction false} SizeReplaced(keys: seq<Key>, l1: L1, key: Key, e: Entry)
    requires Unique(keys) && key in keys && forall k :: k in keys ==> k in l1
    ensures Size(keys, l1[key := e]) == Size(keys, l1) - |l1[key].data| + |e.data|
    decreases |keys|
  {
    var rest := keys[1..];
    assert keys == [keys[0]] + rest;
    if keys[0] == key {
      assert key !in rest;
      hide Unique;
      SizeSame(rest, l1, l1[key := e]);
    } else {
      assert Unique(rest);
      hide Unique;
      SizeReplaced(rest, l1, key, e);
    }
  }

  // ---- whole histories ----

  datatype Op = OpGet(key: Key) | OpPut(key: Key, bin: Bytes)

  /** What the disk store alone answers to a call. */
  ghost function AnswerTo(files: map<Key, Bytes>, op: Op): Option<Bytes> {
    match op
    case OpGet(k) => if k in files then Decode(files[k]) else None
    case OpPut(_, _) => None
  }

  ghost function FilesAfter(files: map<Key, Bytes>, op: Op): map<Key, Bytes> {
    match op
    case OpGet(_) => files
    case OpPut(k, b) => files[k := Encode(b)]
  }

  /** What it answers to a history of calls. */
  ghost function Answers(files: map<Key, Bytes>, ops: seq<Op>): seq<Option<Bytes>>
    decreases |ops|
  {
    if ops == [] then [] else [AnswerTo(files, ops[0])] + Answers(FilesAfter(files, ops[0]), ops[1..])
  }

  predicate Fits(op: Op) { op.OpPut? ==> |op.bin| < WORD }

  /** One call. */
  method Perform(cache: CacheStoreFast, op: Op) returns (r: Option<Bytes>)
    requires cache.Valid()
    modifies cache, cache.disk
    ensures cache.Valid() && cache.disk.files == FilesAfter(old(cache.disk.files), op)
    ensures old(cache.Coherent()) && Fits(op) ==> cache.Coherent() && r == AnswerTo(old(cache.disk.files), op)
  {
    hide CacheStoreFast.Valid, CacheStoreFast.Coherent, Decode, Encode;
    match op {
      case OpGet(k) => r := cache.Get(k);
      case OpPut(k, b) =>
        cache.Put(k, b);
        r := None;
    }
  }

  lemma AnswersStep(files: map<Key, Bytes>, ops: seq<Op>, i: nat)
    requires i < |ops|
    ensures Answers(files, ops[i..]) ==
            [AnswerTo(files, ops[i])] + Answers(FilesAfter(files, ops[i]), ops[i + 1..])
  {
    assert ops[i..][0] == ops[i] && ops[i..][1..] == ops[i + 1..];
  }

  /** Every sequential history of payloads that fit gets exactly the answers of the disk store alone. */
  method RunHistory(cache: CacheStoreFast, ops: seq<Op>) returns (answers: seq<Option<Bytes>>)
    requires cache.Valid() && cache.Coherent()
    modifies cache, cache.disk
    ensures cache.Valid()
    ensures (forall i :: 0 <= i < |ops| ==> Fits(ops[i])) ==>
              cache.Coherent() && answers == Answers(old(cache.disk.files), ops)
  {
    hide CacheStoreFast.Valid, CacheStoreFast.Coherent, Answers, AnswerTo, FilesAfter, Fits;
    answers := [];
    ghost var files0 := cache.disk.files;
    assert ops[0..] == ops;
    for i := 0 to |ops|
      invariant cache.Valid()
      invariant (forall j :: 0 <= j < i ==> Fits(ops[j])) ==>
                  && cache.Coherent()
                  && answers + Answers(cache.disk.files, ops[i..]) == Answers(files0, ops)
    {
      AnswersStep(cache.disk.files, ops, i);
      var r := Perform(cache, ops[i]);
      answers := answers + [r];
    }
    NoAnswers(cache.disk.files, ops);
  }

  lemma NoAnswers(files: map<Key, Bytes>, ops: seq<Op>)
    ensures Answers(files, ops[|ops|..]) == []
  {
  }

  /** A payload too long for its header is answered from the cache, and not as the disk would answer. */
  method OversizedPutShows(cache: CacheStoreFast, key: Key, bin: Bytes) returns (r: Option<Bytes>)
    requires cache.Valid() && |bin| >= WORD
    modifies cache, cache.disk
    ensures r == Some(bin) && r != cache.disk.Lookup(key)
  {
    hide Listed, Size, UsedSize, Evict;
    cache.Put(key, bin);
    RoundTripIff(bin);
    hide Decode, Encode;
    r := cache.Get(key);
  }
}
