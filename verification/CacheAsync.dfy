/**
 `CacheStoreAsync`: an L1 map written at once and a disk written later by one writer thread, as a state
 machine. Each action is one critical section, or one disk access, of a client or of the writer.
 */
module CacheAsync {
  import opened CacheCodec

  type Files = map<Key, Bytes>

  datatype Job = Job(key: Key, bin: Bytes)

  /**
   Where a client is. `seen` is history only: the values its key has had since the L1 lookup missed,
   the latest put counting from its L1 update.
   */
  datatype Client =
    | Idle
    | Missed(key: Key, seen: set<Option<Bytes>>)
    | Fetched(key: Key, bin: Bytes, seen: set<Option<Bytes>>)
    | Pushing(job: Job)

  datatype Writer = Waiting | Holding(job: Job) | Written | Exited

  /** `pushed` and `latest` are history: the jobs queued so far, and the last value put for each key. */
  datatype State = State(
    l1: map<Key, Bytes>, files: Files, q: seq<Job>, busy: bool, stop: bool,
    writer: Writer, clients: map<nat, Client>, pushed: seq<Job>, latest: map<Key, Bytes>)

  datatype Action =
    | GetL1(c: nat, key: Key)
    | GetDisk(c: nat)
    | Promote(c: nat)
    | PutL1(c: nat, key: Key, bin: Bytes)
    | Push(c: nat)
    | Pop
    | Write
    | Done
    | Stop
    | Exit

  function Lookup(files: Files, key: Key): Option<Bytes> {
    if key in files then Decode(files[key]) else None
  }

  /** The value a key has for its users: the last one put, else the one first on disk. */
  function Value(init: Files, s: State, key: Key): Option<Bytes> {
    if key in s.latest then Some(s.latest[key]) else Lookup(init, key)
  }

  predicate Enabled(s: State, a: Action) {
    match a
    case GetL1(c, _) => c in s.clients && s.clients[c].Idle?
    case GetDisk(c) => c in s.clients && s.clients[c].Missed?
    case Promote(c) => c in s.clients && s.clients[c].Fetched?
    case PutL1(c, _, _) => c in s.clients && s.clients[c].Idle?
    case Push(c) => c in s.clients && s.clients[c].Pushing?
    case Pop => s.writer.Waiting? && s.q != []
    case Write => s.writer.Holding?
    case Done => s.writer.Written?
    case Stop => true
    case Exit => s.writer.Waiting? && s.q == [] && s.stop
  }

  /** A get of `key` in flight sees the new value. */
  function Saw(cl: Client, key: Key, bin: Bytes): Client {
    if (cl.Missed? || cl.Fetched?) && cl.key == key then cl.(seen := cl.seen + {Some(bin)}) else cl
  }

  function Notify(clients: map<nat, Client>, key: Key, bin: Bytes): map<nat, Client> {
    map d | d in clients :: Saw(clients[d], key, bin)
  }

  function Step(init: Files, s: State, a: Action): State
    requires Enabled(s, a)
  {
    match a
    case GetL1(c, key) =>
      if key in s.l1 then s else s.(clients := s.clients[c := Missed(key, {Value(init, s, key)})])
    case GetDisk(c) =>
      var cl := s.clients[c];
      var r := Lookup(s.files, cl.key);
      s.(clients := s.clients[c := if r.Some? then Fetched(cl.key, r.value, cl.seen) else Idle])
    case Promote(c) =>
      var cl := s.clients[c];
      s.(l1 := s.l1[cl.key := cl.bin], clients := s.clients[c := Idle])
    case PutL1(c, key, bin) =>
      s.(l1 := s.l1[key := bin], latest := s.latest[key := bin],
         clients := Notify(s.clients, key, bin)[c := Pushing(Job(key, bin))])
    case Push(c) =>
      var job := s.clients[c].job;
      s.(q := s.q + [job], pushed := s.pushed + [job], clients := s.clients[c := Idle])
    case Pop => s.(q := s.q[1..], writer := Holding(s.q[0]), busy := true)
    case Write => s.(files := s.files[s.writer.job.key := Encode(s.writer.job.bin)], writer := Written)
    case Done => s.(writer := Waiting, busy := false)
    case Stop => s.(stop := true)
    case Exit => s.(writer := Exited)
  }

  /** What a get that ends with this action returns. */
  function Reply(s: State, a: Action): Option<Option<Bytes>>
    requires Enabled(s, a)
  {
    match a
    case GetL1(c, key) => if key in s.l1 then Some(Some(s.l1[key])) else None
    case GetDisk(c) => if Lookup(s.files, s.clients[c].key).None? then Some(None) else None
    case Promote(c) => Some(Some(s.clients[c].bin))
    case _ => None
  }

  ghost predicate Initial(init: Files, s: State) {
    && s.l1 == map[] && s.files == init && s.q == [] && !s.busy && s.writer.Waiting?
    && (forall c :: c in s.clients ==> s.clients[c].Idle?) && s.pushed == [] && s.latest == map[]
  }

  ghost predicate Run(init: Files, states: seq<State>, acts: seq<Action>) {
    && |states| == |acts| + 1 && Initial(init, states[0])
    && forall i :: 0 <= i < |acts| ==> Moves(init, states[i], acts[i], states[i + 1])
  }

  ghost predicate Moves(init: Files, s: State, a: Action, s': State) {
    Enabled(s, a) && s' == Step(init, s, a)
  }

  // ---- write-behind loses nothing ----

  /** Jobs written in order. */
  function Apply(files: Files, jobs: seq<Job>): Files
    decreases |jobs|
  {
    if jobs == [] then files
    else var n := |jobs| - 1; Apply(files, jobs[..n])[jobs[n].key := Encode(jobs[n].bin)]
  }

  function Hand(w: Writer): seq<Job> { if w.Holding? then [w.job] else [] }

  lemma {:induction false} ApplyConcat(files: Files, a: seq<Job>, b: seq<Job>)
    ensures Apply(files, a + b) == Apply(Apply(files, a), b)
    decreases |b|
  {
    if b == [] {
      assert a + b == a;
    } else {
      var n := |b| - 1;
      assert (a + b)[..|a| + n] == a + b[..n];
      ApplyConcat(files, a, b[..n]);
    }
  }

  /** The disk lags the queued jobs by exactly the writer's job and the queue. */
  ghost predicate Lags(init: Files, s: State) {
    && s.busy == (s.writer.Holding? || s.writer.Written?)
    && (s.writer.Exited? ==> s.stop)
    && Apply(s.files, Hand(s.writer) + s.q) == Apply(init, s.pushed)
  }

  lemma LagsKept(init: Files, s: State, a: Action)
    requires Lags(init, s) && Enabled(s, a)
    ensures Lags(init, Step(init, s, a))
  {
    hide Apply, Encode, Decode;
    match a
    case Push(c) => PushLags(init, s.files, Hand(s.writer), s.q, s.pushed, s.clients[c].job);
    case Pop => assert [s.q[0]] + s.q[1..] == s.q && [] + s.q == s.q;
    case Write => WriteLags(s.files, s.writer.job, s.q);
    case _ =>
  }

  lemma PushLags(init: Files, files: Files, hand: seq<Job>, q: seq<Job>, pushed: seq<Job>, job: Job)
    requires Apply(files, hand + q) == Apply(init, pushed)
    ensures Apply(files, hand + (q + [job])) == Apply(init, pushed + [job])
  {
    hide Encode;
    assert hand + (q + [job]) == (hand + q) + [job];
    assert ((hand + q) + [job])[..|hand + q|] == hand + q;
    assert (pushed + [job])[..|pushed|] == pushed;
  }

  lemma WriteLags(files: Files, job: Job, q: seq<Job>)
    ensures Apply(files, [job] + q) == Apply(files[job.key := Encode(job.bin)], [] + q)
  {
    hide Encode;
    ApplyConcat(files, [job], q);
    assert [job][..0] == [] && [] + q == q;
    assert Apply(files, [job]) == files[job.key := Encode(job.bin)];
  }

  lemma {:induction false} LagsAlways(init: Files, states: seq<State>, acts: seq<Action>, i: nat)
    requires Run(init, states, acts) && i < |states|
    ensures Lags(init, states[i])
  {
    if i > 0 {
      LagsAlways(init, states, acts, i - 1);
      assert Moves(init, states[i - 1], acts[i - 1], states[i]);
      LagsKept(init, states[i - 1], acts[i - 1]);
    }
  }

  /** The condition `flush` waits for. */
  predicate Flushed(s: State) { s.q == [] && !s.busy }

  /**
   With any number of clients, whenever flush's condition holds the disk is the initial disk with every
   queued job written in queue order. The writer exits only after a stop.
   */
  lemma FlushedDiskIsComplete(init: Files, states: seq<State>, acts: seq<Action>, i: nat)
    requires Run(init, states, acts) && i < |states|
    ensures Flushed(states[i]) ==> states[i].files == Apply(init, states[i].pushed)
    ensures states[i].writer.Exited? ==> states[i].stop && !states[i].busy
  {
    LagsAlways(init, states, acts, i);
  }

  /** When the writer exits, all jobs queued by then are on disk. */
  lemma ExitLeavesCompleteDisk(init: Files, states: seq<State>, acts: seq<Action>, i: nat)
    requires Run(init, states, acts) && i < |acts| && acts[i] == Exit
    ensures states[i + 1].files == Apply(init, states[i + 1].pushed)
  {
    LagsAlways(init, states, acts, i + 1);
    assert Moves(init, states[i], acts[i], states[i + 1]);
  }

  // ---- where values come from ----

  ghost predicate JobsKnown(jobs: seq<Job>, latest: map<Key, Bytes>) {
    forall j :: j in jobs ==> j.key in latest
  }

  ghost predicate ClientKnown(init: Files, latest: map<Key, Bytes>, cl: Client) {
    && (cl.Pushing? ==> cl.job.key in latest)
    && (cl.Fetched? && cl.key !in latest ==> Some(cl.bin) == Lookup(init, cl.key))
  }

  ghost predicate L1Known(init: Files, l1: map<Key, Bytes>, latest: map<Key, Bytes>) {
    && (forall k :: k in latest ==> k in l1)
    && (forall k :: k in l1 && k !in latest ==> Some(l1[k]) == Lookup(init, k))
  }

  ghost predicate DiskKnown(init: Files, files: Files, latest: map<Key, Bytes>) {
    forall k :: k !in latest ==> Lookup(files, k) == Lookup(init, k)
  }

  /** A key never put is on disk as it was at first; what is in L1 or fetched for it comes from there. */
  ghost predicate Untouched(init: Files, s: State) {
    && L1Known(init, s.l1, s.latest) && DiskKnown(init, s.files, s.latest)
    && JobsKnown(s.q, s.latest) && JobsKnown(Hand(s.writer), s.latest)
    && (forall c :: c in s.clients ==> ClientKnown(init, s.latest, s.clients[c]))
  }

  lemma UntouchedKept(init: Files, s: State, a: Action)
    requires Untouched(init, s) && Enabled(s, a)
    ensures Untouched(init, Step(init, s, a))
  {
    hide Lookup;
    match a
    case Pop =>
      hide L1Known, DiskKnown, ClientKnown;
      assert s.q[0] in s.q;
    case Push(c) =>
      hide L1Known, DiskKnown;
      assert forall j :: j in s.q + [s.clients[c].job] ==> j in s.q || j == s.clients[c].job;
    case Write =>
      hide L1Known, ClientKnown;
      assert s.writer.job in Hand(s.writer);
      WriteElsewhere(s.files, s.writer.job);
    case PutL1(c, key, bin) => PutUntouched(init, s, c, key, bin);
    case GetL1(_, _) => hide L1Known, DiskKnown, JobsKnown;
    case GetDisk(_) => GetUntouched(init, s, a);
    case Promote(_) => GetUntouched(init, s, a);
    case _ => hide L1Known, DiskKnown, ClientKnown;
  }

  lemma GetUntouched(init: Files, s: State, a: Action)
    requires Untouched(init, s) && Enabled(s, a) && (a.GetDisk? || a.Promote?)
    ensures Untouched(init, Step(init, s, a))
  {
    hide Lookup, JobsKnown, Hand;
    assert ClientKnown(init, s.latest, s.clients[a.c]);
  }

  lemma PutUntouched(init: Files, s: State, c: nat, key: Key, bin: Bytes)
    requires Untouched(init, s) && c in s.clients && s.clients[c].Idle?
    ensures Untouched(init, Step(init, s, PutL1(c, key, bin)))
  {
    hide Lookup, Hand;
    var s' := Step(init, s, PutL1(c, key, bin));
    forall d | d in s'.clients ensures ClientKnown(init, s'.latest, s'.clients[d]) {
      assert ClientKnown(init, s.latest, s.clients[d]);
    }
  }

  lemma WriteElsewhere(files: Files, job: Job)
    ensures forall k :: k != job.key ==> Lookup(files[job.key := Encode(job.bin)], k) == Lookup(files, k)
  {
  }

  /** L1 holds the last value put. */
  ghost predicate Fresh(s: State) {
    forall k :: k in s.latest ==> k in s.l1 && s.l1[k] == s.latest[k]
  }

  /** The action does not promote over a newer L1 entry. */
  predicate Unovertaken(s: State, a: Action) {
    a.Promote? && a.c in s.clients && s.clients[a.c].Fetched? ==>
      var cl := s.clients[a.c];
      cl.key in s.l1 ==> s.l1[cl.key] == cl.bin
  }

  /**
   `get` promotes without looking at L1 again. From a state whose L1 holds the last values put, a step
   keeps it so exactly when it does not promote a fetched value over a newer entry.
   */
  lemma FreshKeptIff(init: Files, s: State, a: Action)
    requires Untouched(init, s) && Fresh(s) && Enabled(s, a)
    ensures Fresh(Step(init, s, a)) <==> Unovertaken(s, a)
  {
    hide Lookup, Decode;
    if a.Promote? {
      var cl := s.clients[a.c];
      if cl.key in s.latest && s.latest[cl.key] != cl.bin {
        assert !(Step(init, s, a).l1[cl.key] == Step(init, s, a).latest[cl.key]);
      }
    }
  }

  lemma {:induction false} UntouchedAlways(init: Files, states: seq<State>, acts: seq<Action>, i: nat)
    requires Run(init, states, acts) && i < |states|
    ensures Untouched(init, states[i])
  {
    hide Untouched, Step, Enabled;
    if i == 0 {
      StartUntouched(init, states[0]);
    } else {
      UntouchedAlways(init, states, acts, i - 1);
      assert Moves(init, states[i - 1], acts[i - 1], states[i]);
      UntouchedKept(init, states[i - 1], acts[i - 1]);
    }
  }

  lemma StartUntouched(init: Files, s: State)
    requires Initial(init, s)
    ensures Untouched(init, s) && Fresh(s)
  {
    hide Lookup;
  }

  /** Over whole runs: L1 always holds the last values put if and only if no promotion overtakes a put. */
  lemma AlwaysFreshIff(init: Files, states: seq<State>, acts: seq<Action>)
    requires Run(init, states, acts)
    ensures (forall i :: 0 <= i < |states| ==> Fresh(states[i])) <==>
            (forall j :: 0 <= j < |acts| ==> Unovertaken(states[j], acts[j]))
  {
    hide Untouched, Step, Enabled, Fresh, Unovertaken;
    if forall i :: 0 <= i < |states| ==> Fresh(states[i]) {
      forall j | 0 <= j < |acts| ensures Unovertaken(states[j], acts[j]) {
        UntouchedAlways(init, states, acts, j);
        assert Moves(init, states[j], acts[j], states[j + 1]);
        assert Fresh(states[j]) && Fresh(states[j + 1]);
        FreshKeptIff(init, states[j], acts[j]);
      }
    }
    if forall j :: 0 <= j < |acts| ==> Unovertaken(states[j], acts[j]) {
      forall i | 0 <= i < |states| ensures Fresh(states[i]) { FreshUpTo(init, states, acts, i); }
    }
  }

  lemma {:induction false} FreshUpTo(init: Files, states: seq<State>, acts: seq<Action>, i: nat)
    requires Run(init, states, acts) && i < |states|
    requires forall j :: 0 <= j < i ==> Unovertaken(states[j], acts[j])
    ensures Fresh(states[i])
  {
    hide Untouched, Step, Enabled, Fresh, Unovertaken;
    if i == 0 {
      StartUntouched(init, states[0]);
    } else {
      FreshUpTo(init, states, acts, i - 1);
      UntouchedAlways(init, states, acts, i - 1);
      assert Moves(init, states[i - 1], acts[i - 1], states[i]);
      FreshKeptIff(init, states[i - 1], acts[i - 1]);
    }
  }

  // ---- any number of clients ----

  /** A job whose put has updated L1 and that has not reached the disk. */
  ghost predicate InFlight(s: State, j: Job) {
    j in s.q || j in Hand(s.writer) || exists c :: c in s.clients && s.clients[c] == Pushing(j)
  }

  lemma InFlightStep(init: Files, s: State, a: Action, j: Job)
    requires Enabled(s, a) && InFlight(Step(init, s, a), j)
    ensures InFlight(s, j) || (a.PutL1? && j == Job(a.key, a.bin))
  {
    hide Lookup, Value, Encode;
    match a
    case Pop => assert s.q[0] in s.q;
    case Push(c) => assert j in s.q + [s.clients[c].job] ==> j in s.q || s.clients[c] == Pushing(j);
    case _ =>
  }

  lemma InFlightKnown(init: Files, s: State, j: Job)
    requires Untouched(init, s) && InFlight(s, j)
    ensures j.key in s.latest
  {
    hide Lookup, L1Known, DiskKnown;
  }

  /** What a get in flight has fetched, or may still find on disk, is a value its key had meanwhile. */
  ghost predicate Windowed(s: State, cl: Client) {
    && (cl.Fetched? ==> Some(cl.bin) in cl.seen)
    && (cl.Missed? ==> Lookup(s.files, cl.key) in cl.seen
                       && forall j :: InFlight(s, j) && j.key == cl.key ==> Some(j.bin) in cl.seen)
  }

  ghost predicate AllWindowed(s: State) {
    forall c :: c in s.clients ==> Windowed(s, s.clients[c])
  }

  /** The payload fits the length field of a disk entry. */
  predicate Fits(a: Action) { a.PutL1? ==> |a.bin| < WORD }

  ghost predicate AllFit(s: State) { forall j :: InFlight(s, j) ==> |j.bin| < WORD }

  lemma FitKept(init: Files, s: State, a: Action)
    requires AllFit(s) && Fits(a) && Enabled(s, a)
    ensures AllFit(Step(init, s, a))
  {
    hide InFlight, Step;
    forall j | InFlight(Step(init, s, a), j) ensures |j.bin| < WORD { InFlightStep(init, s, a, j); }
  }

  /** The disk value of a key changes only to that of a job in flight. */
  lemma DiskStep(init: Files, s: State, a: Action, key: Key)
    requires AllFit(s) && Enabled(s, a)
    ensures var v := Lookup(Step(init, s, a).files, key);
            v == Lookup(s.files, key) || exists j :: InFlight(s, j) && j.key == key && v == Some(j.bin)
  {
    hide Decode, Encode;
    if a.Write? {
      assert InFlight(s, s.writer.job);
      RoundTripIff(s.writer.job.bin);
    }
  }

  /** How a client reaches a miss: by its own L1 lookup, or by staying there and seeing any put of its key. */
  lemma MissedStep(init: Files, s: State, a: Action, d: nat)
    requires Enabled(s, a) && d in s.clients && Step(init, s, a).clients[d].Missed?
    ensures var cl, cl' := s.clients[d], Step(init, s, a).clients[d];
            || (a == GetL1(d, cl'.key) && a.key !in s.l1 && cl'.seen == {Value(init, s, a.key)})
            || (cl.Missed? && cl.key == cl'.key && cl.seen <= cl'.seen
                && (a.PutL1? && a.key == cl.key ==> Some(a.bin) in cl'.seen))
  {
    hide Lookup, Value, Encode;
  }

  lemma FetchedStep(init: Files, s: State, a: Action, d: nat)
    requires Enabled(s, a) && d in s.clients && Step(init, s, a).clients[d].Fetched?
    ensures var cl, cl' := s.clients[d], Step(init, s, a).clients[d];
            || (cl.Missed? && cl'.seen == cl.seen && Some(cl'.bin) == Lookup(s.files, cl.key))
            || (cl.Fetched? && cl'.bin == cl.bin && cl.seen <= cl'.seen)
  {
    hide Lookup, Value, Encode;
  }

  lemma WindowKept(init: Files, s: State, a: Action, d: nat)
    requires Untouched(init, s) && AllFit(s) && AllWindowed(s) && Enabled(s, a) && d in s.clients
    ensures d in Step(init, s, a).clients && Windowed(Step(init, s, a), Step(init, s, a).clients[d])
  {
    var s' := Step(init, s, a);
    ClientsStay(init, s, a);
    var cl, cl' := s.clients[d], s'.clients[d];
    assert Windowed(s, cl);
    if cl'.Fetched? {
      FetchedStep(init, s, a, d);
    } else if cl'.Missed? {
      MissedStep(init, s, a, d);
      DiskStep(init, s, a, cl'.key);
      if a == GetL1(d, cl'.key) && a.key !in s.l1 { MissSeesDisk(init, s, a.key); }
      hide Step, InFlight, Lookup, Value, Untouched;
      forall j | InFlight(s', j) && j.key == cl'.key ensures Some(j.bin) in cl'.seen {
        InFlightStep(init, s, a, j);
      }
    }
  }

  lemma ClientsStay(init: Files, s: State, a: Action)
    requires Enabled(s, a)
    ensures Step(init, s, a).clients.Keys == s.clients.Keys
  {
  }

  lemma MissSeesDisk(init: Files, s: State, key: Key)
    requires Untouched(init, s) && key !in s.l1
    ensures Lookup(s.files, key) == Value(init, s, key) && forall j :: InFlight(s, j) ==> j.key != key
  {
    hide Lookup, InFlight;
    forall j | InFlight(s, j) ensures j.key != key { InFlightKnown(init, s, j); }
  }

  ghost predicate Good(init: Files, s: State) {
    Untouched(init, s) && Fresh(s) && AllFit(s) && AllWindowed(s)
  }

  lemma GoodStarts(init: Files, s: State)
    requires Initial(init, s)
    ensures Good(init, s)
  {
    hide Lookup;
  }

  lemma GoodKept(init: Files, s: State, a: Action)
    requires Good(init, s) && Enabled(s, a) && Unovertaken(s, a) && Fits(a)
    ensures Good(init, Step(init, s, a))
  {
    hide Untouched, Fresh, AllFit, Windowed, Unovertaken, Fits, Step, Enabled;
    UntouchedKept(init, s, a);
    FreshKeptIff(init, s, a);
    FitKept(init, s, a);
    ClientsStay(init, s, a);
    forall d | d in s.clients ensures Windowed(Step(init, s, a), Step(init, s, a).clients[d]) {
      WindowKept(init, s, a, d);
    }
  }

  lemma {:induction false} GoodAlways(init: Files, states: seq<State>, acts: seq<Action>, i: nat)
    requires Run(init, states, acts) && i < |states|
    requires forall j :: 0 <= j < i ==> Unovertaken(states[j], acts[j]) && Fits(acts[j])
    ensures Good(init, states[i])
  {
    hide Good, Unovertaken, Fits, Step, Enabled;
    if i == 0 {
      GoodStarts(init, states[0]);
    } else {
      GoodAlways(init, states, acts, i - 1);
      assert Moves(init, states[i - 1], acts[i - 1], states[i]);
      GoodKept(init, states[i - 1], acts[i - 1]);
    }
  }

  /** The client is inside a get of the key that missed in L1. */
  predicate InGet(s: State, c: nat, key: Key) {
    c in s.clients && (s.clients[c].Missed? || s.clients[c].Fetched?) && s.clients[c].key == key
  }

  /** A get that client `c` began with action `c0` and has not left when action `i` is taken. */
  ghost predicate GetSpans(states: seq<State>, acts: seq<Action>, c: nat, key: Key, c0: nat, i: nat) {
    && c0 <= i < |states| && c0 < |acts| && acts[c0] == GetL1(c, key)
    && forall m :: c0 < m <= i ==> InGet(states[m], c, key)
  }

  /** One of the values of the key from action `c0` on. */
  ghost predicate HadValue(init: Files, states: seq<State>, key: Key, c0: nat, i: nat, v: Option<Bytes>) {
    exists j :: c0 <= j <= i && j < |states| && Value(init, states[j], key) == v
  }

  /** The history of a get in flight is right: it began with an L1 lookup, and its key has had each value since. */
  ghost predicate Witnessed(init: Files, states: seq<State>, acts: seq<Action>, c: nat, key: Key, c0: nat, i: nat,
                            seen: set<Option<Bytes>>) {
    && c0 < i && GetSpans(states, acts, c, key, c0, i)
    && forall v :: v in seen ==> HadValue(init, states, key, c0, i, v)
  }

  lemma {:induction false} SeenAre(init: Files, states: seq<State>, acts: seq<Action>, c: nat, key: Key, i: nat)
      returns (c0: nat)
    requires Run(init, states, acts) && i < |states| && InGet(states[i], c, key)
    ensures Witnessed(init, states, acts, c, key, c0, i, states[i].clients[c].seen)
  {
    if i == 0 {
      assert false;
    } else {
      var s, a, s' := states[i - 1], acts[i - 1], states[i];
      assert Moves(init, s, a, s');
      ClientsStay(init, s, a);
      SeenStep(init, s, a, c, key);
      hide Step, Value, Lookup, Run;
      if InGet(s, c, key) && s'.clients[c].seen <= s.clients[c].seen + PutValue(a, key) {
        c0 := SeenAre(init, states, acts, c, key, i - 1);
        SeenOn(init, states, acts, c, key, c0, i);
      } else {
        c0 := i - 1;
        assert HadValue(init, states, key, c0, i, Value(init, states[i - 1], key));
      }
    }
  }

  /** The value that an action puts for the key, if any. */
  ghost function PutValue(a: Action, key: Key): set<Option<Bytes>> {
    if a.PutL1? && a.key == key then {Some(a.bin)} else {}
  }

  /** A get goes on and notes what is put, or begins. */
  lemma SeenStep(init: Files, s: State, a: Action, c: nat, key: Key)
    requires Enabled(s, a) && InGet(Step(init, s, a), c, key)
    ensures c in s.clients
    ensures var seen := Step(init, s, a).clients[c].seen;
            || (InGet(s, c, key) && seen <= s.clients[c].seen + PutValue(a, key))
            || (a == GetL1(c, key) && seen == {Value(init, s, key)})
    ensures a.PutL1? && a.key == key ==> Value(init, Step(init, s, a), key) == Some(a.bin)
  {
    hide Lookup, Encode;
  }

  lemma SeenOn(init: Files, states: seq<State>, acts: seq<Action>, c: nat, key: Key, c0: nat, i: nat)
    requires 0 < i < |states| && i <= |acts| && InGet(states[i], c, key) && InGet(states[i - 1], c, key)
    requires Witnessed(init, states, acts, c, key, c0, i - 1, states[i - 1].clients[c].seen)
    requires states[i].clients[c].seen <= states[i - 1].clients[c].seen + PutValue(acts[i - 1], key)
    requires acts[i - 1].PutL1? && acts[i - 1].key == key ==> Value(init, states[i], key) == Some(acts[i - 1].bin)
    ensures Witnessed(init, states, acts, c, key, c0, i, states[i].clients[c].seen)
  {
    var seen, seen' := states[i - 1].clients[c].seen, states[i].clients[c].seen;
    hide InGet, Value;
    forall v | v in seen' ensures HadValue(init, states, key, c0, i, v) {
      if v in seen {
        var j :| c0 <= j <= i - 1 && j < |states| && Value(init, states[j], key) == v;
        assert c0 <= j <= i && Value(init, states[j], key) == v;
      } else {
        assert Value(init, states[i], key) == v;
      }
    }
  }

  /** The key of the get that this action ends. */
  function GetKey(s: State, a: Action): Key
    requires Enabled(s, a) && Reply(s, a).Some?
  {
    if a.GetL1? then a.key else s.clients[a.c].key
  }

  /**
   With any number of clients, in a run whose promotions never overtake a put and whose payloads fit a
   disk entry, every get returns a value that its key had at some moment between its call and its return.
   */
  lemma GetsAreLinearizable(init: Files, states: seq<State>, acts: seq<Action>, i: nat)
    requires Run(init, states, acts) && i < |acts|
    requires forall j :: 0 <= j < i ==> Unovertaken(states[j], acts[j]) && Fits(acts[j])
    ensures Enabled(states[i], acts[i])
    ensures var s, a := states[i], acts[i];
            Reply(s, a).Some? ==>
              exists c0: nat, j: nat ::
                && GetSpans(states, acts, a.c, GetKey(s, a), c0, i) && c0 <= j <= i
                && Reply(s, a).value == Value(init, states[j], GetKey(s, a))
  {
    var s, a := states[i], acts[i];
    assert Moves(init, s, a, states[i + 1]);
    GoodAlways(init, states, acts, i);
    hide Lookup, AllFit, Step, InFlight, Unovertaken, Fits, Moves, Run;
    if a.GetL1? && Reply(s, a).Some? {
      assert GetSpans(states, acts, a.c, a.key, i, i);
      assert Reply(s, a).value == Value(init, states[i], GetKey(s, a));
    } else if a.GetDisk? || a.Promote? {
      assert Windowed(s, s.clients[a.c]);
      var key := s.clients[a.c].key;
      var c0 := SeenAre(init, states, acts, a.c, key, i);
      if Reply(s, a).Some? {
        assert Reply(s, a).value in s.clients[a.c].seen;
        assert HadValue(init, states, key, c0, i, Reply(s, a).value);
        var j :| c0 <= j <= i && j < |states| && Value(init, states[j], key) == Reply(s, a).value;
        assert GetSpans(states, acts, a.c, GetKey(s, a), c0, i);
      }
    }
  }

  // ---- one client and the writer ----

  /** While the only client is inside a get that missed, its key stays out of L1. */
  ghost predicate Solo(s: State, c: nat) {
    s.clients.Keys == {c} && (s.clients[c].Missed? || s.clients[c].Fetched? ==> s.clients[c].key !in s.l1)
  }

  lemma SoloKept(init: Files, s: State, a: Action, c: nat)
    requires Solo(s, c) && Enabled(s, a)
    ensures Unovertaken(s, a) && Solo(Step(init, s, a), c)
  {
    hide Lookup, Value, Encode;
    assert forall d :: d in s.clients ==> d == c;
    ClientsStay(init, s, a);
  }

  lemma {:induction false} SoloAlways(init: Files, states: seq<State>, acts: seq<Action>, c: nat, i: nat)
    requires Run(init, states, acts) && states[0].clients.Keys == {c} && i < |states|
    ensures Solo(states[i], c) && Untouched(init, states[i]) && Fresh(states[i])
  {
    hide Untouched, Fresh, Step, Enabled, Unovertaken;
    if i == 0 {
      assert c in states[0].clients;
      GoodStarts(init, states[0]);
      hide Initial;
    } else {
      SoloAlways(init, states, acts, c, i - 1);
      var s, a := states[i - 1], acts[i - 1];
      assert Moves(init, s, a, states[i]);
      hide Solo;
      SoloKept(init, s, a, c);
      UntouchedKept(init, s, a);
      FreshKeptIff(init, s, a);
    }
  }

  /**
   In every interleaving of one client with the writer, however far the writer lags, a get returns the
   last value put for its key, else the value first on disk.
   */
  lemma ReadYourWrites(init: Files, states: seq<State>, acts: seq<Action>, c: nat, i: nat)
    requires Run(init, states, acts) && states[0].clients.Keys == {c} && i < |acts|
    ensures Enabled(states[i], acts[i])
    ensures var s, a := states[i], acts[i];
            Reply(s, a).Some? ==> Reply(s, a) == Some(Value(init, s, GetKey(s, a)))
  {
    var s, a := states[i], acts[i];
    assert Moves(init, s, a, states[i + 1]);
    SoloAlways(init, states, acts, c, i);
    hide Lookup, Step, Initial, Run;
    if a.GetDisk? || a.Promote? {
      assert a.c == c;
      assert ClientKnown(init, s.latest, s.clients[c]);
    }
  }

  // ---- the disk after a flush, seen from L1 ----

  function LastFor(jobs: seq<Job>, key: Key): Option<Bytes>
    decreases |jobs|
  {
    if jobs == [] then None
    else var n := |jobs| - 1; if jobs[n].key == key then Some(jobs[n].bin) else LastFor(jobs[..n], key)
  }

  lemma {:induction false} ApplyLast(files: Files, jobs: seq<Job>, key: Key)
    requires LastFor(jobs, key).Some?
    ensures Lookup(Apply(files, jobs), key) == Decode(Encode(LastFor(jobs, key).value))
    decreases |jobs|
  {
    hide Encode, Decode;
    var n := |jobs| - 1;
    if jobs[n].key != key { ApplyLast(files, jobs[..n], key); }
  }

  /** A client between the L1 update and the queue push of a put of `key`. */
  predicate PushesKey(s: State, c: nat, key: Key) {
    c in s.clients && s.clients[c].Pushing? && s.clients[c].job.key == key
  }

  /** No put of a key begins while another put of it has yet to reach the queue. */
  ghost predicate Alone(s: State, a: Action) {
    a.PutL1? ==> forall c :: !PushesKey(s, c, a.key)
  }

  /** Every last value put is the last job queued for its key, or is about to be, by one client. */
  ghost predicate Ordered(s: State) {
    && (forall c, k :: PushesKey(s, c, k) ==> k in s.latest && s.clients[c].job.bin == s.latest[k])
    && (forall c, d, k :: PushesKey(s, c, k) && PushesKey(s, d, k) ==> c == d)
    && (forall k :: k in s.latest ==> LastFor(s.pushed, k) == Some(s.latest[k]) || exists c :: PushesKey(s, c, k))
  }

  lemma OrderedPut(init: Files, s: State, a: Action)
    requires Ordered(s) && Enabled(s, a) && Alone(s, a) && a.PutL1?
    ensures Ordered(Step(init, s, a))
  {
    hide LastFor;
    var s' := Step(init, s, a);
    assert forall c, k :: PushesKey(s', c, k) ==>
        (c == a.c && k == a.key) || (PushesKey(s, c, k) && c != a.c && s'.clients[c] == s.clients[c]);
    assert forall c, k :: PushesKey(s, c, k) ==> PushesKey(s', c, k);
    assert PushesKey(s', a.c, a.key);
  }

  lemma OrderedPush(init: Files, s: State, a: Action)
    requires Ordered(s) && Enabled(s, a) && a.Push?
    ensures Ordered(Step(init, s, a))
  {
    var s' := Step(init, s, a);
    var job := s.clients[a.c].job;
    assert PushesKey(s, a.c, job.key);
    assert forall c, k :: PushesKey(s', c, k) <==> PushesKey(s, c, k) && c != a.c;
    assert s'.pushed[..|s.pushed|] == s.pushed;
    assert forall k :: LastFor(s'.pushed, k) == if job.key == k then Some(job.bin) else LastFor(s.pushed, k);
  }

  lemma OrderedKept(init: Files, s: State, a: Action)
    requires Ordered(s) && Enabled(s, a) && Alone(s, a)
    ensures Ordered(Step(init, s, a))
  {
    if a.PutL1? {
      OrderedPut(init, s, a);
    } else if a.Push? {
      OrderedPush(init, s, a);
    } else {
      OthersPushNothing(init, s, a);
      hide LastFor, Lookup, Value, Step;
      var s' := Step(init, s, a);
      assert forall c, k :: PushesKey(s', c, k) <==> PushesKey(s, c, k);
    }
  }

  lemma OthersPushNothing(init: Files, s: State, a: Action)
    requires Enabled(s, a) && !a.PutL1? && !a.Push?
    ensures var s' := Step(init, s, a);
            && s'.latest == s.latest && s'.pushed == s.pushed && s'.clients.Keys == s.clients.Keys
            && forall c :: c in s.clients && (s.clients[c].Pushing? || s'.clients[c].Pushing?) ==>
                s'.clients[c] == s.clients[c]
  {
    hide Lookup, Value, Encode, Notify;
  }

  lemma {:induction false} OrderedAlways(init: Files, states: seq<State>, acts: seq<Action>, i: nat)
    requires Run(init, states, acts) && i < |states|
    requires forall j :: 0 <= j < i ==> Alone(states[j], acts[j])
    ensures Ordered(states[i])
  {
    if i > 0 {
      hide Ordered, Step, Enabled, Alone;
      OrderedAlways(init, states, acts, i - 1);
      assert Moves(init, states[i - 1], acts[i - 1], states[i]);
      OrderedKept(init, states[i - 1], acts[i - 1]);
    }
  }

  /** A key that was put has a job in the queue's history, unless its put is still to be pushed. */
  ghost predicate Tracked(s: State) {
    forall k :: k in s.latest ==> LastFor(s.pushed, k).Some? || exists c :: PushesKey(s, c, k)
  }

  lemma TrackedKept(init: Files, s: State, a: Action)
    requires Tracked(s) && Enabled(s, a)
    ensures Tracked(Step(init, s, a))
  {
    var s' := Step(init, s, a);
    if a.PutL1? {
      hide LastFor;
      assert PushesKey(s', a.c, a.key);
      assert forall c, k :: PushesKey(s, c, k) ==> PushesKey(s', c, k);
    } else if a.Push? {
      var job := s.clients[a.c].job;
      assert forall c, k :: PushesKey(s, c, k) && c != a.c ==> PushesKey(s', c, k);
      assert s'.pushed[..|s.pushed|] == s.pushed;
      assert forall k :: LastFor(s'.pushed, k) == if job.key == k then Some(job.bin) else LastFor(s.pushed, k);
    } else {
      OthersPushNothing(init, s, a);
      hide LastFor, Lookup, Value, Step;
      assert forall c, k :: PushesKey(s, c, k) ==> PushesKey(s', c, k);
    }
  }

  lemma {:induction false} TrackedAlways(init: Files, states: seq<State>, acts: seq<Action>, i: nat)
    requires Run(init, states, acts) && i < |states|
    ensures Tracked(states[i])
  {
    if i > 0 {
      hide Tracked, Step, Enabled;
      TrackedAlways(init, states, acts, i - 1);
      assert Moves(init, states[i - 1], acts[i - 1], states[i]);
      TrackedKept(init, states[i - 1], acts[i - 1]);
    }
  }

  /**
   With any number of clients and any overlap of their puts: once flush's condition holds and no put of
   the key is unfinished, the disk returns the last value put exactly when the last job queued for the
   key, which fits a disk entry, carries that value.
   */
  lemma FlushedDiskIff(init: Files, states: seq<State>, acts: seq<Action>, i: nat, key: Key)
    requires Run(init, states, acts) && i < |states| && Flushed(states[i])
    requires key in states[i].latest && forall c :: !PushesKey(states[i], c, key)
    ensures var s := states[i]; var last := LastFor(s.pushed, key);
            && last.Some?
            && (|last.value| < WORD ==> (Lookup(s.files, key) == Some(s.latest[key]) <==> last == Some(s.latest[key])))
  {
    hide Lookup;
    var s := states[i];
    TrackedAlways(init, states, acts, i);
    FlushedDiskIsComplete(init, states, acts, i);
    ApplyLast(init, s.pushed, key);
    RoundTripIff(LastFor(s.pushed, key).value);
  }

  /**
   In particular, if puts of one key never overlap, the flushed disk returns the last value put exactly
   when that value fits a disk entry.
   */
  lemma FlushedDiskHasLatest(init: Files, states: seq<State>, acts: seq<Action>, i: nat, key: Key)
    requires Run(init, states, acts) && i < |states| && Flushed(states[i])
    requires forall j :: 0 <= j < i ==> Alone(states[j], acts[j])
    requires key in states[i].latest && forall c :: !PushesKey(states[i], c, key)
    ensures Lookup(states[i].files, key) == Some(states[i].latest[key]) <==> |states[i].latest[key]| < WORD
  {
    hide Alone, Lookup;
    var s := states[i];
    OrderedAlways(init, states, acts, i);
    FlushedDiskIff(init, states, acts, i, key);
    FlushedDiskIsComplete(init, states, acts, i);
    ApplyLast(init, s.pushed, key);
    RoundTripIff(s.latest[key]);
  }

  // ---- two runs that the conditions above exclude ----

  ghost predicate Resting(s: State) { forall c :: c in s.clients ==> s.clients[c].Idle? }

  function Start(files: Files): State {
    State(map[], files, [], false, false, Waiting, map[0 := Idle, 1 := Idle], [], map[])
  }

  /** A run goes on with any enabled action. */
  lemma Extend(init: Files, states: seq<State>, acts: seq<Action>, a: Action, s': State)
      returns (states': seq<State>, acts': seq<Action>)
    requires Run(init, states, acts) && Moves(init, states[|acts|], a, s')
    ensures states' == states + [s'] && acts' == acts + [a] && Run(init, states', acts')
  {
    hide Moves;
    states', acts' := states + [s'], acts + [a];
    forall i | 0 <= i < |acts'| ensures Moves(init, states'[i], acts'[i], states'[i + 1]) {
      if i < |acts| { assert Moves(init, states[i], acts[i], states[i + 1]); }
    }
  }

  /** Client 1 has fetched the old value when client 0 puts the new one. */
  lemma FetchThenPut(k: Key, old_: Bytes, new_: Bytes) returns (init: Files, states: seq<State>, acts: seq<Action>)
    requires |old_| < WORD
    ensures init == map[k := Encode(old_)] && Run(init, states, acts) && |acts| == 3
    ensures var seen := {Some(old_)} + {Some(new_)};
            states[3] == State(map[k := new_], init, [], false, false, Waiting,
              map[0 := Pushing(Job(k, new_)), 1 := Fetched(k, old_, seen)], [], map[k := new_])
  {
    hide Encode, Decode;
    RoundTripIff(old_);
    init := map[k := Encode(old_)];
    assert Lookup(init, k) == Some(old_);
    var s0 := Start(init);
    var s1 := s0.(clients := map[0 := Idle, 1 := Missed(k, {Some(old_)})]);
    var s2 := s0.(clients := map[0 := Idle, 1 := Fetched(k, old_, {Some(old_)})]);
    var s3 := s0.(l1 := map[k := new_], latest := map[k := new_],
                  clients := map[0 := Pushing(Job(k, new_)), 1 := Fetched(k, old_, {Some(old_)} + {Some(new_)})]);
    assert Run(init, [s0], []);
    hide Run;
    assert Moves(init, s0, GetL1(1, k), s1) && Moves(init, s1, GetDisk(1), s2) &&
        Moves(init, s2, PutL1(0, k, new_), s3);
    hide Moves;
    states, acts := Extend(init, [s0], [], GetL1(1, k), s1);
    states, acts := Extend(init, states, acts, GetDisk(1), s2);
    states, acts := Extend(init, states, acts, PutL1(0, k, new_), s3);
  }

  /** Client 1 then promotes the old value over the new one, and client 0, its put complete, reads it back. */
  lemma StalePromotion(k: Key) returns (init: Files, states: seq<State>, acts: seq<Action>)
    ensures Run(init, states, acts) && |acts| == 6 && acts[5] == GetL1(0, k) && Resting(states[5])
    ensures Enabled(states[5], acts[5]) && Reply(states[5], acts[5]) == Some(Some([0]))
    ensures Value(init, states[5], k) == Some([1])
  {
    hide Encode, Decode, Lookup, Run;
    init, states, acts := FetchThenPut(k, [0], [1]);
    RunShape(init, states, acts);
    var s3, job := states[3], Job(k, [1]);
    var s4 := s3.(q := [job], pushed := [job], clients := map[0 := Idle, 1 := s3.clients[1]]);
    var s5 := s4.(l1 := map[k := [0]], clients := map[0 := Idle, 1 := Idle]);
    assert Moves(init, s3, Push(0), s4) && Moves(init, s4, Promote(1), s5) && Moves(init, s5, GetL1(0, k), s5);
    states, acts := Extend(init, states, acts, Push(0), s4);
    states, acts := Extend(init, states, acts, Promote(1), s5);
    states, acts := Extend(init, states, acts, GetL1(0, k), s5);
  }

  lemma RunShape(init: Files, states: seq<State>, acts: seq<Action>)
    requires Run(init, states, acts)
    ensures |states| == |acts| + 1
  {
  }

  lemma PutMoves(k: Key, c: nat, v: Bytes, s: State, s': State)
    requires c in s.clients && s.clients[c] == Idle
    requires forall d :: d in s.clients ==> s.clients[d].Idle? || s.clients[d].Pushing?
    requires s' == s.(l1 := s.l1[k := v], latest := s.latest[k := v], clients := s.clients[c := Pushing(Job(k, v))])
    ensures Moves(map[], s, PutL1(c, k, v), s')
  {
    hide Lookup, Value, Encode;
    assert Notify(s.clients, k, v) == s.clients;
  }

  /** Two puts of one key reach L1 in one order and the queue in the other. */
  lemma PushesCross(k: Key, v: Bytes, w: Bytes) returns (states: seq<State>, acts: seq<Action>)
    ensures Run(map[], states, acts) && |acts| == 4
    ensures states[4] == State(map[k := w], map[], [Job(k, w), Job(k, v)], false, false, Waiting,
              map[0 := Idle, 1 := Idle], [Job(k, w), Job(k, v)], map[k := w])
  {
    var s0 := Start(map[]);
    var jv, jw := Job(k, v), Job(k, w);
    var s1 := s0.(l1 := map[k := v], latest := map[k := v], clients := map[0 := Pushing(jv), 1 := Idle]);
    var s2 := s0.(l1 := map[k := w], latest := map[k := w], clients := map[0 := Pushing(jv), 1 := Pushing(jw)]);
    assert Run(map[], [s0], []);
    hide Run, Step;
    PutMoves(k, 0, v, s0, s1);
    PutMoves(k, 1, w, s1, s2);
    states, acts := Extend(map[], [s0], [], PutL1(0, k, v), s1);
    states, acts := Extend(map[], states, acts, PutL1(1, k, w), s2);
    states, acts := CrossedPushes(states, acts, jv, jw);
  }

  lemma CrossedPushes(states: seq<State>, acts: seq<Action>, jv: Job, jw: Job)
      returns (states': seq<State>, acts': seq<Action>)
    requires Run(map[], states, acts)
    requires states[|acts|].clients == map[0 := Pushing(jv), 1 := Pushing(jw)]
    ensures Run(map[], states', acts') && |acts'| == |acts| + 2
    ensures var s := states[|acts|];
            states'[|acts'|] == s.(q := s.q + [jw] + [jv], pushed := s.pushed + [jw] + [jv],
                clients := map[0 := Idle, 1 := Idle])
  {
    hide Run, Lookup, Value, Encode;
    RunShape(map[], states, acts);
    var s := states[|acts|];
    var s1 := s.(q := s.q + [jw], pushed := s.pushed + [jw], clients := map[0 := Pushing(jv), 1 := Idle]);
    var s2 := s1.(q := s1.q + [jv], pushed := s1.pushed + [jv], clients := map[0 := Idle, 1 := Idle]);
    assert Moves(map[], s, Push(1), s1);
    assert Moves(map[], s1, Push(0), s2);
    hide Moves;
    states', acts' := Extend(map[], states, acts, Push(1), s1);
    states', acts' := Extend(map[], states', acts', Push(0), s2);
  }

  /** The writer takes one job from the queue to the disk. */
  lemma WriteOne(init: Files, states: seq<State>, acts: seq<Action>)
      returns (states': seq<State>, acts': seq<Action>)
    requires Run(init, states, acts)
    requires var s := states[|acts|]; s.writer.Waiting? && !s.busy && s.q != []
    ensures Run(init, states', acts') && |acts'| == |acts| + 3
    ensures var s := states[|acts|];
            states'[|acts'|] == s.(q := s.q[1..], files := s.files[s.q[0].key := Encode(s.q[0].bin)])
  {
    hide Run, Encode;
    RunShape(init, states, acts);
    var s := states[|acts|];
    var s1 := Step(init, s, Pop);
    var s2 := Step(init, s1, Write);
    var s3 := Step(init, s2, Done);
    states', acts' := Extend(init, states, acts, Pop, s1);
    states', acts' := Extend(init, states', acts', Write, s2);
    states', acts' := Extend(init, states', acts', Done, s3);
  }

  /** Once flushed, with every client at rest, the disk then disagrees with L1. */
  lemma PutsCross(k: Key) returns (states: seq<State>, acts: seq<Action>)
    ensures Run(map[], states, acts) && Flushed(states[|acts|]) && Resting(states[|acts|])
    ensures var s := states[|acts|]; k in s.l1 && s.l1[k] == [1] && Lookup(s.files, k) == Some([0])
  {
    hide Encode, Decode, Run;
    states, acts := PushesCross(k, [0], [1]);
    RunShape(map[], states, acts);
    states, acts := WriteOne(map[], states, acts);
    RunShape(map[], states, acts);
    states, acts := WriteOne(map[], states, acts);
    RunShape(map[], states, acts);
    RoundTripIff([0]);
  }
}
