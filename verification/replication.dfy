/** Following the coordinator's chain of block diffs, with disconnects, failed applies and restarts. */
module Replication {
  import opened Primitives
  import opened StateStore
  import BigEndian

  /** The height after which the next one to ask for would wrap around. */
  const MOST_HEIGHT: nat := UINT64_LIMIT - 1

  /** The diffs of heights 1, 2, 3, ... as the coordinator has them. */
  type Chain = seq<seq<Entry>>

  /** Apply the diffs of heights lo+1 to hi, each with its height. */
  function Replay(c: Content, chain: Chain, lo: nat, hi: nat): Content
    requires lo <= hi <= |chain| < MOST_HEIGHT
    decreases hi
  {
    if hi == lo then c else Commit(Replay(c, chain, lo, hi - 1), hi, chain[hi - 1])
  }

  function Heights(lo: nat, hi: nat): seq<nat>
    requires lo <= hi
    decreases hi
  {
    if hi == lo then [] else Heights(lo, hi - 1) + [hi]
  }

  lemma {:induction false} ReplayHeight(c: Content, chain: Chain, lo: nat, hi: nat)
    requires lo <= hi <= |chain| < MOST_HEIGHT && PersistedHeight(c) == lo
    ensures PersistedHeight(Replay(c, chain, lo, hi)) == hi
    decreases hi
  {
    if hi > lo {
      CommitPersistsHeight(Replay(c, chain, lo, hi - 1), hi, chain[hi - 1]);
    }
  }

  // ---- The agent as a transition system ----

  /** Idle between streams; waiting for the diff of a height; or with a diff committed to disk
    * whose height is not in memory yet. */
  datatype Phase = Idle | Streaming(next: nat) | Committed(height: nat)

  datatype Agent = Agent(db: Content, memory: nat, phase: Phase, ready: bool, closes: nat, applied: seq<nat>)

  datatype Event = Connect | Apply | ApplyFails | Publish | Disconnect | Restart

  /** The height the agent asks for; the coordinator takes zero to mean one. */
  function RequestFrom(memory: nat): nat {
    if memory > 0 then (memory + 1) % UINT64_LIMIT else 0
  }

  function FirstServed(from: nat): nat {
    if from == 0 then 1 else from
  }

  /** Events that cannot happen in a phase change nothing. */
  function Step(a: Agent, chain: Chain, e: Event): Agent
    requires |chain| < MOST_HEIGHT
  {
    match e
    case Connect =>
      if a.phase.Idle? then a.(phase := Streaming(FirstServed(RequestFrom(a.memory)))) else a
    case Apply =>
      if a.phase.Streaming? && 1 <= a.phase.next <= |chain| then
        var n := a.phase.next;
        a.(db := Commit(a.db, n, chain[n - 1]), phase := Committed(n), applied := a.applied + [n])
      else a
    case ApplyFails =>
      if a.phase.Streaming? then a.(phase := Idle) else a
    case Publish =>
      if a.phase.Committed? then
        a.(memory := a.phase.height, phase := Streaming(a.phase.height + 1),
           ready := true, closes := if a.ready then a.closes else a.closes + 1)
      else a
    case Disconnect =>
      if a.phase.Streaming? then a.(phase := Idle) else a
    case Restart =>
      a.(memory := PersistedHeight(a.db), phase := Idle, ready := false, closes := 0)
  }

  function Run(a: Agent, chain: Chain, es: seq<Event>): Agent
    requires |chain| < MOST_HEIGHT
    decreases |es|
  {
    if es == [] then a else Run(Step(a, chain, es[0]), chain, es[1..])
  }

  function Boot(c: Content): Agent {
    Agent(c, PersistedHeight(c), Idle, false, 0, [])
  }

  /** Disk holds exactly the replay up to its height, every height applied once and in order; memory
    * lags by one only while a commit is being published; the ready channel is closed at most once. */
  ghost predicate InStep(a: Agent, base: Content, chain: Chain)
    requires |chain| < MOST_HEIGHT
  {
    var lo, p := PersistedHeight(base), PersistedHeight(a.db);
    && lo <= p <= |chain|
    && a.db == Replay(base, chain, lo, p)
    && a.applied == Heights(lo, p)
    && (match a.phase
        case Idle => a.memory == p
        case Streaming(next) => a.memory == p && next == p + 1
        case Committed(h) => h == p && a.memory == p - 1)
    && a.closes == (if a.ready then 1 else 0)
  }

  lemma StepKeeps(a: Agent, base: Content, chain: Chain, e: Event)
    requires |chain| < MOST_HEIGHT && InStep(a, base, chain)
    ensures InStep(Step(a, chain, e), base, chain)
  {
    hide Commit, PersistedHeight;
    if e.Apply? && a.phase.Streaming? && a.phase.next <= |chain| {
      CommitPersistsHeight(a.db, a.phase.next, chain[a.phase.next - 1]);
    }
  }

  lemma {:induction false} RunKeeps(a: Agent, base: Content, chain: Chain, es: seq<Event>)
    requires |chain| < MOST_HEIGHT && InStep(a, base, chain)
    ensures InStep(Run(a, chain, es), base, chain)
    decreases |es|
  {
    hide Step, InStep;
    if es != [] {
      StepKeeps(a, base, chain, es[0]);
      RunKeeps(Step(a, chain, es[0]), base, chain, es[1..]);
    }
  }

  /** In every run, whatever the order of connects, deliveries, failures, disconnects and restarts:
    * the disk holds the replay of the chain up to the persisted height, no height was skipped or
    * applied twice, the height in memory is never ahead of it and equal to it unless a commit is
    * being published, and the ready channel was closed at most once. */
  lemma ReplicationSafety(base: Content, chain: Chain, es: seq<Event>)
    requires PersistedHeight(base) <= |chain| < MOST_HEIGHT
    ensures
      var a := Run(Boot(base), chain, es);
      var lo, p := PersistedHeight(base), PersistedHeight(a.db);
      && lo <= p <= |chain|
      && a.db == Replay(base, chain, lo, p)
      && a.applied == Heights(lo, p)
      && a.memory <= p && (!a.phase.Committed? ==> a.memory == p)
      && a.closes <= 1
  {
    hide PersistedHeight;
    assert InStep(Boot(base), base, chain);
    RunKeeps(Boot(base), base, chain, es);
  }

  lemma CommitKeepsNamespaces(c: Content, h: uint64, es: seq<Entry>)
    requires NAMESPACES <= c.Keys
    ensures NAMESPACES <= Commit(c, h, es).Keys
  {
    hide BigEndian.Encode;
    EntriesKeepNamespaces(c, es);
  }

  lemma {:induction false} EntriesKeepNamespaces(c: Content, es: seq<Entry>)
    requires NAMESPACES <= c.Keys
    ensures NAMESPACES <= ApplyEntries(c, es).Keys
    decreases |es|
  {
    if es != [] {
      EntriesKeepNamespaces(c, es[..|es| - 1]);
    }
  }

  lemma {:induction false} RunKeepsNamespaces(a: Agent, chain: Chain, es: seq<Event>)
    requires |chain| < MOST_HEIGHT && NAMESPACES <= a.db.Keys
    ensures NAMESPACES <= Run(a, chain, es).db.Keys
    decreases |es|
  {
    hide Commit, PersistedHeight;
    if es != [] {
      if es[0].Apply? && a.phase.Streaming? && 1 <= a.phase.next <= |chain| {
        CommitKeepsNamespaces(a.db, a.phase.next, chain[a.phase.next - 1]);
      }
      RunKeepsNamespaces(Step(a, chain, es[0]), chain, es[1..]);
    }
  }

  /** However a run has gone, even if it broke off between a commit and its publication: a restart finds the store
    * exactly as it is on disk, and the agent starts over from the height that the disk replays. */
  lemma RestartIsReopening(stored: Content, chain: Chain, es: seq<Event>)
    requires PersistedHeight(stored) <= |chain| < MOST_HEIGHT
    ensures
      var a := Run(Boot(WithBuckets(stored)), chain, es);
      var b := Step(a, chain, Restart);
      && b == Boot(WithBuckets(a.db)).(applied := a.applied) && b.db == a.db
      && PersistedHeight(stored) <= b.memory <= |chain|
      && b.db == Replay(WithBuckets(stored), chain, PersistedHeight(stored), b.memory)
  {
    var base := WithBuckets(stored);
    var a := Run(Boot(base), chain, es);
    OpeningReadsTheDisk(stored);
    assert PersistedHeight(base) == PersistedHeight(stored);
    hide WithBuckets, PersistedHeight, Replay;
    ReplicationSafety(base, chain, es);
    RunKeepsNamespaces(Boot(base), chain, es);
    OpeningReadsTheDisk(a.db);
  }

  lemma {:induction false} RunSplits(a: Agent, chain: Chain, xs: seq<Event>, ys: seq<Event>)
    requires |chain| < MOST_HEIGHT
    ensures Run(a, chain, xs + ys) == Run(Run(a, chain, xs), chain, ys)
    decreases |xs|
  {
    hide Step;
    if xs == [] {
      assert xs + ys == ys;
    } else {
      assert (xs + ys)[1..] == xs[1..] + ys;
      RunSplits(Step(a, chain, xs[0]), chain, xs[1..], ys);
    }
  }

  function Fetches(n: nat): seq<Event> {
    if n == 0 then [] else [Apply, Publish] + Fetches(n - 1)
  }

  lemma {:induction false} FetchesAdvance(a: Agent, base: Content, chain: Chain, n: nat)
    requires |chain| < MOST_HEIGHT && InStep(a, base, chain) && a.phase.Streaming? && a.memory + n <= |chain|
    ensures
      var z := Run(a, chain, Fetches(n));
      InStep(z, base, chain) && z.phase.Streaming? && z.memory == a.memory + n
    decreases n
  {
    hide Commit, PersistedHeight;
    if n > 0 {
      var b := Step(a, chain, Apply);
      var c := Step(b, chain, Publish);
      StepKeeps(a, base, chain, Apply);
      StepKeeps(b, base, chain, Publish);
      assert Fetches(n)[1..][1..] == Fetches(n - 1);
      assert Run(a, chain, Fetches(n)) == Run(b, chain, Fetches(n)[1..]) == Run(c, chain, Fetches(n - 1));
      FetchesAdvance(c, base, chain, n - 1);
    }
  }

  /** However a run has gone, reconnecting and receiving what is missing brings the agent level with the chain. */
  lemma CanAlwaysCatchUp(base: Content, chain: Chain, es: seq<Event>)
    requires PersistedHeight(base) <= |chain| < MOST_HEIGHT
    ensures
      var a := Run(Boot(base), chain, es);
      var n := |chain| - PersistedHeight(a.db);
      0 <= n && Run(a, chain, [Restart, Connect] + Fetches(n)).db == Replay(base, chain, PersistedHeight(base), |chain|)
  {
    hide Commit, PersistedHeight;
    assert InStep(Boot(base), base, chain);
    RunKeeps(Boot(base), base, chain, es);
    var a := Run(Boot(base), chain, es);
    var n := |chain| - PersistedHeight(a.db);
    var b := Step(a, chain, Restart);
    var c := Step(b, chain, Connect);
    StepKeeps(a, base, chain, Restart);
    StepKeeps(b, base, chain, Connect);
    var all := [Restart, Connect] + Fetches(n);
    assert all[1..][1..] == Fetches(n);
    assert Run(a, chain, all) == Run(b, chain, all[1..]) == Run(c, chain, Fetches(n));
    FetchesAdvance(c, base, chain, n);
  }

  // ---- Contents that read the same ----

  ghost predicate Same(c: Content, d: Content) {
    forall ns, key :: Get(c, ns, key) == Get(d, ns, key)
  }

  lemma ApplyEntrySame(c: Content, d: Content, e: Entry)
    requires Same(c, d)
    ensures Same(ApplyEntry(c, e), ApplyEntry(d, e))
  {
    forall ns, key ensures Get(ApplyEntry(c, e), ns, key) == Get(ApplyEntry(d, e), ns, key) {
      assert Get(c, ns, key) == Get(d, ns, key);
    }
  }

  lemma {:induction false} ApplyEntriesSame(c: Content, d: Content, es: seq<Entry>)
    requires Same(c, d)
    ensures Same(ApplyEntries(c, es), ApplyEntries(d, es))
    decreases |es|
  {
    hide ApplyEntry, Same;
    if es != [] {
      ApplyEntriesSame(c, d, es[..|es| - 1]);
      ApplyEntrySame(ApplyEntries(c, es[..|es| - 1]), ApplyEntries(d, es[..|es| - 1]), es[|es| - 1]);
    }
  }

  lemma {:induction false} ReplaySame(c: Content, d: Content, chain: Chain, lo: nat, hi: nat)
    requires lo <= hi <= |chain| < MOST_HEIGHT && Same(c, d)
    ensures Same(Replay(c, chain, lo, hi), Replay(d, chain, lo, hi))
    decreases hi
  {
    hide ApplyEntry, Same, ApplyEntries, HeightEntry;
    if hi > lo {
      ReplaySame(c, d, chain, lo, hi - 1);
      var c1, d1 := Replay(c, chain, lo, hi - 1), Replay(d, chain, lo, hi - 1);
      ApplyEntriesSame(c1, d1, chain[hi - 1]);
      ApplyEntrySame(ApplyEntries(c1, chain[hi - 1]), ApplyEntries(d1, chain[hi - 1]), HeightEntry(hi));
    }
  }

  lemma {:induction false} ReplayFrom(c: Content, chain: Chain, lo: nat, mid: nat, hi: nat)
    requires lo <= mid <= hi <= |chain| < MOST_HEIGHT
    ensures Replay(c, chain, lo, hi) == Replay(Replay(c, chain, lo, mid), chain, mid, hi)
    decreases hi
  {
    hide Commit;
    if hi > mid {
      ReplayFrom(c, chain, lo, mid, hi - 1);
    }
  }

  /** The entries, put into an empty store, read as the content does, but for the height. */
  ghost predicate Captures(es: seq<Entry>, empty: Content, c: Content) {
    forall ns, key :: (ns, key) != (NS_META, META_HEIGHT) ==> Get(ApplyEntries(empty, es), ns, key) == Get(c, ns, key)
  }

  lemma CommitCaptured(es: seq<Entry>, empty: Content, c: Content, h: uint64)
    requires Captures(es, empty, c) && Get(c, NS_META, META_HEIGHT) == Some(BigEndian.Encode(h, 8))
    ensures Same(Commit(empty, h, es), c)
  {
    hide ApplyEntries, BigEndian.Encode;
    forall ns, key ensures Get(Commit(empty, h, es), ns, key) == Get(c, ns, key) {}
  }

  /** Loading a snapshot of height H and streaming on from H+1 ends where streaming from genesis does. */
  lemma BootstrapEquivalence(empty: Content, chain: Chain, h: nat, hi: nat, es: seq<Entry>)
    requires PersistedHeight(empty) == 0 && 0 < h <= hi <= |chain| < MOST_HEIGHT
    requires Captures(es, empty, Replay(empty, chain, 0, h))
    ensures
      var booted := Commit(empty, h, es);
      && Same(Replay(booted, chain, h, hi), Replay(empty, chain, 0, hi))
      && PersistedHeight(Replay(booted, chain, h, hi)) == PersistedHeight(Replay(empty, chain, 0, hi)) == hi
  {
    hide Same, Captures, PersistedHeight, ApplyEntries, BigEndian.Encode;
    var genesis := Replay(empty, chain, 0, h);
    CommitCaptured(es, empty, genesis, h);
    ReplaySame(Commit(empty, h, es), genesis, chain, h, hi);
    ReplayFrom(empty, chain, 0, h, hi);
    CommitPersistsHeight(empty, h, es);
    ReplayHeight(Commit(empty, h, es), chain, h, hi);
    ReplayHeight(empty, chain, 0, hi);
  }
}
