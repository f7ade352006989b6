/** The client of the diff stream: ask for the next height, apply what arrives, reconnect. */
module StateSync {
  import opened Primitives
  import opened StateStore
  import opened Replication
  import opened Snapshot
  import opened SnapshotLoad
  import BigEndian

  /** A block's diff as it arrives. The client looks at the height only to record it. */
  datatype Message = Message(height: uint64, entries: seq<Entry>)

  /** One connection as the environment lets it go: the messages that arrive before it breaks, given the requested
    * height, and the fault, if any, the database has while applying each of them. */
  datatype Session = Session(serve: nat -> seq<Message>, faults: seq<Option<nat>>)

  function FaultOf(s: Session, k: nat): Option<nat> {
    if k < |s.faults| then s.faults[k] else None
  }

  // ---- What messages do to a store, in whatever order they come ----

  function Received(c: Content, ms: seq<Message>): Content {
    if ms == [] then c
    else
      var last := ms[|ms| - 1];
      Commit(Received(c, ms[..|ms| - 1]), last.height, last.entries)
  }

  function HeightAfter(h: uint64, ms: seq<Message>): uint64 {
    if ms == [] then h else ms[|ms| - 1].height
  }

  /** The message is the chain's diff of a height. */
  predicate IsDiff(m: Message, chain: Chain, height: nat) {
    1 <= height <= |chain| && m.height == height && m.entries == chain[height - 1]
  }

  /** The messages are the chain's diffs, one height after the other from a first one on. */
  ghost predicate Contiguous(ms: seq<Message>, chain: Chain, first: nat) {
    forall i :: 0 <= i < |ms| ==> IsDiff(ms[i], chain, first + i)
  }

  /** The coordinator serves its chain contiguously from the requested height. */
  ghost predicate Serves(s: Session, chain: Chain) {
    forall from :: Contiguous(s.serve(from), chain, FirstServed(from))
  }

  /** Contiguous messages replay the chain. */
  lemma {:induction false} ContiguousIsReplay(base: Content, chain: Chain, lo: nat, h: nat, ms: seq<Message>)
    requires lo <= h <= |chain| < MOST_HEIGHT && Contiguous(ms, chain, h + 1)
    ensures h + |ms| <= |chain| && HeightAfter(h, ms) == h + |ms|
    ensures Received(Replay(base, chain, lo, h), ms) == Replay(base, chain, lo, h + |ms|)
    decreases |ms|
  {
    hide Commit;
    if ms != [] {
      var init, n := ms[..|ms| - 1], |ms| - 1;
      assert IsDiff(ms[n], chain, h + 1 + n);
      assert forall i :: 0 <= i < n ==> IsDiff(ms[i], chain, h + 1 + i);
      ContiguousIsReplay(base, chain, lo, h, init);
    }
  }

  // ---- Messages out of order ----

  /** What one key holds after some entries, given what it held before. */
  function Effect(es: seq<Entry>, ns: Namespace, key: Bytes, before: Option<Bytes>): Option<Bytes> {
    if es == [] then before
    else
      var e := es[|es| - 1];
      if e.namespace == ns && e.key == key && e.writeType == PUT then Some(e.value)
      else if e.namespace == ns && e.key == key && e.writeType == DELETE then None
      else Effect(es[..|es| - 1], ns, key, before)
  }

  lemma {:induction false} EffectIs(c: Content, es: seq<Entry>, ns: Namespace, key: Bytes)
    ensures Get(ApplyEntries(c, es), ns, key) == Effect(es, ns, key, Get(c, ns, key))
    decreases |es|
  {
    if es != [] {
      EffectIs(c, es[..|es| - 1], ns, key);
    }
  }

  lemma {:induction false} EffectTwice(es: seq<Entry>, ns: Namespace, key: Bytes, before: Option<Bytes>)
    ensures Effect(es, ns, key, Effect(es, ns, key, before)) == Effect(es, ns, key, before)
    decreases |es|
  {
    if es != [] {
      var e, init := es[|es| - 1], es[..|es| - 1];
      EffectTwice(init, ns, key, before);
      if e.namespace == ns && e.key == key && (e.writeType == PUT || e.writeType == DELETE) {
      } else {
        assert Effect(es, ns, key, before) == Effect(init, ns, key, before);
      }
    }
  }

  lemma CommitIsApply(c: Content, h: uint64, es: seq<Entry>)
    ensures Commit(c, h, es) == ApplyEntries(c, es + [HeightEntry(h)])
  {
    hide BigEndian.Encode;
    assert (es + [HeightEntry(h)])[..|es|] == es;
  }

  /** Applying a diff again changes nothing that can be read. */
  lemma AgainIsSame(c: Content, h: uint64, es: seq<Entry>)
    ensures Same(Commit(Commit(c, h, es), h, es), Commit(c, h, es))
  {
    hide Effect, Commit, HeightEntry, ApplyEntries;
    var all := es + [HeightEntry(h)];
    var once := Commit(c, h, es);
    CommitIsApply(c, h, es);
    CommitIsApply(once, h, es);
    forall ns, key ensures Get(Commit(once, h, es), ns, key) == Get(once, ns, key) {
      EffectIs(c, all, ns, key);
      EffectIs(once, all, ns, key);
      EffectTwice(all, ns, key, Get(c, ns, key));
    }
  }

  /** After the replay to h, the message of height m gives what the replay to m reads like. */
  ghost predicate TakesTo(base: Content, chain: Chain, h: nat, m: nat)
    requires h <= |chain| && 1 <= m <= |chain| < MOST_HEIGHT
  {
    Same(Commit(Replay(base, chain, 0, h), m, chain[m - 1]), Replay(base, chain, 0, m))
  }

  const MARK: Bytes := [1]

  /** A chain of n diffs, all empty but the one of a height, which puts the mark. */
  function OnlyAt(n: nat, height: nat): (chain: Chain)
    ensures |chain| == n
    ensures forall i :: 0 <= i < n ==> chain[i] == if i + 1 == height then [Entry(PUT, NS_ACCOUNT, MARK, MARK)] else []
  {
    seq(n, i => if i + 1 == height then [Entry(PUT, NS_ACCOUNT, MARK, MARK)] else [])
  }

  lemma MarkAfter(c: Content, h: uint64, es: seq<Entry>)
    requires es == [] || es == [Entry(PUT, NS_ACCOUNT, MARK, MARK)]
    ensures Get(Commit(c, h, es), NS_ACCOUNT, MARK) == if es == [] then Get(c, NS_ACCOUNT, MARK) else Some(MARK)
  {
    hide BigEndian.Encode;
    if es != [] {
      assert es[..0] == [];
      assert ApplyEntries(c, es) == ApplyEntry(ApplyEntries(c, []), es[0]);
    }
  }

  lemma {:induction false} MarkInReplay(n: nat, height: nat, h: nat)
    requires 1 <= height <= n < MOST_HEIGHT && h <= n
    ensures Get(Replay(map[], OnlyAt(n, height), 0, h), NS_ACCOUNT, MARK) == if height <= h then Some(MARK) else None
    decreases h
  {
    hide Commit, OnlyAt;
    if h > 0 {
      var chain := OnlyAt(n, height);
      MarkInReplay(n, height, h - 1);
      MarkAfter(Replay(map[], chain, 0, h - 1), h, chain[h - 1]);
    }
  }

  /** A message that is neither the diff of the height reached nor of the next misleads some replica: one whose chain
    * has its only mark where the message goes back behind it, or where the message skips it. */
  lemma OutOfOrderMisleads(n: nat, h: nat, m: nat)
    requires h <= n < MOST_HEIGHT && 1 <= m <= n && m != h && m != h + 1
    ensures !TakesTo(map[], OnlyAt(n, if m < h then h else h + 1), h, m)
  {
    hide Commit, OnlyAt, Replay;
    var at := if m < h then h else h + 1;
    var chain := OnlyAt(n, at);
    MarkInReplay(n, at, h);
    MarkInReplay(n, at, m);
    MarkAfter(Replay(map[], chain, 0, h), m, chain[m - 1]);
    assert Get(Commit(Replay(map[], chain, 0, h), m, chain[m - 1]), NS_ACCOUNT, MARK)
        != Get(Replay(map[], chain, 0, m), NS_ACCOUNT, MARK);
  }

  lemma InOrderIsReplay(base: Content, chain: Chain, h: nat, m: nat)
    requires h <= |chain| < MOST_HEIGHT && 1 <= m <= |chain| && (m == h || m == h + 1)
    ensures TakesTo(base, chain, h, m)
  {
    hide Commit, Same;
    if m == h {
      AgainIsSame(Replay(base, chain, 0, h - 1), h, chain[h - 1]);
    } else {
      SameAsItself(Replay(base, chain, 0, m));
    }
  }

  lemma SameAsItself(c: Content)
    ensures Same(c, c)
  {}

  /** The client applies a diff of any height and records it. It may be trusted with the diff of height m after reaching
    * h, whatever the chain and the content it started from, if and only if m is h or the next: a test it could make. */
  lemma MessageIsSafeIff(n: nat, h: nat, m: nat)
    requires h <= n < MOST_HEIGHT && 1 <= m <= n
    ensures (forall base: Content, chain: Chain :: |chain| == n ==> TakesTo(base, chain, h, m))
      <==> m == h || m == h + 1
  {
    hide TakesTo, OnlyAt;
    if m == h || m == h + 1 {
      forall base: Content, chain: Chain | |chain| == n ensures TakesTo(base, chain, h, m) {
        InOrderIsReplay(base, chain, h, m);
      }
    } else {
      OutOfOrderMisleads(n, h, m);
      assert |OnlyAt(n, if m < h then h else h + 1)| == n;
    }
  }

  /** And it does apply it: whatever the height, the message is committed and its height recorded. */
  lemma AnyHeightIsRecorded(c: Content, m: Message)
    ensures Received(c, [m]) == Commit(c, m.height, m.entries) && PersistedHeight(Received(c, [m])) == m.height
  {
    hide Commit, PersistedHeight;
    assert [m][..0] == [];
    assert Received(c, [m]) == Commit(Received(c, []), m.height, m.entries);
    CommitPersistsHeight(c, m.height, m.entries);
  }

  // ---- A session as a run of the transition system ----

  function SessionEvents(applied: nat, fails: bool): seq<Event> {
    [Connect] + Fetches(applied) + [if fails then ApplyFails else Disconnect]
  }

  lemma {:induction false} FetchesSnoc(n: nat)
    ensures Fetches(n + 1) == Fetches(n) + [Apply, Publish]
  {
    if n > 0 {
      FetchesSnoc(n - 1);
      assert Fetches(n + 1) == [Apply, Publish] + (Fetches(n - 1) + [Apply, Publish]);
    } else {
      assert Fetches(1) == [Apply, Publish] + [];
    }
  }

  lemma FetchStep(a: Agent, chain: Chain)
    requires |chain| < MOST_HEIGHT && a.phase == Streaming(a.memory + 1) && a.memory < |chain|
    ensures
      var n := a.memory + 1;
      Run(a, chain, [Apply, Publish]) == Agent(Commit(a.db, n, chain[n - 1]), n, Streaming(n + 1), true,
                                               if a.ready then a.closes else a.closes + 1, a.applied + [n])
  {
    hide Commit;
    var b := Step(a, chain, Apply);
    assert [Apply, Publish][1..] == [Publish];
    assert Run(a, chain, [Apply, Publish]) == Run(b, chain, [Publish]) == Run(Step(b, chain, Publish), chain, []);
  }

  /** What the messages of a session, once applied, make of an agent that is streaming. */
  function Streamed(a: Agent, ms: seq<Message>): Agent {
    var n := |ms|;
    Agent(Received(a.db, ms), a.memory + n, Streaming(a.memory + n + 1), a.ready || n > 0,
          if a.ready || n == 0 then a.closes else a.closes + 1, a.applied + HeightsFrom(a.memory, n))
  }

  function HeightsFrom(h: nat, n: nat): seq<nat> {
    if n == 0 then [] else HeightsFrom(h, n - 1) + [h + n]
  }

  lemma {:induction false} FetchesAreMessages(a: Agent, chain: Chain, ms: seq<Message>)
    requires |chain| < MOST_HEIGHT && a.phase == Streaming(a.memory + 1)
    requires Contiguous(ms, chain, a.memory + 1) && a.memory + |ms| <= |chain|
    ensures Run(a, chain, Fetches(|ms|)) == Streamed(a, ms)
    decreases |ms|
  {
    hide Commit, Step;
    if ms != [] {
      var n := |ms| - 1;
      assert IsDiff(ms[n], chain, a.memory + 1 + n);
      assert forall i :: 0 <= i < n ==> IsDiff(ms[i], chain, a.memory + 1 + i);
      FetchesAreMessages(a, chain, ms[..n]);
      FetchesSnoc(n);
      RunSplits(a, chain, Fetches(n), [Apply, Publish]);
      FetchStep(Streamed(a, ms[..n]), chain);
    }
  }

  lemma SessionIsRun(a: Agent, chain: Chain, ms: seq<Message>, fails: bool)
    requires |chain| < MOST_HEIGHT && a.phase.Idle?
    requires Contiguous(ms, chain, a.memory + 1) && a.memory + |ms| <= |chain|
    ensures Run(a, chain, SessionEvents(|ms|, fails)) == Streamed(a, ms).(phase := Idle)
  {
    hide Commit, Contiguous, Received, HeightsFrom;
    var b := a.(phase := Streaming(a.memory + 1));
    var last := if fails then ApplyFails else Disconnect;
    var rest := Fetches(|ms|) + [last];
    assert SessionEvents(|ms|, fails) == [Connect] + rest;
    assert Step(a, chain, Connect) == b;
    assert ([Connect] + rest)[1..] == rest;
    assert Run(a, chain, SessionEvents(|ms|, fails)) == Run(b, chain, rest);
    RunSplits(b, chain, Fetches(|ms|), [last]);
    FetchesAreMessages(b, chain, ms);
    assert Streamed(b, ms) == Streamed(a, ms);
    var z := Streamed(b, ms);
    assert Run(z, chain, [last]) == Run(Step(z, chain, last), chain, []);
  }

  class Sync {
    const store: Store
    var ready: bool
    var closes: nat    // how often the ready channel has been closed; a second time would panic

    ghost predicate Valid()
      reads this, store
    {
      store.Valid() && closes == if ready then 1 else 0
    }

    constructor (store: Store)
      requires store.Valid()
      ensures Valid() && this.store == store && !ready
    {
      this.store := store;
      ready, closes := false, 0;
    }

    /** Asks for the next height and applies whatever arrives until the stream ends or a diff cannot be applied. */
    method StreamDiffs(session: Session) returns (applied: nat)
      requires Valid()
      modifies this, store
      ensures Valid()
      ensures
        var ms := session.serve(RequestFrom(old(store.height)));
        && applied <= |ms|
        && store.db == Received(old(store.db), ms[..applied])
        && store.height == HeightAfter(old(store.height), ms[..applied])
        && (applied == |ms| || FaultOf(session, applied).Some?)
      ensures ready == (old(ready) || applied > 0)
    {
      hide Commit;
      var fromHeight: nat := store.height;
      if fromHeight > 0 {
        fromHeight := (fromHeight + 1) % UINT64_LIMIT;
      }
      var ms := session.serve(fromHeight);
      applied := 0;
      while applied < |ms|
        invariant applied <= |ms| && Valid()
        invariant store.db == Received(old(store.db), ms[..applied])
        invariant store.height == HeightAfter(old(store.height), ms[..applied])
        invariant ready == (old(ready) || applied > 0)
      {
        assert ms[..applied + 1][..applied] == ms[..applied];
        var ok := store.ApplyDiff(ms[applied].height, ms[applied].entries, FaultOf(session, applied));
        if !ok {
          return;
        }
        applied := applied + 1;
        if !ready {
          ready := true;
          closes := closes + 1;
        }
      }
    }

    /** The client between two connections, as an agent of the transition system. */
    ghost function Now(applied: seq<nat>): Agent
      reads this, store
    {
      Agent(store.db, store.height, Idle, ready, closes, applied)
    }

    /** Reconnects for as many sessions as the environment grants before the agent is stopped. Whatever it does is a run
      * of the transition system. */
    method SyncLoop(ghost base: Content, ghost chain: Chain, sessions: seq<Session>, ghost before: seq<nat>)
      returns (ghost events: seq<Event>, ghost applied: seq<nat>)
      requires Valid() && |chain| < MOST_HEIGHT && forall s :: s in sessions ==> Serves(s, chain)
      requires PersistedHeight(base) <= store.height <= |chain|
      requires store.db == Replay(base, chain, PersistedHeight(base), store.height)
      modifies this, store
      ensures Valid() && old(store.height) <= store.height <= |chain|
      ensures store.db == Replay(base, chain, PersistedHeight(base), store.height)
      ensures ready == (old(ready) || store.height > old(store.height))
      ensures Run(old(Now(before)), chain, events) == Now(applied)
    {
      hide Replay, PersistedHeight, Received, HeightAfter, Serves, Run, Contiguous, SessionEvents, HeightsFrom;
      events, applied := [], before;
      ghost var start := Now(before);
      NothingRun(start, chain);
      for i := 0 to |sessions|
        invariant Valid() && old(store.height) <= store.height <= |chain|
        invariant store.db == Replay(base, chain, PersistedHeight(base), store.height)
        invariant ready == (old(ready) || store.height > old(store.height))
        invariant Run(start, chain, events) == Now(applied)
      {
        ghost var h, idle := store.height, Now(applied);
        var n := StreamDiffs(sessions[i]);
        ghost var ms := sessions[i].serve(RequestFrom(h))[..n];
        ServedIsNext(sessions[i], chain, h, n);
        ContiguousIsReplay(base, chain, PersistedHeight(base), h, ms);
        ghost var more := SessionEvents(n, FaultOf(sessions[i], n).Some?);
        SessionIsRun(idle, chain, ms, FaultOf(sessions[i], n).Some?);
        RunSplits(start, chain, events, more);
        events, applied := events + more, applied + HeightsFrom(h, n);
      }
    }
  }

  lemma NothingRun(a: Agent, chain: Chain)
    requires |chain| < MOST_HEIGHT
    ensures Run(a, chain, []) == a
  {}

  lemma ServedIsNext(s: Session, chain: Chain, h: nat, applied: nat)
    requires Serves(s, chain) && h <= |chain| < MOST_HEIGHT && applied <= |s.serve(RequestFrom(h))|
    ensures Contiguous(s.serve(RequestFrom(h))[..applied], chain, h + 1)
  {
    hide IsDiff;
    assert Contiguous(s.serve(RequestFrom(h)), chain, FirstServed(RequestFrom(h)));
  }

  /** Starting the agent anew opens the store that the last one left on disk: this is a restart. */
  method Reopen(last: Sync, ghost chain: Chain, ghost applied: seq<nat>) returns (sync: Sync)
    requires last.Valid() && |chain| < MOST_HEIGHT
    ensures fresh(sync) && fresh(sync.store) && sync.Valid() && sync.store.db == last.store.db
    ensures sync.Now(applied) == Step(last.Now(applied), chain, Restart)
  {
    OpeningReadsTheDisk(last.store.db);
    hide WithBuckets, PersistedHeight;
    var store := new Store.Open(last.store.db);
    sync := new Sync(store);
  }

  /** An agent that is started, follows the chain over some connections, is stopped and started again, any number of
    * times, goes through a run of the transition system and ends with the replay of the chain. */
  method LiveOn(stored: Content, ghost chain: Chain, lives: seq<seq<Session>>)
    returns (sync: Sync, ghost events: seq<Event>, ghost applied: seq<nat>)
    requires PersistedHeight(stored) <= |chain| < MOST_HEIGHT
    requires forall i, s :: 0 <= i < |lives| && s in lives[i] ==> Serves(s, chain)
    ensures sync.Valid() && PersistedHeight(stored) <= sync.store.height <= |chain|
    ensures sync.store.db == Replay(WithBuckets(stored), chain, PersistedHeight(stored), sync.store.height)
    ensures Run(Boot(WithBuckets(stored)), chain, events) == sync.Now(applied)
  {
    OpeningReadsTheDisk(stored);
    ghost var base := WithBuckets(stored);
    assert PersistedHeight(base) == PersistedHeight(stored);
    hide WithBuckets, PersistedHeight, Replay, Run, Serves;
    var store := new Store.Open(stored);
    sync := new Sync(store);
    events, applied := [], [];
    NothingRun(Boot(base), chain);
    ReplayNothing(base, chain, store.height);
    for i := 0 to |lives|
      invariant fresh(sync) && fresh(sync.store) && sync.Valid()
      invariant PersistedHeight(base) <= sync.store.height <= |chain|
      invariant sync.store.db == Replay(base, chain, PersistedHeight(base), sync.store.height)
      invariant Run(Boot(base), chain, events) == sync.Now(applied)
    {
      ghost var stopped := sync.Now(applied);
      sync := Reopen(sync, chain, applied);
      OneRestart(stopped, chain);
      RunSplits(Boot(base), chain, events, [Restart]);
      events := events + [Restart];
      ghost var more: seq<Event>;
      more, applied := sync.SyncLoop(base, chain, lives[i], applied);
      RunSplits(Boot(base), chain, events, more);
      events := events + more;
    }
  }

  lemma OneRestart(a: Agent, chain: Chain)
    requires |chain| < MOST_HEIGHT
    ensures Run(a, chain, [Restart]) == Step(a, chain, Restart)
  {
    hide PersistedHeight;
    assert [Restart][1..] == [];
    NothingRun(Step(a, chain, Restart), chain);
  }

  /** Starting an agent from a snapshot of the chain and letting it stream: whatever it has reached
    * reads exactly like the chain replayed from genesis to the same height. */
  method BootAndSync(payload: Bytes, sha: Bytes -> Bytes, ghost chain: Chain, sessions: seq<Session>,
                     ghost image: Image)
    returns (sync: Sync)
    requires |chain| < MOST_HEIGHT && 0 < image.height <= |chain| && forall s :: s in sessions ==> Serves(s, chain)
    requires Verdict(payload, sha, 0).Got? && Verdict(payload, sha, 0).value == Some(image)
    requires Captures(image.entries, WithBuckets(map[]), Replay(WithBuckets(map[]), chain, 0, image.height))
    ensures sync.Valid() && image.height <= sync.store.height <= |chain|
    ensures Same(sync.store.db, Replay(WithBuckets(map[]), chain, 0, sync.store.height))
  {
    hide Captures, Replay, Verdict, Same, Commit, Serves;
    var store := new Store.Open(map[]);
    ghost var empty := store.db;
    FreshHeight();
    var o := LoadSnapshot(payload, store, sha, None);
    assert store.db == Commit(empty, image.height, image.entries) && store.height == image.height;
    ghost var booted := store.db;
    CommitPersistsHeight(empty, image.height, image.entries);
    ReplayNothing(booted, chain, image.height);
    sync := new Sync(store);
    hide PersistedHeight;
    ghost var _, _ := sync.SyncLoop(booted, chain, sessions, []);
    BootstrapEquivalence(empty, chain, image.height, store.height, image.entries);
  }

  lemma FreshHeight()
    ensures PersistedHeight(map[]) == 0 && PersistedHeight(WithBuckets(map[])) == 0
  {}

  lemma ReplayNothing(c: Content, chain: Chain, h: nat)
    requires h <= |chain| < MOST_HEIGHT
    ensures Replay(c, chain, h, h) == c
  {}
}
