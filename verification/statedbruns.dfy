/** The state over whole runs: exact storage diffs, the caches as a plain overlay, nested snapshots. */
module StateDBRuns {
  import opened Primitives
  import opened StateDBSpec
  import opened NetDiff

  /** A slot's value before the execution: the task's, else the store's, else zero. */
  function Original(w: World, a: Address, k: Hash): Hash {
    match Lookup(w.slots, a, k) case Some(v) => v case None => OrZero(w.slot(a, k))
  }

  function Originals(w: World): (Address, Hash) -> Hash {
    (a, k) => Original(w, a, k)
  }

  function Currents(c: Core, w: World): (Address, Hash) -> Hash {
    (a, k) => SlotOf(c, w, a, k)
  }

  // ---- The cache invariant ----

  /** An uncached slot is neither the task's nor written; a cached one holds its last write or its
    * original value, and is in the committed cache too if the store knows it. */
  ghost predicate SlotOk(c: Core, committed: Slots, w: World, a: Address, k: Hash) {
    match Lookup(c.storage, a, k)
    case None => Lookup(w.slots, a, k).None? && FirstWrite(c.changes, a, k) == |c.changes|
    case Some(v) =>
      && v == LastWrite(c.changes, a, k, Original(w, a, k))
      && (w.slot(a, k).Some? ==> Lookup(committed, a, k).Some?)
  }

  ghost predicate CoreOk(c: Core, committed: Slots, w: World) {
    Chained(c.changes, Originals(w)) && forall a, k :: SlotOk(c, committed, w, a, k)
  }

  ghost predicate CommittedOk(committed: Slots, w: World) {
    forall a, k ::
      match Lookup(committed, a, k)
      case None => Lookup(w.slots, a, k).None?
      case Some(v) => v == Original(w, a, k)
  }

  ghost predicate Inv(d: DB) {
    && CommittedOk(d.committed, d.world)
    && CoreOk(d.core, d.committed, d.world)
    && forall i :: 0 <= i < |d.snapshots| ==> CoreOk(d.snapshots[i], d.committed, d.world)
  }

  /** A slot may be written once it has been read, or if the store has no value for it. */
  predicate MayWrite(d: DB, a: Address, k: Hash) {
    Lookup(d.core.storage, a, k).Some? || d.world.slot(a, k).None?
  }

  predicate Guarded(d: DB, op: Op) {
    op.OpSetState? ==> MayWrite(d, op.a, op.k)
  }

  predicate GuardedRun(d: DB, ops: seq<Op>)
    decreases |ops|
  {
    ops == [] || (Guarded(d, ops[0]) && GuardedRun(Step(d, ops[0]), ops[1..]))
  }

  // ---- Steps that leave storage alone ----

  predicate StorageOp(op: Op) {
    op.OpGetState? || op.OpGetCommitted? || op.OpSetState? || op.OpSnapshot? || op.OpRevert?
  }

  /** Same storage, write log and saved states. */
  ghost predicate SameStorage(d: DB, e: DB) {
    && e.core.storage == d.core.storage && e.core.changes == d.core.changes
    && e.committed == d.committed && e.snapshots == d.snapshots && e.world == d.world
  }

  lemma {:induction false} AddAddressesOnly(c: Core, addresses: seq<Address>)
    ensures AddAddresses(c, addresses) == c.(accessedAddresses := AddAddresses(c, addresses).accessedAddresses)
    decreases |addresses|
  {
    if addresses != [] {
      AddAddressesOnly(c, addresses[..|addresses| - 1]);
    }
  }

  lemma {:induction false} AddSlotsOnly(c: Core, slots: seq<(Address, Hash)>)
    ensures
      var r := AddSlots(c, slots);
      r == c.(accessedAddresses := r.accessedAddresses, accessedSlots := r.accessedSlots)
    decreases |slots|
  {
    hide Put;
    if slots != [] {
      AddSlotsOnly(c, slots[..|slots| - 1]);
    }
  }

  lemma PrepareOnly(c: Core, addresses: seq<Address>, slots: seq<(Address, Hash)>)
    ensures
      var r := Prepare(c, addresses, slots);
      r == c.(accessedAddresses := r.accessedAddresses, accessedSlots := r.accessedSlots)
  {
    hide AddAddresses, AddSlots;
    var cleared := c.(accessedAddresses := map[], accessedSlots := map[]);
    AddAddressesOnly(cleared, addresses);
    AddSlotsOnly(AddAddresses(cleared, addresses), slots);
  }

  /** The account operations change nothing but accounts. */
  lemma AccountsOnly(c: Core, w: World, a: Address)
    ensures LoadAccount(c, w, a) == c.(accounts := LoadAccount(c, w, a).accounts)
    ensures GetOrCreate(c, w, a) == c.(accounts := GetOrCreate(c, w, a).accounts)
    ensures SelfDestruct(c, a) == c.(accounts := SelfDestruct(c, a).accounts)
    ensures SelfDestruct6780(c, a) == c.(accounts := SelfDestruct6780(c, a).accounts)
  {}

  lemma BalancesOnly(c: Core, w: World, a: Address, amount: uint256)
    ensures SubBalance(c, w, a, amount) == c.(accounts := SubBalance(c, w, a, amount).accounts)
    ensures AddBalance(c, w, a, amount) == c.(accounts := AddBalance(c, w, a, amount).accounts)
  {
    hide GetOrCreate;
    AccountsOnly(c, w, a);
  }

  /** The operations that leave accounts and storage alone altogether. */
  predicate SideOp(op: Op) {
    op.OpSetTransient? || op.OpAddRefund? || op.OpSubRefund? || op.OpAddAddress? || op.OpAddSlot? || op.OpPrepare?
    || op.OpAddLog?
  }

  ghost predicate Spared(d: DB, e: DB) {
    SameStorage(d, e) && e.core.accounts == d.core.accounts
  }

  lemma CounterSteps(d: DB)
    ensures forall a, k, v :: Spared(d, Step(d, OpSetTransient(a, k, v)))
    ensures forall gas :: Spared(d, Step(d, OpAddRefund(gas)))
    ensures forall gas :: Spared(d, Step(d, OpSubRefund(gas)))
  {
    hide Put;
  }

  lemma ListSteps(d: DB)
    ensures forall a :: Spared(d, Step(d, OpAddAddress(a)))
    ensures forall a, k :: Spared(d, Step(d, OpAddSlot(a, k)))
    ensures forall a, topics, data :: Spared(d, Step(d, OpAddLog(a, topics, data)))
  {
    hide Put;
  }

  lemma PrepareSpares(d: DB, sender: Address, coinbase: Address, dest: Option<Address>, precompiles: seq<Address>,
                      list: seq<AccessTuple>)
    ensures Spared(d, Step(d, OpPrepare(sender, coinbase, dest, precompiles, list)))
  {
    hide Prepare;
    PrepareOnly(d.core, Parties(sender, coinbase, dest, precompiles) + Listed(list), ListedSlots(list));
  }

  lemma SideOpSpares(d: DB, op: Op)
    requires SideOp(op)
    ensures Spared(d, Step(d, op))
  {
    hide Step, Spared;
    CounterSteps(d);
    ListSteps(d);
    match op
    case OpPrepare(sender, coinbase, dest, precompiles, list) =>
      PrepareSpares(d, sender, coinbase, dest, precompiles, list);
    case OpSetTransient(_, _, _) =>
    case OpAddRefund(_) =>
    case OpSubRefund(_) =>
    case OpAddAddress(_) =>
    case OpAddSlot(_, _) =>
    case OpAddLog(_, _, _) =>
  }

  lemma OtherStepsSpareStorage(d: DB, op: Op)
    requires !StorageOp(op)
    ensures SameStorage(d, Step(d, op))
  {
    if SideOp(op) {
      SideOpSpares(d, op);
      hide Step;
    } else {
      hide LoadAccount, GetOrCreate, SelfDestruct, SelfDestruct6780, SubBalance, AddBalance;
      match op
      case OpSubBalance(a, amount) => BalancesOnly(d.core, d.world, a, amount);
      case OpAddBalance(a, amount) => BalancesOnly(d.core, d.world, a, amount);
      case OpTransfer(sender, recipient, amount) =>
        BalancesOnly(d.core, d.world, sender, amount);
        BalancesOnly(SubBalance(d.core, d.world, sender, amount), d.world, recipient, amount);
      case OpTouch(a) => AccountsOnly(d.core, d.world, a);
      case OpCreateAccount(a) => AccountsOnly(d.core, d.world, a);
      case OpCreateContract(a) => AccountsOnly(d.core, d.world, a);
      case OpSetNonce(a, _) => AccountsOnly(d.core, d.world, a);
      case OpSetCode(a, _) => AccountsOnly(d.core, d.world, a);
      case OpSelfDestruct(a) => AccountsOnly(d.core, d.world, a);
      case OpSelfDestruct6780(a) => AccountsOnly(d.core, d.world, a);
    }
  }

  lemma SpareStorageKeeps(d: DB, e: DB)
    requires Inv(d) && SameStorage(d, e)
    ensures Inv(e)
  {
    hide Chained, LastWrite, FirstWrite, Original, CommittedOk;
    forall a, k ensures SlotOk(e.core, e.committed, e.world, a, k) {
      assert SlotOk(d.core, d.committed, d.world, a, k);
    }
  }

  // ---- Steps on storage ----

  lemma {:induction false} UnwrittenIsOriginal(c: Core, committed: Slots, w: World, a: Address, k: Hash)
    requires SlotOk(c, committed, w, a, k) && Lookup(c.storage, a, k).None?
    ensures LastWrite(c.changes, a, k, Original(w, a, k)) == Original(w, a, k) == OrZero(w.slot(a, k))
  {
    NoWriteIsDefault(c.changes, a, k, Original(w, a, k));
  }

  /** Reading a slot always gives its last write, or else its original value. */
  lemma ReadsLastWrite(c: Core, committed: Slots, w: World, a: Address, k: Hash)
    requires SlotOk(c, committed, w, a, k)
    ensures SlotOf(c, w, a, k) == LastWrite(c.changes, a, k, Original(w, a, k))
  {
    if Lookup(c.storage, a, k).None? {
      UnwrittenIsOriginal(c, committed, w, a, k);
    }
  }

  lemma MoreCommitted(c: Core, committed: Slots, w: World, a: Address, k: Hash, v: Hash)
    requires CoreOk(c, committed, w)
    ensures CoreOk(c, Put(committed, a, k, v), w)
  {
    hide Chained, LastWrite, FirstWrite, Original, Put;
    forall b, j ensures SlotOk(c, Put(committed, a, k, v), w, b, j) {
      assert SlotOk(c, committed, w, b, j);
    }
  }

  /** A load never meets a written slot: it is only made where the slot is not cached as current. */
  lemma LoadSlotKeeps(d: DB, a: Address, k: Hash)
    requires Inv(d) && Lookup(d.core.storage, a, k).None?
    ensures Inv(LoadSlot(d, a, k))
  {
    if d.world.slot(a, k).Some? {
      var v := d.world.slot(a, k).value;
      var e := LoadSlot(d, a, k);
      assert SlotOk(d.core, d.committed, d.world, a, k);
      UnwrittenIsOriginal(d.core, d.committed, d.world, a, k);
      hide Chained, LastWrite, FirstWrite, Original, Put;
      forall b, j ensures SlotOk(e.core, e.committed, e.world, b, j) {
        assert SlotOk(d.core, d.committed, d.world, b, j);
      }
      forall i | 0 <= i < |e.snapshots| ensures CoreOk(e.snapshots[i], e.committed, e.world) {
        MoreCommitted(d.snapshots[i], d.committed, d.world, a, k, v);
      }
    }
  }

  /** A slot missing from the committed cache but known to the store is not cached as current either. */
  lemma UncommittedIsUncached(d: DB, a: Address, k: Hash)
    requires Inv(d) && Lookup(d.committed, a, k).None? && d.world.slot(a, k).Some?
    ensures Lookup(d.core.storage, a, k).None?
  {
    hide LastWrite, FirstWrite, Chained;
    assert SlotOk(d.core, d.committed, d.world, a, k);
  }

  lemma ChainedStep(cs: seq<Change>, c: Change, orig: (Address, Hash) -> Hash)
    requires Chained(cs, orig) && c.oldValue == LastWrite(cs, c.address, c.slot, orig(c.address, c.slot))
    ensures Chained(cs + [c], orig)
  {
    hide LastWrite;
    var ds := cs + [c];
    forall i | 0 <= i < |ds|
      ensures ds[i].oldValue == LastWrite(ds[..i], ds[i].address, ds[i].slot, orig(ds[i].address, ds[i].slot))
    {
      assert ds[..i] == cs[..i];
    }
  }

  lemma SetStateKeeps(d: DB, a: Address, k: Hash, v: Hash)
    requires Inv(d) && MayWrite(d, a, k)
    ensures Inv(WithCore(d, SetState(d.core, a, k, v)))
  {
    var c := d.core;
    var e := SetState(c, a, k, v);
    var change := e.changes[|c.changes|];
    assert SlotOk(c, d.committed, d.world, a, k);
    ReadsLastWrite(c, d.committed, d.world, a, k);
    hide LastWrite, FirstWrite, Original, Put, Chained;
    ChainedStep(c.changes, change, Originals(d.world));
    forall b, j ensures SlotOk(e, d.committed, d.world, b, j) {
      assert SlotOk(c, d.committed, d.world, b, j);
      FirstWriteStep(c.changes, change, b, j);
    }
  }

  lemma StepKeeps(d: DB, op: Op)
    requires Inv(d) && Guarded(d, op)
    ensures Inv(Step(d, op))
  {
    hide CoreOk, CommittedOk, LoadSlot, SetState;
    match op
    case OpGetState(a, k) =>
      if Lookup(d.core.storage, a, k).None? {
        LoadSlotKeeps(d, a, k);
      }
    case OpGetCommitted(a, k) =>
      if Lookup(d.committed, a, k).None? {
        if d.world.slot(a, k).Some? {
          UncommittedIsUncached(d, a, k);
          LoadSlotKeeps(d, a, k);
        } else {
          LoadNothing(d, a, k);
        }
      }
    case OpSetState(a, k, v) => SetStateKeeps(d, a, k, v);
    case OpSnapshot =>
    case OpRevert(_) =>
    case _ =>
      OtherStepsSpareStorage(d, op);
      SpareStorageKeeps(d, Step(d, op));
  }

  lemma LoadNothing(d: DB, a: Address, k: Hash)
    requires d.world.slot(a, k).None?
    ensures LoadSlot(d, a, k) == d
  {}

  lemma InitHolds(w: World)
    ensures Inv(Init(w))
  {
    hide Put;
    var d := Init(w);
    forall a, k ensures SlotOk(d.core, d.committed, w, a, k) {}
  }

  lemma {:induction false} RunKeeps(d: DB, ops: seq<Op>)
    requires Inv(d) && GuardedRun(d, ops)
    ensures Inv(Run(d, ops)) && Run(d, ops).world == d.world
    decreases |ops|
  {
    if ops != [] {
      StepKeeps(d, ops[0]);
      SameWorld(d, ops[0]);
      hide Step, Inv, Guarded;
      RunKeeps(Step(d, ops[0]), ops[1..]);
    }
  }

  lemma SameSnapshots(d: DB, op: Op)
    requires !op.OpSnapshot? && !op.OpRevert?
    ensures Step(d, op).snapshots == d.snapshots
  {
    hide Put, Prepare;
  }

  lemma SameWorld(d: DB, op: Op)
    ensures Step(d, op).world == d.world
  {}

  // ---- The reported storage changes ----

  lemma InvMeansExact(d: DB)
    requires Inv(d)
    ensures IsDifference(Net(d.core.changes), d.core.changes, Originals(d.world), Currents(d.core, d.world))
    ensures forall a, k :: CommittedValue(d, a, k) == Original(d.world, a, k)
  {
    hide Net, IsDifference, Chained, LastWrite, FirstWrite;
    forall a, k ensures SlotOf(d.core, d.world, a, k) == LastWrite(d.core.changes, a, k, Original(d.world, a, k)) {
      assert SlotOk(d.core, d.committed, d.world, a, k);
      ReadsLastWrite(d.core, d.committed, d.world, a, k);
    }
    NetIsDifference(d.core.changes, Originals(d.world), Currents(d.core, d.world));
  }

  /** After any interleaving of reads, writes, snapshots and reverts in which slots the store knows are
    * read before they are written, the reported changes are exactly the difference between the slots'
    * committed and current values, and the committed values have not moved. */
  lemma ReportedChangesAreExact(w: World, ops: seq<Op>)
    requires GuardedRun(Init(w), ops)
    ensures
      var d := Run(Init(w), ops);
      && IsDifference(Net(d.core.changes), d.core.changes, Originals(w), Currents(d.core, w))
      && forall a, k :: CommittedValue(d, a, k) == Original(w, a, k)
  {
    hide Inv, GuardedRun, Run, Net, IsDifference;
    InitHolds(w);
    RunKeeps(Init(w), ops);
    InvMeansExact(Run(Init(w), ops));
  }

  /** Without a local store every run is guarded. */
  lemma {:induction false} CoordinatorOnlyIsGuarded(d: DB, ops: seq<Op>)
    requires forall a, k :: d.world.slot(a, k).None?
    ensures GuardedRun(d, ops)
    decreases |ops|
  {
    if ops != [] {
      SameWorld(d, ops[0]);
      hide Step;
      CoordinatorOnlyIsGuarded(Step(d, ops[0]), ops[1..]);
    }
  }

  // ---- Writing a slot that has not been read ----

  lemma FreshRecord(cs: seq<Change>, c: Change)
    requires FirstWrite(cs, c.address, c.slot) == |cs| && IndexOf(Merge(cs), c.address, c.slot).None?
    ensures Net(cs + [c]) == Net(cs) + if c.oldValue != c.newValue then [c] else []
  {
    hide FirstWrite;
    assert (cs + [c])[..|cs|] == cs;
    var m := Merge(cs);
    assert (m + [c])[..|m|] == m;
  }

  /** Writing a slot keeps the report exact if and only if the slot is cached or its value in the store,
    * absent or not, is zero: otherwise the log takes zero for the old value. */
  lemma WriteIsReportedIff(d: DB, a: Address, k: Hash, v: Hash)
    requires Inv(d)
    ensures
      var e := SetState(d.core, a, k, v);
      IsDifference(Net(e.changes), e.changes, Originals(d.world), Currents(e, d.world))
      <==> Lookup(d.core.storage, a, k).Some? || OrZero(d.world.slot(a, k)) == ZERO_HASH
  {
    var c := d.core;
    var e := SetState(c, a, k, v);
    assert SlotOk(c, d.committed, d.world, a, k);
    if Lookup(c.storage, a, k).Some? || OrZero(d.world.slot(a, k)) == ZERO_HASH {
      WriteStaysExact(d, a, k, v);
    } else {
      UnwrittenIsOriginal(c, d.committed, d.world, a, k);
      UnwrittenIsUnlisted(c.changes, Originals(d.world), a, k);
      var change := Change(a, k, ZERO_HASH, v);
      hide FirstWrite, LastWrite, Merge, DropNoOps, Net, IndexOf, Original, Put, Inv;
      FreshRecord(c.changes, change);
      assert e.changes == c.changes + [change];
      var r := Net(e.changes);
      assert SlotOf(e, d.world, a, k) == v;
      assert Originals(d.world)(a, k) != ZERO_HASH;
      OnlyRecordOf(c.changes, r, change);
      if v == ZERO_HASH {
        assert Change(a, k, Originals(d.world)(a, k), Currents(e, d.world)(a, k)) !in r;
      } else {
        assert r[|r| - 1].oldValue != Originals(d.world)(r[|r| - 1].address, r[|r| - 1].slot);
      }
    }
  }

  lemma WriteStaysExact(d: DB, a: Address, k: Hash, v: Hash)
    requires Inv(d)
    requires Lookup(d.core.storage, a, k).Some? || OrZero(d.world.slot(a, k)) == ZERO_HASH
    ensures
      var e := SetState(d.core, a, k, v);
      IsDifference(Net(e.changes), e.changes, Originals(d.world), Currents(e, d.world))
  {
    var c := d.core;
    var e := SetState(c, a, k, v);
    var change := e.changes[|c.changes|];
    assert SlotOk(c, d.committed, d.world, a, k);
    ReadsLastWrite(c, d.committed, d.world, a, k);
    hide LastWrite, FirstWrite, Original, Put, Chained, Net, IsDifference;
    ChainedStep(c.changes, change, Originals(d.world));
    forall b, j ensures SlotOf(e, d.world, b, j) == LastWrite(e.changes, b, j, Original(d.world, b, j)) {
      assert SlotOk(c, d.committed, d.world, b, j);
      ReadsLastWrite(c, d.committed, d.world, b, j);
      FirstWriteStep(c.changes, change, b, j);
    }
    NetIsDifference(e.changes, Originals(d.world), Currents(e, d.world));
  }

  lemma UnwrittenIsUnlisted(cs: seq<Change>, orig: (Address, Hash) -> Hash, a: Address, k: Hash)
    requires Chained(cs, orig) && FirstWrite(cs, a, k) == |cs|
    ensures IndexOf(Merge(cs), a, k).None?
  {
    hide FirstWrite, LastWrite, Merge, Chained;
    MergeIsFaithful(cs, orig);
    var m := Merge(cs);
    forall i | 0 <= i < |m| ensures !(m[i].address == a && m[i].slot == k) {
      assert FirstWrite(cs, m[i].address, m[i].slot) < |cs|;
    }
  }

  /** The report after a first write holds no record of that slot but the new one. */
  lemma OnlyRecordOf(cs: seq<Change>, r: seq<Change>, c: Change)
    requires IndexOf(Merge(cs), c.address, c.slot).None?
    requires r == Net(cs) + if c.oldValue != c.newValue then [c] else []
    ensures forall x :: x in r && x.address == c.address && x.slot == c.slot ==> x == c
    ensures c.oldValue != c.newValue ==> r[|r| - 1] == c
  {
    hide Merge, DropNoOps;
    DropIsSelection(Merge(cs));
    IndexOfMissing(Merge(cs), c.address, c.slot);
    forall i | 0 <= i < |Net(cs)| ensures !(Net(cs)[i].address == c.address && Net(cs)[i].slot == c.slot) {
      assert Net(cs)[i] in Merge(cs);
    }
  }

  /** A write survives the next read of its slot's committed value if and only if that value is cached, or the store has
    * none, or has the very value written: otherwise the load brings the store's value back over it. */
  lemma WriteSurvivesIff(d: DB, a: Address, k: Hash, v: Hash)
    ensures
      var written := Step(d, OpSetState(a, k, v));
      var asked := Step(written, OpGetCommitted(a, k));
      && SlotOf(written.core, d.world, a, k) == v
      && (SlotOf(asked.core, d.world, a, k) == v
        <==> Lookup(d.committed, a, k).Some? || d.world.slot(a, k).None? || d.world.slot(a, k).value == v)
      && (SlotOf(asked.core, d.world, a, k) != v ==> Some(SlotOf(asked.core, d.world, a, k)) == d.world.slot(a, k))
  {
    hide Put;
  }

  /** Both happen in the first operations of any execution over a store with a non-zero value for a slot that the task
    * did not bring: the write is misreported, and the read after it brings the old value back. */
  lemma UnreadWriteAtTheStart(w: World, a: Address, k: Hash, v: Hash)
    requires Lookup(w.slots, a, k).None? && w.slot(a, k).Some? && w.slot(a, k).value !in {ZERO_HASH, v}
    ensures
      var d := Run(Init(w), [OpSetState(a, k, v)]);
      && SlotOf(d.core, w, a, k) == v
      && !IsDifference(Net(d.core.changes), d.core.changes, Originals(w), Currents(d.core, w))
    ensures
      var e := Run(Init(w), [OpSetState(a, k, v), OpGetCommitted(a, k)]);
      SlotOf(e.core, w, a, k) == w.slot(a, k).value == Original(w, a, k) != v
  {
    InitReads(w, a, k);
    RunTwo(Init(w), OpSetState(a, k, v), OpGetCommitted(a, k));
    WriteSurvivesIff(Init(w), a, k, v);
    hide Init, Run, SlotOf, IsDifference, Net, Originals, Currents, SetState, ReadCommitted;
    MisreportedAtTheStart(w, a, k, v);
  }

  lemma MisreportedAtTheStart(w: World, a: Address, k: Hash, v: Hash)
    requires Lookup(w.slots, a, k).None? && OrZero(w.slot(a, k)) != ZERO_HASH
    ensures
      var e := Step(Init(w), OpSetState(a, k, v)).core;
      !IsDifference(Net(e.changes), e.changes, Originals(w), Currents(e, w))
  {
    InitHolds(w);
    InitReads(w, a, k);
    hide Init, SlotOf, IsDifference, Net, SetState, Inv, Put;
    WriteIsReportedIff(Init(w), a, k, v);
  }

  lemma InitReads(w: World, a: Address, k: Hash)
    ensures Init(w).world == w
    ensures Lookup(Init(w).core.storage, a, k) == Lookup(Init(w).committed, a, k) == Lookup(w.slots, a, k)
  {}

  lemma RunTwo(d: DB, first: Op, second: Op)
    ensures Run(d, [first]) == Step(d, first) && Run(d, [first, second]) == Step(Step(d, first), second)
  {
    hide Step;
    assert Run(d, [first]) == Run(Step(d, first), []);
    assert [first, second][1..] == [second];
    assert Run(d, [first, second]) == Run(Step(d, first), [second]) == Run(Step(Step(d, first), second), []);
  }

  // ---- Nested snapshots ----

  /** The run never reverts to the snapshot with this id or to an earlier one. */
  predicate StaysAbove(ops: seq<Op>, id: nat) {
    forall op :: op in ops && op.OpRevert? ==> op.id < 0 || op.id > id
  }

  lemma StepKeepsEarlier(d: DB, op: Op, id: nat)
    requires id < |d.snapshots| && (op.OpRevert? ==> op.id < 0 || op.id > id)
    ensures id < |Step(d, op).snapshots| && Step(d, op).snapshots[..id + 1] == d.snapshots[..id + 1]
  {}

  lemma {:induction false} RunKeepsEarlier(d: DB, ops: seq<Op>, id: nat)
    requires id < |d.snapshots| && StaysAbove(ops, id)
    ensures id < |Run(d, ops).snapshots| && Run(d, ops).snapshots[..id + 1] == d.snapshots[..id + 1]
    decreases |ops|
  {
    if ops != [] {
      assert ops[0] in ops;
      StepKeepsEarlier(d, ops[0], id);
      hide Step;
      RunKeepsEarlier(Step(d, ops[0]), ops[1..], id);
    }
  }

  /** Whatever is done after a snapshot, nested snapshots and reverts included, reverting to it restores
    * accounts, storage, write log, logs, refund, access lists and transient storage; earlier ids keep
    * their states; its own id and all later ones become ids of nothing. */
  lemma RevertRestores(d: DB, ops: seq<Op>)
    requires StaysAbove(ops, |d.snapshots|)
    ensures
      var id := |d.snapshots|;
      var e := Revert(Run(TakeSnapshot(d), ops), id);
      && e.core == d.core
      && e.snapshots == d.snapshots
      && forall j :: j >= id ==> Revert(e, j) == e
  {
    hide Step;
    var id := |d.snapshots|;
    var s := TakeSnapshot(d);
    RunKeepsEarlier(s, ops, id);
    var r := Run(s, ops);
    assert r.snapshots[id] == r.snapshots[..id + 1][id];
    assert r.snapshots[..id] == r.snapshots[..id + 1][..id];
    assert s.snapshots[..id + 1][..id] == d.snapshots;
  }

  /** The committed cache and the log counter are not rolled back, but no read can tell the first. */
  lemma RevertRestoresReads(d: DB, ops: seq<Op>)
    requires Inv(d) && GuardedRun(TakeSnapshot(d), ops) && StaysAbove(ops, |d.snapshots|)
    ensures
      var e := Revert(Run(TakeSnapshot(d), ops), |d.snapshots|);
      && (forall a, k :: SlotOf(e.core, e.world, a, k) == SlotOf(d.core, d.world, a, k))
      && (forall a, k :: CommittedValue(e, a, k) == CommittedValue(d, a, k))
      && (forall a :: AccountOf(e.core, e.world, a) == AccountOf(d.core, d.world, a))
  {
    var s := TakeSnapshot(d);
    StepKeeps(d, OpSnapshot);
    RunKeeps(s, ops);
    StepKeeps(Run(s, ops), OpRevert(|d.snapshots|));
    RevertRestores(d, ops);
    InvMeansExact(d);
    InvMeansExact(Revert(Run(s, ops), |d.snapshots|));
    hide Run, Inv, IsDifference, Net, Revert;
  }
}
