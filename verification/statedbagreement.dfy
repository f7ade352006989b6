/** An execution over prefetched state and one over the local store ask the same, hear the same and report the same,
  * if what they touch is the same to begin with. */
module StateDBAgreement {
  import opened Primitives
  import opened StateDBSpec
  import opened StateDBRuns
  import opened StateDBOverlay
  import opened Interpreter
  import NetDiff

  /** Some accounts and slots. */
  datatype Footprint = Footprint(accounts: set<Address>, slots: set<(Address, Hash)>)

  /** The same to begin with in these accounts and slots, wherever they come from; nothing is said of any other. */
  ghost predicate Alike(w: World, v: World, f: Footprint) {
    && w.keccak == v.keccak
    && (forall a :: a in f.accounts ==> PlainAccount(EMPTY_OVERLAY.top, w, a) == PlainAccount(EMPTY_OVERLAY.top, v, a))
    && (forall a, k :: (a, k) in f.slots ==> Original(w, a, k) == Original(v, a, k))
  }

  /** The operation mentions these accounts and slots only. */
  predicate Touches(op: Op, f: Footprint) {
    && (ChangesAccounts(op) ==> op.a in f.accounts)
    && (op.OpTransfer? ==> op.sender in f.accounts && op.recipient in f.accounts)
    && (op.OpGetState? || op.OpGetCommitted? || op.OpSetState? ==> (op.a, op.k) in f.slots)
  }

  // ---- The overlay cannot tell ----

  predicate ChangesAccounts(op: Op) {
    AccountOp(op) || op.OpCreateAccount? || op.OpTouch? || op.OpSelfDestruct? || op.OpSelfDestruct6780?
  }

  lemma PlainAccountAlike(l: Layer, w: World, v: World, f: Footprint, a: Address)
    requires Alike(w, v, f) && a in f.accounts
    ensures PlainAccount(l, w, a) == PlainAccount(l, v, a) && Base(l, w, a) == Base(l, v, a)
  {
    hide Original;
    assert PlainAccount(EMPTY_OVERLAY.top, w, a) == PlainAccount(EMPTY_OVERLAY.top, v, a);
  }

  lemma PlainWriteAlike(l: Layer, w: World, v: World, f: Footprint, op: Op)
    requires Alike(w, v, f) && Touches(op, f)
    ensures PlainWrite(l, w, op) == PlainWrite(l, v, op)
  {
    hide PlainAccount, Base, Alike;
    if op.OpTransfer? {
      PlainAccountAlike(l, w, v, f, op.sender);
      PlainAccountAlike(WriteAccount(l, op.sender, Less(Base(l, w, op.sender), op.amount)), w, v, f, op.recipient);
    } else if ChangesAccounts(op) {
      PlainAccountAlike(l, w, v, f, op.a);
      SameHash(w, v, f);
    }
  }

  lemma SameHash(w: World, v: World, f: Footprint)
    requires Alike(w, v, f)
    ensures w.keccak == v.keccak
  {}

  // ---- What is neither account nor slot ----

  ghost predicate SameRest(c: Core, e: Core) {
    && c.changes == e.changes && c.logs == e.logs && c.refund == e.refund
    && c.accessedAddresses == e.accessedAddresses && c.accessedSlots == e.accessedSlots && c.transient == e.transient
  }

  lemma {:induction false} AddAddressesSame(c: Core, e: Core, addresses: seq<Address>)
    requires SameRest(c, e)
    ensures SameRest(AddAddresses(c, addresses), AddAddresses(e, addresses))
    decreases |addresses|
  {
    if addresses != [] {
      AddAddressesSame(c, e, addresses[..|addresses| - 1]);
    }
  }

  lemma {:induction false} AddSlotsSame(c: Core, e: Core, slots: seq<(Address, Hash)>)
    requires SameRest(c, e)
    ensures SameRest(AddSlots(c, slots), AddSlots(e, slots))
    decreases |slots|
  {
    hide Put;
    if slots != [] {
      AddSlotsSame(c, e, slots[..|slots| - 1]);
    }
  }

  lemma PrepareSame(c: Core, e: Core, addresses: seq<Address>, slots: seq<(Address, Hash)>)
    requires SameRest(c, e)
    ensures SameRest(Prepare(c, addresses, slots), Prepare(e, addresses, slots))
  {
    hide AddAddresses, AddSlots;
    var c0 := c.(accessedAddresses := map[], accessedSlots := map[]);
    var e0 := e.(accessedAddresses := map[], accessedSlots := map[]);
    AddAddressesSame(c0, e0, addresses);
    AddSlotsSame(AddAddresses(c0, addresses), AddAddresses(e0, addresses), slots);
  }

  lemma AccountsApart(d: DB, op: Op)
    requires ChangesAccounts(op)
    ensures Step(d, op).core == d.core.(accounts := Step(d, op).core.accounts) && Step(d, op).logIndex == d.logIndex
  {
    hide LoadAccount, GetOrCreate, SelfDestruct, SelfDestruct6780, SubBalance, AddBalance;
    AccountsOnly(d.core, d.world, op.a);
    match op
    case OpSubBalance(a, amount) => BalancesOnly(d.core, d.world, a, amount);
    case OpAddBalance(a, amount) => BalancesOnly(d.core, d.world, a, amount);
    case _ =>
  }

  /** The value a guarded write records as the old one is the one a read would have returned. */
  lemma RecordsOldValue(d: DB, a: Address, k: Hash)
    requires MayWrite(d, a, k)
    ensures OrZero(Lookup(d.core.storage, a, k)) == SlotOf(d.core, d.world, a, k)
  {}

  /** The same operations in the same states, but for where accounts and slots are kept. */
  ghost predicate Twins(d: DB, e: DB) {
    && SameRest(d.core, e.core) && d.logIndex == e.logIndex && |d.snapshots| == |e.snapshots|
    && forall i :: 0 <= i < |d.snapshots| ==> SameRest(d.snapshots[i], e.snapshots[i])
  }

  lemma TransferApart(d: DB, sender: Address, recipient: Address, amount: uint256)
    ensures
      var t := Transfer(d, sender, recipient, amount);
      var l := AddLog(d, ZERO_ADDRESS, TransferTopics(sender, recipient), AmountBytes(amount));
      t.core == l.core.(accounts := t.core.accounts) && t.logIndex == l.logIndex
  {
    hide SubBalance, AddBalance, TransferTopics, AmountBytes;
    BalancesOnly(d.core, d.world, sender, amount);
    BalancesOnly(SubBalance(d.core, d.world, sender, amount), d.world, recipient, amount);
  }

  lemma TransferSame(d: DB, e: DB, sender: Address, recipient: Address, amount: uint256)
    requires SameRest(d.core, e.core) && d.logIndex == e.logIndex
    ensures
      var t, u := Transfer(d, sender, recipient, amount), Transfer(e, sender, recipient, amount);
      SameRest(t.core, u.core) && t.logIndex == u.logIndex
  {
    hide Transfer, TransferTopics, AmountBytes;
    TransferApart(d, sender, recipient, amount);
    TransferApart(e, sender, recipient, amount);
  }

  lemma WriteSame(d: DB, e: DB, a: Address, k: Hash, v: Hash)
    requires SameRest(d.core, e.core) && MayWrite(d, a, k) && MayWrite(e, a, k)
    requires SlotOf(d.core, d.world, a, k) == SlotOf(e.core, e.world, a, k)
    ensures SameRest(SetState(d.core, a, k, v), SetState(e.core, a, k, v))
  {
    hide Put, SlotOf;
    RecordsOldValue(d, a, k);
    RecordsOldValue(e, a, k);
  }

  lemma ReadsApart(d: DB, a: Address, k: Hash)
    ensures SameRest(ReadState(d, a, k).core, d.core) && ReadState(d, a, k).logIndex == d.logIndex
    ensures SameRest(ReadCommitted(d, a, k).core, d.core) && ReadCommitted(d, a, k).logIndex == d.logIndex
  {
    hide Put;
  }

  /** Refund counter, logs, access lists and transient storage; reads of slots. */
  lemma SideStep(d: DB, e: DB, op: Op)
    requires !ChangesAccounts(op) && !op.OpSetState? && !op.OpPrepare? && !op.OpTransfer?
    requires !op.OpSnapshot? && !op.OpRevert?
    requires SameRest(d.core, e.core) && d.logIndex == e.logIndex
    ensures SameRest(Step(d, op).core, Step(e, op).core) && Step(d, op).logIndex == Step(e, op).logIndex
  {
    hide Put, ReadState, ReadCommitted;
    if op.OpGetState? || op.OpGetCommitted? {
      ReadsApart(d, op.a, op.k);
      ReadsApart(e, op.a, op.k);
    }
  }

  lemma CoreStep(d: DB, e: DB, op: Op)
    requires !op.OpSnapshot? && !op.OpRevert? && SameRest(d.core, e.core) && d.logIndex == e.logIndex
    requires Guarded(d, op) && Guarded(e, op)
    requires op.OpSetState? ==> SlotOf(d.core, d.world, op.a, op.k) == SlotOf(e.core, e.world, op.a, op.k)
    ensures SameRest(Step(d, op).core, Step(e, op).core) && Step(d, op).logIndex == Step(e, op).logIndex
  {
    if ChangesAccounts(op) {
      AccountsApart(d, op);
      AccountsApart(e, op);
      hide Step;
    } else {
      hide Prepare, SlotOf, Transfer, SetState, SameRest, MayWrite;
      match op
      case OpSetState(a, k, v) => WriteSame(d, e, a, k, v);
      case OpPrepare(sender, coinbase, dest, precompiles, list) =>
        PrepareSame(d.core, e.core, Parties(sender, coinbase, dest, precompiles) + Listed(list), ListedSlots(list));
      case OpTransfer(sender, recipient, amount) => TransferSame(d, e, sender, recipient, amount);
      case _ =>
        SideStep(d, e, op);
        hide Step;
    }
  }

  lemma TwinsStep(d: DB, e: DB, op: Op)
    requires Twins(d, e) && Guarded(d, op) && Guarded(e, op)
    requires op.OpSetState? ==> SlotOf(d.core, d.world, op.a, op.k) == SlotOf(e.core, e.world, op.a, op.k)
    ensures Twins(Step(d, op), Step(e, op))
  {
    hide SameRest, SlotOf, Guarded;
    if !op.OpSnapshot? && !op.OpRevert? {
      CoreStep(d, e, op);
      SameSnapshots(d, op);
      SameSnapshots(e, op);
      hide Step;
    }
  }

  // ---- Both executions against one overlay ----

  ghost predicate Together(d: DB, e: DB, o: Overlay, f: Footprint) {
    && Inv(d) && Inv(e) && Simulates(d, o) && Simulates(e, o) && Twins(d, e) && Alike(d.world, e.world, f)
  }

  lemma SameSlot(d: DB, e: DB, l: Layer, f: Footprint, a: Address, k: Hash)
    requires Agrees(d.core, l, d.world) && Agrees(e.core, l, e.world) && Alike(d.world, e.world, f) && (a, k) in f.slots
    ensures SlotOf(d.core, d.world, a, k) == SlotOf(e.core, e.world, a, k)
  {
    hide SlotOf, AccountOf, Original, PlainAccount;
    assert SlotOf(d.core, d.world, a, k) == PlainSlot(l, d.world, a, k);
    assert SlotOf(e.core, e.world, a, k) == PlainSlot(l, e.world, a, k);
  }

  lemma SameAccount(d: DB, e: DB, l: Layer, f: Footprint, a: Address)
    requires Agrees(d.core, l, d.world) && Agrees(e.core, l, e.world) && Alike(d.world, e.world, f) && a in f.accounts
    ensures AccountOf(d.core, d.world, a) == AccountOf(e.core, e.world, a)
  {
    hide SlotOf, AccountOf, Original, PlainAccount;
    PlainAccountAlike(l, d.world, e.world, f, a);
  }

  /** One operation keeps two executions together. */
  lemma TogetherStep(d: DB, e: DB, o: Overlay, f: Footprint, op: Op)
    requires Together(d, e, o, f) && Faithful(d, op) && Faithful(e, op) && Touches(op, f)
    ensures Together(Step(d, op), Step(e, op), PlainStep(o, d.world, op), f)
  {
    hide Inv, Twins, Alike, Step, Agrees, MayWrite;
    if op.OpSetState? {
      SameSlot(d, e, o.top, f, op.a, op.k);
    }
    StepSimulates(d, o, op);
    StepSimulates(e, o, op);
    StepKeeps(d, op);
    StepKeeps(e, op);
    SameWorld(d, op);
    SameWorld(e, op);
    TwinsStep(d, e, op);
    PlainWriteAlike(o.top, d.world, e.world, f, op);
  }

  lemma SameCommitted(d: DB, e: DB, f: Footprint, a: Address, k: Hash)
    requires Inv(d) && Inv(e) && Alike(d.world, e.world, f) && (a, k) in f.slots
    ensures CommittedValue(d, a, k) == CommittedValue(e, a, k)
  {
    InvMeansExact(d);
    InvMeansExact(e);
    hide Inv, CommittedValue, Original, PlainAccount;
  }

  /** In a guarded state even what only the cache is asked for is what any reader sees. */
  lemma CacheTells(d: DB, a: Address)
    requires MayDestroy(d, a)
    ensures CachedBalance(d.core, a) == BalanceOf(d.core, d.world, a)
    ensures (a in d.core.accounts && d.core.accounts[a].isNew)
      == match AccountOf(d.core, d.world, a) case Some(v) => v.isNew case None => false
  {}

  lemma SameReturn(d: DB, e: DB, o: Overlay, f: Footprint, op: Op)
    requires Together(d, e, o, f) && Faithful(d, op) && Faithful(e, op) && Touches(op, f)
    ensures ReturnedBy(d, op) == ReturnedBy(e, op)
  {
    hide Inv, Alike, Agrees, MayWrite, SlotOf, AccountOf, CommittedValue, CachedBalance, MayDestroy;
    if ChangesAccounts(op) {
      SameAccount(d, e, o.top, f, op.a);
    }
    match op
    case OpGetState(a, k) => SameSlot(d, e, o.top, f, a, k);
    case OpGetCommitted(a, k) => SameCommitted(d, e, f, a, k);
    case OpSetState(a, k, _) =>
      SameSlot(d, e, o.top, f, a, k);
      RecordsOldValue(d, a, k);
      RecordsOldValue(e, a, k);
    case OpSelfDestruct(a) =>
      CacheTells(d, a);
      CacheTells(e, a);
    case OpSelfDestruct6780(a) =>
      CacheTells(d, a);
      CacheTells(e, a);
    case _ =>
  }

  /** Both executions get the same answer. */
  lemma SameAnswer(d: DB, e: DB, o: Overlay, f: Footprint, op: Op)
    requires Together(d, e, o, f) && Faithful(d, op) && Faithful(e, op) && Touches(op, f)
    ensures AnswerTo(d, op) == AnswerTo(e, op)
  {
    SameReturn(d, e, o, f, op);
    TogetherStep(d, e, o, f, op);
    hide Step, ReturnedBy, Inv, Simulates, Alike, PlainStep;
  }

  // ---- Whole executions ----

  predicate AllTouch(ops: seq<Op>, f: Footprint) {
    forall op :: op in ops ==> Touches(op, f)
  }

  lemma AskedFirst(d: DB, next: Strategy, heard: seq<Answer>, steps: nat)
    requires Asked(d, next, heard, steps) != []
    ensures
      var ops := Asked(d, next, heard, steps);
      && steps > 0 && next(heard) == Some(ops[0])
      && ops[1..] == if ReturnedBy(d, ops[0]).Panic? then []
                     else Asked(Step(d, ops[0]), next, heard + [AnswerTo(d, ops[0])], steps - 1)
  {
    hide Step, ReturnedBy, AnswerTo;
  }

  lemma AskedIs(d: DB, next: Strategy, heard: seq<Answer>, steps: nat, op: Op)
    requires steps > 0 && next(heard) == Some(op)
    ensures Asked(d, next, heard, steps) == [op] +
      if ReturnedBy(d, op).Panic? then [] else Asked(Step(d, op), next, heard + [AnswerTo(d, op)], steps - 1)
  {
    hide Step, ReturnedBy, AnswerTo;
  }

  lemma NoneAsked(d: DB, e: DB, next: Strategy, heard: seq<Answer>, steps: nat)
    requires Asked(d, next, heard, steps) == []
    ensures Asked(e, next, heard, steps) == []
  {}

  /** As long as the first execution stays in the footprint, the second asks and hears the same. */
  lemma {:induction false} Lockstep(d: DB, e: DB, o: Overlay, f: Footprint,
                                    next: Strategy, heard: seq<Answer>, steps: nat)
    returns (p: Overlay)
    requires Together(d, e, o, f) && AllTouch(Asked(d, next, heard, steps), f)
    requires FaithfulRun(d, Asked(d, next, heard, steps)) && FaithfulRun(e, Asked(d, next, heard, steps))
    ensures
      var ops := Asked(d, next, heard, steps);
      && Asked(e, next, heard, steps) == ops
      && Heard(e, ops) == Heard(d, ops)
      && NeverPanics(e, ops) == NeverPanics(d, ops)
      && Together(Run(d, ops), Run(e, ops), p, f)
    decreases steps
  {
    hide Asked, Step, PlainStep, Together, Faithful, Touches, AnswerTo, ReturnedBy;
    var ops := Asked(d, next, heard, steps);
    if ops == [] {
      NoneAsked(d, e, next, heard, steps);
      p := o;
    } else {
      var op := ops[0];
      assert op in ops;
      AskedFirst(d, next, heard, steps);
      AskedIs(e, next, heard, steps, op);
      SameAnswer(d, e, o, f, op);
      SameReturn(d, e, o, f, op);
      TogetherStep(d, e, o, f, op);
      if ReturnedBy(d, op).Panic? {
        p := PlainStep(o, d.world, op);
      } else {
        p := Lockstep(Step(d, op), Step(e, op), PlainStep(o, d.world, op), f,
                      next, heard + [AnswerTo(d, op)], steps - 1);
      }
      assert ops == [op] + ops[1..];
    }
  }

  lemma TogetherAtStart(w: World, v: World, f: Footprint)
    requires Alike(w, v, f)
    ensures Together(Init(w), Init(v), EMPTY_OVERLAY, f)
  {
    InitHolds(w);
    InitHolds(v);
    InitSimulates(w);
    InitSimulates(v);
    hide Inv, Simulates;
  }

  /** Independence of the coordinator. Two sources of state, a task alone, a task with a local store behind it or
    * any other, agree on the accounts and slots an execution touches and may differ in all others. Whoever executes,
    * choosing each operation by the answers so far: if the operations chosen over the first source are faithful
    * over both, then over the second the same operations are chosen and get the same answers, and both end with the
    * same reported changes, logs, refund counter, access lists and transient storage and with the same
    * accounts and slots throughout the footprint. */
  lemma SourcesDoNotMatter(w: World, v: World, f: Footprint, next: Strategy, steps: nat)
    requires Alike(w, v, f) && AllTouch(Asked(Init(w), next, [], steps), f)
    requires FaithfulRun(Init(w), Asked(Init(w), next, [], steps))
    requires FaithfulRun(Init(v), Asked(Init(w), next, [], steps))
    ensures
      var ops := Asked(Init(w), next, [], steps);
      var d, e := Run(Init(w), ops), Run(Init(v), ops);
      && Asked(Init(v), next, [], steps) == ops
      && Heard(Init(v), ops) == Heard(Init(w), ops)
      && NeverPanics(Init(v), ops) == NeverPanics(Init(w), ops)
      && NetDiff.Net(d.core.changes) == NetDiff.Net(e.core.changes)
      && SameRest(d.core, e.core)
      && (forall a :: a in f.accounts ==> AccountOf(d.core, w, a) == AccountOf(e.core, v, a))
      && (forall a, k :: (a, k) in f.slots ==> SlotOf(d.core, w, a, k) == SlotOf(e.core, v, a, k))
  {
    TogetherAtStart(w, v, f);
    InitWorld(w);
    InitWorld(v);
    hide Run, Inv, FaithfulRun, Alike, NetDiff.Net, Init, Asked, Heard, NeverPanics, SlotOf, AccountOf;
    var ops := Asked(Init(w), next, [], steps);
    var p := Lockstep(Init(w), Init(v), EMPTY_OVERLAY, f, next, [], steps);
    RunWorld(Init(w), ops);
    RunWorld(Init(v), ops);
    var d, e := Run(Init(w), ops), Run(Init(v), ops);
    forall a | a in f.accounts ensures AccountOf(d.core, w, a) == AccountOf(e.core, v, a) {
      SameAccount(d, e, p.top, f, a);
    }
    forall a, k | (a, k) in f.slots ensures SlotOf(d.core, w, a, k) == SlotOf(e.core, v, a, k) {
      SameSlot(d, e, p.top, f, a, k);
    }
  }

  lemma InitWorld(w: World)
    ensures Init(w).world == w
  {}

  lemma {:induction false} RunWorld(d: DB, ops: seq<Op>)
    ensures Run(d, ops).world == d.world
    decreases |ops|
  {
    if ops != [] {
      SameWorld(d, ops[0]);
      hide Step;
      RunWorld(Step(d, ops[0]), ops[1..]);
    }
  }

  // ---- When runs are faithful whatever the state ----

  /** Slots are read, and accounts asked for, before they are written or destroyed, and again after a revert. */
  predicate Careful(ops: seq<Op>, read: set<(Address, Hash)>, seen: set<Address>)
    decreases |ops|
  {
    ops == [] ||
    (&& (ops[0].OpSetState? ==> (ops[0].a, ops[0].k) in read)
     && (ops[0].OpSelfDestruct? || ops[0].OpSelfDestruct6780? ==> ops[0].a in seen)
     && Careful(ops[1..], ReadAfter(ops[0], read), SeenAfter(ops[0], seen)))
  }

  function ReadAfter(op: Op, read: set<(Address, Hash)>): set<(Address, Hash)> {
    if op.OpRevert? then {} else if op.OpGetState? then read + {(op.a, op.k)} else read
  }

  function SeenAfter(op: Op, seen: set<Address>): set<Address> {
    if op.OpRevert? then {} else if op.OpTouch? then seen + {op.a} else seen
  }

  /** Without a revert no cached slot or account is forgotten. */
  lemma NothingForgotten(d: DB, op: Op)
    requires !op.OpRevert?
    ensures forall a, k :: Lookup(d.core.storage, a, k).Some? ==> Lookup(Step(d, op).core.storage, a, k).Some?
    ensures forall a :: a in d.core.accounts ==> a in Step(d, op).core.accounts
  {
    if StorageOp(op) {
      hide Put;
    } else {
      OtherStepsSpareStorage(d, op);
      AccountsStay(d, op);
      hide Step;
    }
  }

  lemma AccountsStay(d: DB, op: Op)
    requires !op.OpRevert? && !StorageOp(op)
    ensures forall a :: a in d.core.accounts ==> a in Step(d, op).core.accounts
  {
    if SideOp(op) {
      SideOpSpares(d, op);
      hide Step;
    } else {
      hide Put, Prepare, LoadAccount, GetOrCreate, SelfDestruct, SelfDestruct6780, SubBalance, AddBalance;
      var c, w := d.core, d.world;
      if op.OpTransfer? {
        AccountsGrow(c, w, op.sender, op.amount);
        AccountsGrow(SubBalance(c, w, op.sender, op.amount), w, op.recipient, op.amount);
      } else if op.OpSubBalance? || op.OpAddBalance? {
        AccountsGrow(c, w, op.a, op.amount);
      } else {
        AccountsGrow(c, w, op.a, 0);
      }
    }
  }

  lemma AccountsGrow(c: Core, w: World, a: Address, amount: uint256)
    ensures c.accounts.Keys <= LoadAccount(c, w, a).accounts.Keys
    ensures c.accounts.Keys <= GetOrCreate(c, w, a).accounts.Keys
    ensures c.accounts.Keys <= SubBalance(c, w, a, amount).accounts.Keys
    ensures c.accounts.Keys <= AddBalance(c, w, a, amount).accounts.Keys
    ensures SelfDestruct(c, a).accounts.Keys == c.accounts.Keys == SelfDestruct6780(c, a).accounts.Keys
  {}

  lemma ReadingLets(d: DB, a: Address, k: Hash)
    ensures MayWrite(Step(d, OpGetState(a, k)), a, k) && MayDestroy(Step(d, OpTouch(a)), a)
  {}

  lemma CarefulStep(d: DB, op: Op, read: set<(Address, Hash)>, seen: set<Address>)
    requires forall a, k :: (a, k) in read ==> MayWrite(d, a, k)
    requires forall a :: a in seen ==> MayDestroy(d, a)
    ensures forall a, k :: (a, k) in ReadAfter(op, read) ==> MayWrite(Step(d, op), a, k)
    ensures forall a :: a in SeenAfter(op, seen) ==> MayDestroy(Step(d, op), a)
  {
    if !op.OpRevert? {
      NothingForgotten(d, op);
      SameWorld(d, op);
      if op.OpGetState? {
        ReadingLets(d, op.a, op.k);
      } else if op.OpTouch? {
        ReadingLets(d, op.a, ZERO_HASH);
      }
      hide Step;
    }
  }

  /** A careful run is faithful in every state, with or without a store. */
  lemma {:induction false} CarefulIsFaithful(d: DB, ops: seq<Op>, read: set<(Address, Hash)>, seen: set<Address>)
    requires Careful(ops, read, seen)
    requires forall a, k :: (a, k) in read ==> MayWrite(d, a, k)
    requires forall a :: a in seen ==> MayDestroy(d, a)
    ensures FaithfulRun(d, ops)
    decreases |ops|
  {
    if ops != [] {
      CarefulStep(d, ops[0], read, seen);
      hide Step, MayWrite, MayDestroy;
      CarefulIsFaithful(Step(d, ops[0]), ops[1..], ReadAfter(ops[0], read), SeenAfter(ops[0], seen));
    }
  }
}
