/** The lazily filled caches behave like a plain overlay of written values over fixed ones. */
module StateDBOverlay {
  import opened Primitives
  import opened StateDBSpec
  import opened StateDBRuns

  // ---- The reference: written accounts and slots, nothing cached ----

  datatype Layer = Layer(accounts: map<Address, Account>, writes: map<(Address, Hash), Hash>)

  datatype Overlay = Overlay(top: Layer, saved: seq<Layer>)

  function PlainAccount(l: Layer, w: World, a: Address): Option<Account> {
    if a in l.accounts then Some(l.accounts[a])
    else if a in w.accounts then Some(w.accounts[a])
    else w.account(a)
  }

  function PlainSlot(l: Layer, w: World, a: Address, k: Hash): Hash {
    if (a, k) in l.writes then l.writes[(a, k)] else Original(w, a, k)
  }

  /** The account to be changed: an absent one is created empty. */
  function Base(l: Layer, w: World, a: Address): Account {
    match PlainAccount(l, w, a) case Some(v) => v case None => NewAccount(w)
  }

  function WriteAccount(l: Layer, a: Address, v: Account): Layer {
    l.(accounts := l.accounts[a := v])
  }

  function Less(v: Account, amount: uint256): Account {
    v.(balance := if v.balance < amount then 0 else v.balance - amount)
  }

  function More(v: Account, amount: uint256): Account {
    v.(balance := (v.balance + amount) % UINT256_LIMIT)
  }

  function Destroy(v: Account): Account {
    v.(suicided := true, balance := 0)
  }

  function PlainWrite(l: Layer, w: World, op: Op): Layer {
    match op
    case OpCreateAccount(a) => WriteAccount(l, a, Base(l, w, a))
    case OpCreateContract(a) => WriteAccount(l, a, Base(l, w, a).(isNew := true))
    case OpSubBalance(a, amount) => WriteAccount(l, a, Less(Base(l, w, a), amount))
    case OpAddBalance(a, amount) => WriteAccount(l, a, More(Base(l, w, a), amount))
    case OpSetNonce(a, nonce) => WriteAccount(l, a, Base(l, w, a).(nonce := nonce))
    case OpSetCode(a, code) => WriteAccount(l, a, Base(l, w, a).(code := code, codeHash := w.keccak(code)))
    case OpSelfDestruct(a) =>
      (match PlainAccount(l, w, a) case None => l case Some(v) => WriteAccount(l, a, Destroy(v)))
    case OpSelfDestruct6780(a) =>
      (match PlainAccount(l, w, a)
       case None => l
       case Some(v) => WriteAccount(l, a, if v.isNew then Destroy(v) else v.(balance := 0)))
    case OpTransfer(sender, recipient, amount) =>
      var m := WriteAccount(l, sender, Less(Base(l, w, sender), amount));
      WriteAccount(m, recipient, More(Base(m, w, recipient), amount))
    case OpSetState(a, k, v) => l.(writes := l.writes[(a, k) := v])
    case _ => l
  }

  /** Reads do nothing; a snapshot saves the layer and a revert brings it back. */
  function PlainStep(o: Overlay, w: World, op: Op): Overlay {
    match op
    case OpSnapshot => o.(saved := o.saved + [o.top])
    case OpRevert(id) => if 0 <= id < |o.saved| then Overlay(o.saved[id], o.saved[..id]) else o
    case _ => o.(top := PlainWrite(o.top, w, op))
  }

  function PlainRun(o: Overlay, w: World, ops: seq<Op>): Overlay
    decreases |ops|
  {
    if ops == [] then o else PlainRun(PlainStep(o, w, ops[0]), w, ops[1..])
  }

  const EMPTY_OVERLAY := Overlay(Layer(map[], map[]), [])

  // ---- Same answers ----

  ghost predicate SameAccounts(c: Core, l: Layer, w: World) {
    forall a :: AccountOf(c, w, a) == PlainAccount(l, w, a)
  }

  ghost predicate SameSlots(c: Core, l: Layer, w: World) {
    forall a, k :: SlotOf(c, w, a, k) == PlainSlot(l, w, a, k)
  }

  ghost predicate Agrees(c: Core, l: Layer, w: World) {
    SameAccounts(c, l, w) && SameSlots(c, l, w)
  }

  ghost predicate Simulates(d: DB, o: Overlay) {
    && Agrees(d.core, o.top, d.world)
    && |d.snapshots| == |o.saved|
    && forall i :: 0 <= i < |o.saved| ==> Agrees(d.snapshots[i], o.saved[i], d.world)
  }

  // ---- Guards ----

  /** A cached account, or one the store does not have, may be destroyed. */
  predicate MayDestroy(d: DB, a: Address) {
    a in d.core.accounts || d.world.account(a).None?
  }

  predicate Faithful(d: DB, op: Op) {
    Guarded(d, op) && (op.OpSelfDestruct? || op.OpSelfDestruct6780? ==> MayDestroy(d, op.a))
  }

  predicate FaithfulRun(d: DB, ops: seq<Op>)
    decreases |ops|
  {
    ops == [] || (Faithful(d, ops[0]) && FaithfulRun(Step(d, ops[0]), ops[1..]))
  }

  lemma {:induction false} FaithfulIsGuarded(d: DB, ops: seq<Op>)
    requires FaithfulRun(d, ops)
    ensures GuardedRun(d, ops)
    decreases |ops|
  {
    if ops != [] {
      hide Step, Guarded;
      FaithfulIsGuarded(Step(d, ops[0]), ops[1..]);
    }
  }

  /** Without a local store every run is faithful. */
  lemma {:induction false} CoordinatorOnlyIsFaithful(d: DB, ops: seq<Op>)
    requires forall a, k :: d.world.slot(a, k).None?
    requires forall a :: d.world.account(a).None?
    ensures FaithfulRun(d, ops)
    decreases |ops|
  {
    if ops != [] {
      StateDBRuns.SameWorld(d, ops[0]);
      hide Step;
      CoordinatorOnlyIsFaithful(Step(d, ops[0]), ops[1..]);
    }
  }

  // ---- Account operations ----

  lemma GetOrCreateView(c: Core, w: World, a: Address, b: Address)
    ensures AccountOf(GetOrCreate(c, w, a), w, b) ==
      if a == b then Some(match AccountOf(c, w, a) case Some(v) => v case None => NewAccount(w)) else AccountOf(c, w, b)
    ensures AccountOf(LoadAccount(c, w, a), w, b) == AccountOf(c, w, b)
  {
    LoadView(c, w, a, b);
    hide LoadAccount;
  }

  lemma LoadView(c: Core, w: World, a: Address, b: Address)
    ensures AccountOf(LoadAccount(c, w, a), w, b) == AccountOf(c, w, b)
    ensures a !in LoadAccount(c, w, a).accounts ==> AccountOf(c, w, a).None?
  {}

  lemma UpdateAgrees(c: Core, l: Layer, w: World, a: Address, v: Account)
    requires SameAccounts(c, l, w)
    ensures SameAccounts(Update(GetOrCreate(c, w, a), a, v), WriteAccount(l, a, v), w)
    ensures GetOrCreate(c, w, a).accounts[a] == Base(l, w, a)
  {
    hide GetOrCreate;
    GetOrCreateView(c, w, a, a);
    forall b ensures AccountOf(Update(GetOrCreate(c, w, a), a, v), w, b) == PlainAccount(WriteAccount(l, a, v), w, b) {
      GetOrCreateView(c, w, a, b);
    }
  }

  lemma CreateAgrees(c: Core, l: Layer, w: World, a: Address)
    requires SameAccounts(c, l, w)
    ensures SameAccounts(GetOrCreate(c, w, a), WriteAccount(l, a, Base(l, w, a)), w)
  {
    hide GetOrCreate;
    forall b ensures AccountOf(GetOrCreate(c, w, a), w, b) == PlainAccount(WriteAccount(l, a, Base(l, w, a)), w, b) {
      GetOrCreateView(c, w, a, b);
    }
  }

  lemma TouchAgrees(c: Core, l: Layer, w: World, a: Address)
    requires SameAccounts(c, l, w)
    ensures SameAccounts(LoadAccount(c, w, a), l, w)
  {
    forall b ensures AccountOf(LoadAccount(c, w, a), w, b) == PlainAccount(l, w, b) {
      GetOrCreateView(c, w, a, b);
    }
  }

  lemma TransferAgrees(d: DB, l: Layer, op: Op)
    requires op.OpTransfer? && SameAccounts(d.core, l, d.world)
    ensures SameAccounts(Step(d, op).core, PlainWrite(l, d.world, op), d.world)
  {
    hide GetOrCreate, AccountOf, PlainAccount, Base;
    var w := d.world;
    var m := WriteAccount(l, op.sender, Less(Base(l, w, op.sender), op.amount));
    var c := SubBalance(d.core, w, op.sender, op.amount);
    UpdateAgrees(d.core, l, w, op.sender, Less(Base(l, w, op.sender), op.amount));
    assert SameAccounts(c, m, w);
    UpdateAgrees(c, m, w, op.recipient, More(Base(m, w, op.recipient), op.amount));
    SameAccountsCong(Step(d, op).core, AddBalance(c, w, op.recipient, op.amount),
                     WriteAccount(m, op.recipient, More(Base(m, w, op.recipient), op.amount)), w);
  }

  lemma SameAccountsCong(c: Core, e: Core, l: Layer, w: World)
    requires c.accounts == e.accounts && SameAccounts(e, l, w)
    ensures SameAccounts(c, l, w)
  {
    forall a ensures AccountOf(c, w, a) == PlainAccount(l, w, a) {
      assert AccountOf(e, w, a) == PlainAccount(l, w, a);
    }
  }

  predicate AccountOp(op: Op) {
    op.OpCreateContract? || op.OpSubBalance? || op.OpAddBalance? || op.OpSetNonce? || op.OpSetCode?
  }

  lemma AccountOpAgrees(d: DB, l: Layer, op: Op)
    requires AccountOp(op) && SameAccounts(d.core, l, d.world)
    ensures SameAccounts(Step(d, op).core, PlainWrite(l, d.world, op), d.world)
  {
    hide GetOrCreate, AccountOf, PlainAccount, Base, SameAccounts;
    var w := d.world;
    var base := Base(l, w, op.a);
    match op
    case OpCreateContract(a) => UpdateAgrees(d.core, l, w, a, base.(isNew := true));
    case OpSubBalance(a, amount) => UpdateAgrees(d.core, l, w, a, Less(base, amount));
    case OpAddBalance(a, amount) => UpdateAgrees(d.core, l, w, a, More(base, amount));
    case OpSetNonce(a, nonce) => UpdateAgrees(d.core, l, w, a, base.(nonce := nonce));
    case OpSetCode(a, code) => UpdateAgrees(d.core, l, w, a, base.(code := code, codeHash := w.keccak(code)));
  }

  lemma DestroyAgrees(d: DB, l: Layer, op: Op)
    requires op.OpSelfDestruct? || op.OpSelfDestruct6780?
    requires MayDestroy(d, op.a) && SameAccounts(d.core, l, d.world)
    ensures SameAccounts(Step(d, op).core, PlainWrite(l, d.world, op), d.world)
  {
    assert AccountOf(d.core, d.world, op.a) == PlainAccount(l, d.world, op.a);
    forall b ensures AccountOf(Step(d, op).core, d.world, b) == PlainAccount(PlainWrite(l, d.world, op), d.world, b) {
      assert AccountOf(d.core, d.world, b) == PlainAccount(l, d.world, b);
    }
  }

  lemma AccountsAgree(d: DB, l: Layer, op: Op)
    requires Faithful(d, op) && !op.OpSnapshot? && !op.OpRevert? && SameAccounts(d.core, l, d.world)
    ensures SameAccounts(Step(d, op).core, PlainWrite(l, d.world, op), d.world)
  {
    if AccountOp(op) {
      AccountOpAgrees(d, l, op);
    } else if op.OpTransfer? {
      TransferAgrees(d, l, op);
    } else if op.OpSelfDestruct? || op.OpSelfDestruct6780? {
      DestroyAgrees(d, l, op);
    } else if SideOp(op) {
      SideOpSpares(d, op);
      hide Step, SameAccounts;
      SameAccountsCong(Step(d, op).core, d.core, l, d.world);
    } else {
      hide SameAccounts, GetOrCreate, LoadAccount;
      match op
      case OpTouch(a) => TouchAgrees(d.core, l, d.world, a);
      case OpCreateAccount(a) => CreateAgrees(d.core, l, d.world, a);
      case OpSetState(_, _, _) => SameAccountsLayer(Step(d, op).core, d.core, PlainWrite(l, d.world, op), l, d.world);
      case OpGetState(_, _) => SameAccountsCong(Step(d, op).core, d.core, l, d.world);
      case OpGetCommitted(_, _) => SameAccountsCong(Step(d, op).core, d.core, l, d.world);
    }
  }

  lemma SameAccountsLayer(c: Core, e: Core, l: Layer, m: Layer, w: World)
    requires c.accounts == e.accounts && l.accounts == m.accounts && SameAccounts(e, m, w)
    ensures SameAccounts(c, l, w)
  {
    forall a ensures AccountOf(c, w, a) == PlainAccount(l, w, a) {
      assert AccountOf(e, w, a) == PlainAccount(m, w, a);
    }
  }

  // ---- Storage operations ----

  lemma LoadSlotView(d: DB, a: Address, k: Hash)
    requires Lookup(d.core.storage, a, k).None?
    ensures forall b, j :: SlotOf(LoadSlot(d, a, k).core, d.world, b, j) == SlotOf(d.core, d.world, b, j)
  {
    hide Put;
    var e := LoadSlot(d, a, k).core;
    forall b, j ensures SlotOf(e, d.world, b, j) == SlotOf(d.core, d.world, b, j) {
      if d.world.slot(a, k).Some? {
        var v := d.world.slot(a, k).value;
        assert e.storage == Put(d.core.storage, a, k, v);
        assert Lookup(e.storage, b, j) == if b == a && j == k then Some(v) else Lookup(d.core.storage, b, j);
      }
    }
  }

  lemma SlotsAgree(d: DB, l: Layer, op: Op)
    requires Inv(d) && Faithful(d, op) && !op.OpSnapshot? && !op.OpRevert? && SameSlots(d.core, l, d.world)
    ensures SameSlots(Step(d, op).core, PlainWrite(l, d.world, op), d.world)
  {
    var m := PlainWrite(l, d.world, op);
    if !StorageOp(op) {
      OtherStepsSpareStorage(d, op);
      SameWrites(l, d.world, op);
      hide Step, PlainWrite;
      SameSlotsCong(Step(d, op).core, d.core, m, l, d.world);
    } else {
      hide Put, Original, LoadSlot;
      match op
      case OpGetState(a, k) =>
        if Lookup(d.core.storage, a, k).None? {
          LoadSlotView(d, a, k);
        }
      case OpGetCommitted(a, k) =>
        if Lookup(d.committed, a, k).None? {
          if d.world.slot(a, k).Some? {
            UncommittedIsUncached(d, a, k);
            LoadSlotView(d, a, k);
          } else {
            LoadNothing(d, a, k);
          }
        }
      case OpSetState(a, k, v) =>
        forall b, j ensures SlotOf(Step(d, op).core, d.world, b, j) == PlainSlot(m, d.world, b, j) {
          assert SlotOf(d.core, d.world, b, j) == PlainSlot(l, d.world, b, j);
        }
    }
  }

  lemma SameWrites(l: Layer, w: World, op: Op)
    requires !StorageOp(op)
    ensures PlainWrite(l, w, op).writes == l.writes
  {}

  lemma SameSlotsCong(c: Core, e: Core, l: Layer, m: Layer, w: World)
    requires c.storage == e.storage && l.writes == m.writes && SameSlots(e, m, w)
    ensures SameSlots(c, l, w)
  {
    hide Original;
    forall a, k ensures SlotOf(c, w, a, k) == PlainSlot(l, w, a, k) {
      assert SlotOf(e, w, a, k) == PlainSlot(m, w, a, k);
    }
  }

  // ---- Refinement ----

  lemma StepSimulates(d: DB, o: Overlay, op: Op)
    requires Inv(d) && Faithful(d, op) && Simulates(d, o)
    ensures Simulates(Step(d, op), PlainStep(o, d.world, op))
  {
    hide Inv, Agrees;
    SameWorld(d, op);
    if op.OpSnapshot? || op.OpRevert? {
    } else {
      AgreesStep(d, o.top, op);
      SameSnapshots(d, op);
      hide Step, PlainWrite;
    }
  }

  lemma AgreesStep(d: DB, l: Layer, op: Op)
    requires Inv(d) && Faithful(d, op) && Agrees(d.core, l, d.world) && !op.OpSnapshot? && !op.OpRevert?
    ensures Agrees(Step(d, op).core, PlainWrite(l, d.world, op), d.world)
  {
    hide Inv, Faithful, Step, PlainWrite, SameAccounts, SameSlots;
    AccountsAgree(d, l, op);
    SlotsAgree(d, l, op);
  }

  lemma {:induction false} RunSimulates(d: DB, o: Overlay, ops: seq<Op>)
    requires Inv(d) && FaithfulRun(d, ops) && Simulates(d, o)
    ensures Simulates(Run(d, ops), PlainRun(o, d.world, ops)) && Inv(Run(d, ops)) && Run(d, ops).world == d.world
    decreases |ops|
  {
    if ops != [] {
      StepSimulates(d, o, ops[0]);
      StepKeeps(d, ops[0]);
      SameWorld(d, ops[0]);
      hide Step, PlainStep, Inv, Faithful, Simulates;
      RunSimulates(Step(d, ops[0]), PlainStep(o, d.world, ops[0]), ops[1..]);
    }
  }

  lemma InitSimulates(w: World)
    ensures Simulates(Init(w), EMPTY_OVERLAY)
  {
    hide Put;
    forall a ensures AccountOf(Init(w).core, w, a) == PlainAccount(EMPTY_OVERLAY.top, w, a) {}
    forall a, k ensures SlotOf(Init(w).core, w, a, k) == PlainSlot(EMPTY_OVERLAY.top, w, a, k) {}
  }

  /** After any faithful run every account and slot reads as the plain overlay says: the last write that
    * was not reverted, else the task's value, else the store's, else nothing; reading changes none of
    * this, and committed values stay what they were at the start. */
  lemma CachesRefineOverlay(w: World, ops: seq<Op>)
    requires FaithfulRun(Init(w), ops)
    ensures
      var d := Run(Init(w), ops);
      var o := PlainRun(EMPTY_OVERLAY, w, ops);
      && (forall a :: AccountOf(d.core, d.world, a) == PlainAccount(o.top, w, a))
      && (forall a, k :: SlotOf(d.core, d.world, a, k) == PlainSlot(o.top, w, a, k))
      && (forall a, k :: CommittedValue(d, a, k) == Original(w, a, k))
  {
    StateDBRuns.InitHolds(w);
    InitSimulates(w);
    RunSimulates(Init(w), EMPTY_OVERLAY, ops);
    var d := Run(Init(w), ops);
    InvMeansExact(d);
    hide Run, PlainRun, Inv, FaithfulRun;
    assert Agrees(d.core, PlainRun(EMPTY_OVERLAY, w, ops).top, w);
  }

  /** Destroying an account that only the store knows does nothing, as the two operations look at the cache only. No
    * stored account being marked destroyed, SelfDestruct leaves the account marked and empty, or absent, if and only
    * if it was cached or absent before. SelfDestruct6780 is to leave no balance, and so succeeds in one case more: for
    * an account that only the store knows and that has none. */
  lemma DestroyTakesEffectIff(d: DB, a: Address)
    requires forall b :: d.world.account(b).Some? ==> !d.world.account(b).value.suicided
    ensures
      (match AccountOf(Step(d, OpSelfDestruct(a)).core, d.world, a)
       case Some(v) => v.suicided && v.balance == 0
       case None => true)
      <==> MayDestroy(d, a)
    ensures BalanceOf(Step(d, OpSelfDestruct6780(a)).core, d.world, a) == 0
      <==> MayDestroy(d, a) || BalanceOf(d.core, d.world, a) == 0
  {}
}
