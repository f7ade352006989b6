/** Value transfer inside an execution, and one whole execution over a state database. */
module EVM {
  import opened Primitives
  import opened StateDBSpec
  import opened StateDBObjects
  import opened StateDB
  import opened StateDBRuns
  import opened Interpreter
  import BigEndian
  import NetDiff
  import StateDBAgreement
  import StateDBJournal
  import StateDBOverlay
  import StateStore

  // ---- Value transfer ----

  method CanTransfer(db: MemStateDB, a: Address, amount: uint256) returns (ok: bool)
    requires db.Valid()
    modifies db`accounts, db`live, db`model
    ensures db.Valid() && fresh(db.live - old(db.live)) && db.model == Step(old(db.model), OpTouch(a))
    ensures ok == StateDBSpec.CanTransfer(old(db.model), a, amount)
  {
    hide MemStateDB.Valid;
    var balance := db.GetBalance(a);
    return balance >= amount;
  }

  /** Moves value and leaves a log of it. */
  method IotexTransfer(db: MemStateDB, sender: Address, recipient: Address, amount: uint256)
    requires db.Valid()
    modifies db`accounts, db`live, db`model, db`logs, db`logIndex, db.live
    ensures db.Valid() && fresh(db.live - old(db.live))
    ensures db.model == Step(old(db.model), OpTransfer(sender, recipient, amount))
  {
    hide MemStateDB.Valid, SubBalance, AddBalance, AmountBytes, BytesToHash, BalanceOf;
    var _ := db.SubBalance(sender, amount);
    var _ := db.AddBalance(recipient, amount);
    var data := BigEndianBytes(amount);
    db.AddLog(ZERO_ADDRESS, [ZERO_HASH, BytesToHash(sender), BytesToHash(recipient)], data);
  }

  /** The shortest big-endian form: it decodes to the amount and has no leading zero. */
  method BigEndianBytes(amount: uint256) returns (data: Bytes)
    ensures data == AmountBytes(amount)
    ensures BigEndian.Decode(data) == amount && (data != [] ==> data[0] != 0)
  {
    StateDBJournal.AmountIsPlain(amount);
    data := [];
    var left: nat := amount;
    while left > 0
      invariant AmountBytes(amount) == AmountBytes(left) + data
    {
      data := [(left % 256) as byte] + data;
      left := left / 256;
    }
  }

  lemma PaddingIsInjective(a: Address, b: Address)
    requires BytesToHash(a) == BytesToHash(b)
    ensures a == b
  {
    assert BytesToHash(a)[12..] == a && BytesToHash(b)[12..] == b;
  }

  /** The log of a transfer says who paid whom how much. */
  lemma TransferLogTells(s: Address, r: Address, n: uint256, t: Address, q: Address, m: uint256)
    requires TransferTopics(s, r) == TransferTopics(t, q) && AmountBytes(n) == AmountBytes(m)
    ensures s == t && r == q && n == m
  {
    assert TransferTopics(s, r)[1] == TransferTopics(t, q)[1] && TransferTopics(s, r)[2] == TransferTopics(t, q)[2];
    hide BytesToHash;
    PaddingIsInjective(s, t);
    PaddingIsInjective(r, q);
    StateDBJournal.AmountIsPlain(n);
    StateDBJournal.AmountIsPlain(m);
  }

  // ---- An execution ----

  predicate ReadsSlot(op: Op) {
    op.OpGetState? || op.OpGetCommitted?
  }

  /** All the account getters together; one look caches what there is. */
  method Look(db: MemStateDB, a: Address) returns (seen: Option<Account>)
    requires db.Valid()
    modifies db`accounts, db`live, db`model
    ensures db.Valid() && fresh(db.live - old(db.live)) && db.model == Step(old(db.model), OpTouch(a))
    ensures seen == AccountOf(old(db.model).core, old(db.model).world, a)
  {
    hide MemStateDB.Valid, BalanceOf;
    LookedAt(db.model, a);
    var exists_ := db.Exist(a);
    if !exists_ {
      return None;
    }
    var balance := db.GetBalance(a);
    var nonce := db.GetNonce(a);
    var code := db.GetCode(a);
    var codeHash := db.GetCodeHash(a);
    var suicided := db.HasSelfDestructed(a);
    var isNew := db.IsNewAccount(a);
    return Some(Account(balance, nonce, code, codeHash, suicided, isNew));
  }

  /** Looking again changes nothing, and everything that is seen of an account is the account. */
  lemma LookedAt(d: DB, a: Address)
    ensures
      var e := Step(d, OpTouch(a));
      && Step(e, OpTouch(a)) == e && e.world == d.world
      && AccountOf(e.core, e.world, a) == AccountOf(d.core, d.world, a)
      && BalanceOf(e.core, e.world, a) == match AccountOf(d.core, d.world, a) case Some(v) => v.balance case None => 0
  {}

  /** Lets the next operation loose on the state and answers it. */
  method Perform(db: MemStateDB, op: Op) returns (answer: Answer)
    requires db.Valid() && (ReadsSlot(op) ==> db.Readable(op.a, op.k))
    modifies db, db.live
    ensures db.Valid() && db.localStore == old(db.localStore) && fresh(db.live - old(db.live))
    ensures db.model == Step(old(db.model), op) && answer == AnswerTo(old(db.model), op)
  {
    hide MemStateDB.Valid, Step, ReturnedBy;
    var returned := Return(db, op);
    answer := Side(db, returned);
  }

  method Side(db: MemStateDB, returned: Returned) returns (answer: Answer)
    requires db.Valid()
    ensures
      var c := db.model.core;
      answer == Answer(returned, c.refund, c.accessedAddresses, c.accessedSlots, c.transient)
  {
    answer := Answer(returned, db.refund, db.accessedAddresses, db.accessedSlots, db.transientStorage);
  }

  method Return(db: MemStateDB, op: Op) returns (r: Returned)
    requires db.Valid() && (ReadsSlot(op) ==> db.Readable(op.a, op.k))
    modifies db, db.live
    ensures db.Valid() && db.localStore == old(db.localStore) && fresh(db.live - old(db.live))
    ensures db.model == Step(old(db.model), op) && r == ReturnedBy(old(db.model), op)
  {
    hide MemStateDB.Valid, MemStateDB.Readable, Step, BalanceOf, AccountOf, SlotOf, CommittedValue, CachedBalance;
    if StateDBAgreement.ChangesAccounts(op) {
      r := ReturnOfAccount(db, op);
      return;
    }
    r := Nothing;
    match op
    case OpGetState(a, k) =>
      var v := db.GetState(a, k);
      r := Value(v);
    case OpGetCommitted(a, k) =>
      var v := db.GetCommittedState(a, k);
      r := Value(v);
    case OpSetState(a, k, v) =>
      var prev := db.SetState(a, k, v);
      r := Value(prev);
    case OpSetTransient(a, k, v) => db.SetTransientState(a, k, v);
    case OpAddRefund(gas) => db.AddRefund(gas);
    case OpSubRefund(gas) =>
      var panics := db.SubRefund(gas);
      r := if panics then Panic else Nothing;
    case OpAddAddress(a) => db.AddAddressToAccessList(a);
    case OpAddSlot(a, k) => db.AddSlotToAccessList(a, k);
    case OpPrepare(sender, coinbase, dest, precompiles, list) => db.Prepare(sender, coinbase, dest, precompiles, list);
    case OpAddLog(address, topics, data) => db.AddLog(address, topics, data);
    case OpTransfer(sender, recipient, amount) => IotexTransfer(db, sender, recipient, amount);
    case OpSnapshot =>
      var id := db.Snapshot();
      r := Id(id);
    case OpRevert(id) => db.RevertToSnapshot(id);
  }

  method ReturnOfAccount(db: MemStateDB, op: Op) returns (r: Returned)
    requires db.Valid() && StateDBAgreement.ChangesAccounts(op)
    modifies db`accounts, db`live, db`model, db.live
    ensures db.Valid() && fresh(db.live - old(db.live))
    ensures db.model == Step(old(db.model), op) && r == ReturnedBy(old(db.model), op)
  {
    hide MemStateDB.Valid, Step, BalanceOf, AccountOf;
    r := Nothing;
    match op
    case OpTouch(a) =>
      var seen := Look(db, a);
      r := Seen(seen);
    case OpCreateAccount(a) => db.CreateAccount(a);
    case OpCreateContract(a) => db.CreateContract(a);
    case OpSubBalance(a, amount) =>
      var prev := db.SubBalance(a, amount);
      r := Balance(prev);
    case OpAddBalance(a, amount) =>
      var prev := db.AddBalance(a, amount);
      r := Balance(prev);
    case OpSetNonce(a, nonce) => db.SetNonce(a, nonce);
    case OpSetCode(a, code) =>
      var prev := db.SetCode(a, code);
      r := Code(prev);
    case OpSelfDestruct(a) =>
      var prev := db.SelfDestruct(a);
      r := Balance(prev);
    case OpSelfDestruct6780(a) =>
      var prev, really := db.SelfDestruct6780(a);
      r := Destroyed(prev, really);
  }

  ghost function StartWorld(task: Task, keccak: Bytes -> Hash, store: Option<StateStore.Content>): World {
    match store case None => TaskWorld(task, keccak) case Some(c) => WithStore(TaskWorld(task, keccak), c)
  }

  lemma StoreFromTheStart(w: World, c: StateStore.Content)
    ensures Init(w).(world := WithStore(w, c)) == Init(WithStore(w, c))
  {
    hide LoadedAccount, LoadedSlot, StateStore.SlotHalts;
  }

  datatype Outcome = Refused | Executed(changes: seq<Change>, logs: seq<Log>)

  /** What an execution from a world reports. */
  function OutcomeOf(w: World, next: Strategy, steps: nat): Outcome {
    var ops := Asked(Init(w), next, [], steps);
    var d := Run(Init(w), ops);
    if NeverPanics(Init(w), ops) then Executed(NetDiff.Net(d.core.changes), d.core.logs) else Refused
  }

  /** An execution is refused if and only if some operation takes more from the refund counter than is kept there. Else
    * the report has the log of every operation that makes one and has not been reverted, in order, and no other. */
  lemma OutcomeIsKept(w: World, next: Strategy, steps: nat)
    ensures
      var ops := Asked(Init(w), next, [], steps);
      && (OutcomeOf(w, next, steps).Refused? <==> StateDBJournal.SomeOverdraws(ops))
      && (OutcomeOf(w, next, steps).Executed? ==>
        StateDBJournal.LogsAre(OutcomeOf(w, next, steps).logs, StateDBJournal.After(ops).kept))
  {
    hide Asked, Init, Run, NeverPanics, NetDiff.Net, StateDBJournal.LogsAre, StateDBJournal.After,
         StateDBJournal.SomeOverdraws, StateDBJournal.Refund, StateDBJournal.TransientIs, StateDBJournal.ListsAre;
    var ops := Asked(Init(w), next, [], steps);
    StateDBJournal.PanicsIff(w, ops);
    StateDBJournal.JournalTells(w, ops);
  }

  /** Every slot that is asked for can be looked up in the store. */
  ghost predicate AllReadable(ops: seq<Op>, store: Option<StateStore.Content>) {
    store.Some? ==> forall op :: op in ops && ReadsSlot(op) ==> StateStore.SlotHalts(store.value, op.a, op.k)
  }

  ghost function ContentOf(store: StateStore.Store?): Option<StateStore.Content>
    reads store
  {
    if store == null then None else Some(store.db)
  }

  /** Executes a task's transaction over its accounts and slots and, if there is one, the local store: asks the
    * strategy for one operation after another, for a number of steps that stands for the gas. The reported changes
    * are the exact difference the execution made to storage if no slot of the store was written unread; the reported
    * logs are those of the operations that were not reverted. */
  method Execute(task: Task, keccak: Bytes -> Hash, store: StateStore.Store?, next: Strategy, steps: nat)
    returns (r: Outcome)
    requires AllReadable(Asked(Init(StartWorld(task, keccak, ContentOf(store))), next, [], steps), ContentOf(store))
    ensures
      var w := StartWorld(task, keccak, ContentOf(store));
      var ops := Asked(Init(w), next, [], steps);
      var d := Run(Init(w), ops);
      && r == (if task.sender.None? then Refused else OutcomeOf(w, next, steps))
      && (r.Executed? && GuardedRun(Init(w), ops) ==>
        NetDiff.IsDifference(r.changes, d.core.changes, Originals(w), Currents(d.core, w)))
      && (r.Refused? <==> task.sender.None? || StateDBJournal.SomeOverdraws(ops))
      && (r.Executed? ==> StateDBJournal.LogsAre(r.logs, StateDBJournal.After(ops).kept))
  {
    hide MemStateDB.Valid, TaskWorld, WithStore, NetDiff.Net, NetDiff.IsDifference, GuardedRun, Run, Asked, NeverPanics,
         AllReadable, StateDBJournal.LogsAre, StateDBJournal.After, StateDBJournal.SomeOverdraws;
    OutcomeIsKept(StartWorld(task, keccak, ContentOf(store)), next, steps);
    if task.sender.None? {
      return Refused;
    }
    var db := new MemStateDB(task, keccak);
    if store != null {
      db.SetLocalStore(store);
      StoreFromTheStart(TaskWorld(task, keccak), store.db);
    }
    ghost var w := StartWorld(task, keccak, ContentOf(store));
    assert db.model == Init(w);
    ghost var ops := Asked(Init(w), next, [], steps);
    var ok := Drive(db, next, steps);
    if !ok {
      return Refused;
    }
    var changes := db.GetStateChanges();
    var logs := db.GetLogs();
    r := Executed(changes, logs);
    if GuardedRun(Init(w), ops) {
      ReportedChangesAreExact(w, ops);
    }
  }

  /** Asks for operations and performs them; false after a panic. */
  method Drive(db: MemStateDB, next: Strategy, steps: nat) returns (ok: bool)
    requires db.Valid() && AllReadable(Asked(db.model, next, [], steps), ContentOf(db.localStore))
    modifies db, db.live
    ensures db.Valid() && ok == NeverPanics(old(db.model), Asked(old(db.model), next, [], steps))
    ensures ok ==> db.model == Run(old(db.model), Asked(old(db.model), next, [], steps))
  {
    hide MemStateDB.Valid, Step, ReturnedBy, Asked, Run, NeverPanics;
    ghost var start, all := db.model, Asked(db.model, next, [], steps);
    var heard: seq<Answer> := [];
    var left := steps;
    while left > 0
      invariant db.Valid() && db.localStore == old(db.localStore) && fresh(db.live - old(db.live))
      invariant AllReadable(Asked(db.model, next, heard, left), ContentOf(db.localStore))
      invariant Run(db.model, Asked(db.model, next, heard, left)) == Run(start, all)
      invariant NeverPanics(db.model, Asked(db.model, next, heard, left)) == NeverPanics(start, all)
    {
      var op := next(heard);
      if op.None? {
        NothingAsked(db.model, next, heard, left);
        return true;
      }
      OneAsked(db.model, next, heard, left, op.value);
      var answer := Perform(db, op.value);
      if answer.returned.Panic? {
        return false;
      }
      heard := heard + [answer];
      left := left - 1;
    }
    NothingAsked(db.model, next, heard, left);
    return true;
  }

  lemma NothingAsked(d: DB, next: Strategy, heard: seq<Answer>, left: nat)
    requires left == 0 || next(heard).None?
    ensures Asked(d, next, heard, left) == [] && Run(d, []) == d && NeverPanics(d, [])
  {}

  lemma OneAsked(d: DB, next: Strategy, heard: seq<Answer>, left: nat, op: Op)
    requires left > 0 && next(heard) == Some(op)
    ensures
      var ops := Asked(d, next, heard, left);
      && op in ops
      && (ReturnedBy(d, op).Panic? ==> !NeverPanics(d, ops))
      && (!ReturnedBy(d, op).Panic? ==>
        var rest := Asked(Step(d, op), next, heard + [AnswerTo(d, op)], left - 1);
        && (forall x :: x in rest ==> x in ops)
        && Run(d, ops) == Run(Step(d, op), rest)
        && NeverPanics(d, ops) == NeverPanics(Step(d, op), rest))
  {
    hide Step, AnswerTo, ReturnedBy;
    StateDBAgreement.AskedIs(d, next, heard, left, op);
    var ops := Asked(d, next, heard, left);
    if !ReturnedBy(d, op).Panic? {
      var rest := Asked(Step(d, op), next, heard + [AnswerTo(d, op)], left - 1);
      assert ops == [op] + rest && ops[1..] == rest;
    }
  }

  // ---- Prefetched state or local store ----

  /** The task brings whatever the store knows of these accounts and slots. */
  ghost predicate Supplies(t: Task, keccak: Bytes -> Hash, c: StateStore.Content, f: StateDBAgreement.Footprint) {
    var w, v := TaskWorld(t, keccak), WithStore(TaskWorld(t, keccak), c);
    && (forall a :: a in f.accounts ==> a in w.accounts || v.account(a).None?)
    && (forall a, k :: (a, k) in f.slots ==> Lookup(w.slots, a, k).Some? || OrZero(v.slot(a, k)) == ZERO_HASH)
  }

  lemma AlikeIffSupplied(t: Task, keccak: Bytes -> Hash, c: StateStore.Content, f: StateDBAgreement.Footprint)
    ensures StateDBAgreement.Alike(TaskWorld(t, keccak), WithStore(TaskWorld(t, keccak), c), f)
      <==> Supplies(t, keccak, c, f)
  {
    hide LoadedAccount, LoadedSlot, StateStore.SlotHalts, WithCodes, TaskParties, TaskSlots;
  }

  /** A transaction executed over the task's prefetched state alone and over the local store behind it is reported
    * alike, changes, logs and panics, if the task brought what the store knows of the accounts and slots touched;
    * what the store knows of others makes no difference. */
  lemma IndependentExecutionAgrees(t: Task, keccak: Bytes -> Hash, c: StateStore.Content, f: StateDBAgreement.Footprint,
                                   next: Strategy, steps: nat)
    requires Supplies(t, keccak, c, f)
    requires StateDBAgreement.AllTouch(Asked(Init(TaskWorld(t, keccak)), next, [], steps), f)
    requires StateDBAgreement.Careful(Asked(Init(TaskWorld(t, keccak)), next, [], steps), {}, {})
    ensures OutcomeOf(WithStore(TaskWorld(t, keccak), c), next, steps) == OutcomeOf(TaskWorld(t, keccak), next, steps)
  {
    hide Supplies, TaskWorld, WithStore, Asked, Run, Init, NeverPanics, NetDiff.Net, StateDBAgreement.Careful,
         StateDBAgreement.Alike, StateDBOverlay.FaithfulRun, StateDBAgreement.AllTouch;
    var w := TaskWorld(t, keccak);
    var v := WithStore(w, c);
    var ops := Asked(Init(w), next, [], steps);
    AlikeIffSupplied(t, keccak, c, f);
    StateDBAgreement.CarefulIsFaithful(Init(w), ops, {}, {});
    StateDBAgreement.CarefulIsFaithful(Init(v), ops, {}, {});
    StateDBAgreement.SourcesDoNotMatter(w, v, f, next, steps);
  }
}
