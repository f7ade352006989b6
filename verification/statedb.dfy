/** MemStateDB: the state as objects and maps that its methods update in place. Accounts are heap
  * objects; a snapshot owns copies of them. The ghost model says what the fields mean. */
module StateDB {
  import opened Primitives
  import opened StateDBSpec
  import opened StateDBObjects
  import StateStore
  import NetDiff

  // ---- The state database ----

  class MemStateDB {
    var accounts: map<Address, Acct>
    var storage: Slots
    var committedStorage: Slots
    var changes: seq<Change>
    var logs: seq<Log>
    var snapshots: seq<SnapshotEntry>
    var logIndex: nat
    var refund: uint64
    var accessedAddresses: map<Address, bool>
    var accessedSlots: Flags
    var transientStorage: Slots
    var localStore: StateStore.Store?
    const keccak: Bytes -> Hash

    ghost var model: DB
    ghost var live: set<Acct>      // the account objects that may change
    ghost var frozen: set<Acct>    // the account objects of all snapshots

    /** The plain fields are those of the model. */
    ghost predicate FieldsMatch()
      reads this
    {
      && storage == model.core.storage && changes == model.core.changes && logs == model.core.logs
      && refund == model.core.refund && accessedAddresses == model.core.accessedAddresses
      && accessedSlots == model.core.accessedSlots && transientStorage == model.core.transient
      && committedStorage == model.committed && logIndex == model.logIndex && keccak == model.world.keccak
    }

    /** The fields are those of the model; live accounts are objects of their own, and none of them
      * belongs to a snapshot. */
    ghost predicate Valid()
      reads this, localStore, live, frozen
    {
      && FieldsMatch() && Distinct(accounts) && live !! frozen
      && Holds(accounts, model.core.accounts, live)
      && AllSaved(snapshots, model.snapshots, frozen)
      && AnswersFrom(model.world, localStore)
    }

    /** The state a task starts from, with no local store behind it. */
    constructor (task: Task, keccak: Bytes -> Hash)
      ensures Valid() && fresh(live) && fresh(frozen)
      ensures localStore == null && model == Init(TaskWorld(task, keccak))
    {
      hide TaskWorld, TaskSlots, WithCodes, TaskParties, Holds, Distinct, AllSaved, AnswersFrom;
      this.keccak := keccak;
      accounts, storage, committedStorage := map[], map[], map[];
      changes, logs, snapshots, logIndex, refund := [], [], [], 0, 0;
      accessedAddresses, accessedSlots, transientStorage := map[], map[], map[];
      localStore := null;
      live, frozen := {}, {};
      model := Init(TaskWorld(task, keccak));
      new;
      NothingBehindTask(task, keccak);
      LoadTask(task);
    }

    /** Fills accounts and storage from the task. */
    method LoadTask(task: Task)
      requires accounts == map[] && live == {} && storage == committedStorage == map[]
      modifies this`accounts, this`live, this`storage, this`committedStorage
      ensures Distinct(accounts) && Holds(accounts, TaskWorld(task, keccak).accounts, live) && fresh(live)
      ensures storage == committedStorage == TaskWorld(task, keccak).slots
    {
      hide TaskSlots, WithCodes, TaskParties, Holds, Distinct;
      LoadParties(task);
      LoadCodes(task.codes, TaskParties(task, keccak));
      LoadSlots(task.slots);
    }

    method LoadParties(task: Task)
      requires accounts == map[] && live == {}
      modifies this`accounts, this`live
      ensures Distinct(accounts) && Holds(accounts, TaskParties(task, keccak), live) && fresh(live)
    {
      if task.sender.Some? {
        var acct := new Acct(FromTask(task.sender.value, keccak([])));
        accounts := accounts[task.sender.value.address := acct];
        live := live + {acct};
      }
      if task.receiver.Some? {
        var r := task.receiver.value;
        var acct := new Acct(FromTask(r, if |r.codeHash| > 0 then BytesToHash(r.codeHash) else keccak([])));
        accounts := accounts[r.address := acct];
        live := live + {acct};
      }
    }

    method LoadCode(addr: Address, code: Bytes, ghost vals: map<Address, Account>)
      requires Distinct(accounts) && Holds(accounts, vals, live)
      modifies this`accounts, this`live, live
      ensures Distinct(accounts) && Holds(accounts, WithCode(vals, addr, code, keccak), live)
      ensures fresh(live - old(live))
    {
      hide Holds, Distinct;
      HoldsKeys(accounts, vals, live);
      if addr in accounts {
        RewriteCode(addr, code, vals);
      } else {
        var acct := new Acct(Account(0, 0, code, keccak(code), false, false));
        AddObject(accounts, vals, live, addr, acct);
        accounts := accounts[addr := acct];
        live := live + {acct};
      }
    }

    method RewriteCode(addr: Address, code: Bytes, ghost vals: map<Address, Account>)
      requires addr in accounts && addr in vals && accounts[addr] in live
      requires Distinct(accounts) && Holds(accounts, vals, live)
      modifies accounts[addr]
      ensures Holds(accounts, WithCode(vals, addr, code, keccak), live)
    {
      hide Holds;
      HoldsKeys(accounts, vals, live);
      var acct := accounts[addr];
      acct.code := code;
      acct.codeHash := keccak(code);
      HoldsEach(accounts, WithCode(vals, addr, code, keccak), live);
    }

    method LoadCodes(codes: seq<(Address, Bytes)>, ghost parties: map<Address, Account>)
      requires Distinct(accounts) && Holds(accounts, parties, live)
      modifies this`accounts, this`live, live
      ensures Distinct(accounts) && Holds(accounts, WithCodes(parties, codes, keccak), live)
      ensures fresh(live - old(live))
    {
      assert codes[..0] == [];
      hide Holds, Distinct, WithCode;
      for i := 0 to |codes|
        invariant Distinct(accounts) && Holds(accounts, WithCodes(parties, codes[..i], keccak), live)
        invariant fresh(live - old(live))
      {
        assert codes[..i + 1][..i] == codes[..i];
        var (addr, code) := codes[i];
        LoadCode(addr, code, WithCodes(parties, codes[..i], keccak));
      }
      assert codes[..|codes|] == codes;
    }

    method LoadSlots(slots: seq<(Address, map<Hash, Hash>)>)
      requires storage == committedStorage == map[]
      modifies this`storage, this`committedStorage
      ensures storage == committedStorage == TaskSlots(slots)
    {
      assert slots[..0] == [];
      for i := 0 to |slots|
        invariant storage == committedStorage == TaskSlots(slots[..i])
      {
        assert slots[..i + 1][..i] == slots[..i];
        var (addr, values) := slots[i];
        if addr !in storage {
          storage := storage[addr := map[]];
        }
        if addr !in committedStorage {
          committedStorage := committedStorage[addr := map[]];
        }
        storage := storage[addr := storage[addr] + values];
        committedStorage := committedStorage[addr := committedStorage[addr] + values];
      }
      assert slots[..|slots|] == slots;
    }

    /** From now on the store answers for what is not in memory. */
    method SetLocalStore(store: StateStore.Store)
      requires Valid()
      modifies this`localStore, this`model
      ensures Valid() && localStore == store
      ensures model == old(model).(world := WithStore(old(model).world, store.db))
    {
      WithStoreReflects(model.world, store.db);
      localStore := store;
      model := model.(world := WithStore(model.world, store.db));
      hide Reflects, AllSaved, Holds, Distinct;
    }

    // ---- Accounts ----

    /** Caches and returns the store's account; null if there is none. */
    method LoadAccountFromStore(a: Address) returns (acct: Acct?)
      requires Valid() && a !in accounts
      modifies this`accounts, this`live, this`model
      ensures Valid() && fresh(live - old(live))
      ensures model == WithCore(old(model), LoadAccount(old(model).core, old(model).world, a))
      ensures if acct == null then a !in accounts && model.world.account(a).None?
              else a in accounts && accounts[a] == acct && model.world.account(a) == Some(acct.Val())
    {
      hide AllSaved, AnswersFrom, Holds, Distinct;
      acct := FetchAccount(a);
      hide Valid;
      if acct != null {
        Cached();
        AddAccount(a, acct);
      }
    }

    /** A new object with what the local store has for the address. */
    method FetchAccount(a: Address) returns (acct: Acct?)
      requires AnswersFrom(model.world, localStore) && keccak == model.world.keccak
      ensures if acct == null then model.world.account(a).None?
              else fresh(acct) && model.world.account(a) == Some(acct.Val())
    {
      if localStore == null {
        return null;
      }
      assert model.world.account(a) == LoadedAccount(localStore.db, a, keccak);
      hide Reflects;
      var io := localStore.GetAccount(a);
      if io.Err? || io.value.None? {
        return null;
      }
      var record := io.value.value;
      acct := new Acct(Account(record.balance % UINT256_LIMIT, record.nonce, [], keccak([]), false, false));
      if |record.codeHash| > 0 {
        acct.codeHash := BytesToHash(record.codeHash);
        var code := StateStore.Get(localStore.db, StateStore.NS_CODE, record.codeHash);
        if code.Some? {
          acct.code := code.value;
        }
      }
    }

    // ---- Writing an account ----

    /** What a cached account object stands for. */
    lemma Cached()
      requires Valid()
      ensures accounts.Keys == model.core.accounts.Keys && keccak == model.world.keccak && live !! frozen
      ensures forall a :: a in accounts ==> accounts[a] in live && accounts[a].Val() == model.core.accounts[a]
    {
      hide AllSaved, AnswersFrom, Distinct;
    }

    /** Valid, but for a write to the account's object that the model does not have yet. */
    ghost predicate Written(a: Address)
      reads this, localStore, live, frozen
    {
      && a in accounts && accounts[a] in live && a in model.core.accounts
      && FieldsMatch() && Distinct(accounts) && live !! frozen
      && Holds(accounts, model.core.accounts[a := accounts[a].Val()], live)
      && AllSaved(snapshots, model.snapshots, frozen)
      && AnswersFrom(model.world, localStore)
    }

    twostate lemma AccountWritten(a: Address)
      requires old(Valid()) && unchanged(this) && a in accounts
      requires forall o :: o in live && o != accounts[a] ==> unchanged(o)
      requires unchanged(frozen) && (localStore == null || unchanged(localStore))
      ensures Written(a)
    {
      hide AllSaved, AnswersFrom, FieldsMatch;
      assert old(Holds(accounts, model.core.accounts, live));
    }

    /** Takes the write into the model. */
    ghost method Accept(a: Address)
      requires Written(a)
      modifies this`model
      ensures Valid() && model == WithCore(old(model), Update(old(model).core, a, accounts[a].Val()))
    {
      hide AllSaved, AnswersFrom, Distinct, Holds;
      model := WithCore(model, Update(model.core, a, accounts[a].Val()));
    }

    method GetOrCreateAccount(a: Address) returns (acct: Acct)
      requires Valid()
      modifies this`accounts, this`live, this`model
      ensures Valid() && fresh(live - old(live))
      ensures model == WithCore(old(model), GetOrCreate(old(model).core, old(model).world, a))
      ensures a in accounts && accounts[a] == acct && acct in live
    {
      hide Valid;
      Cached();
      if a in accounts {
        return accounts[a];
      }
      var loaded := LoadAccountFromStore(a);
      Cached();
      if loaded != null {
        return loaded;
      }
      acct := new Acct(Account(0, 0, [], keccak([]), false, true));
      AddAccount(a, acct);
    }

    /** Puts a new object into the cache. */
    method AddAccount(a: Address, acct: Acct)
      requires Valid() && a !in accounts && acct !in live && acct !in frozen
      modifies this`accounts, this`live, this`model
      ensures Valid() && live == old(live) + {acct} && accounts == old(accounts)[a := acct]
      ensures model == WithCore(old(model), Update(old(model).core, a, acct.Val()))
    {
      hide AllSaved, AnswersFrom, Holds, Distinct;
      AddObject(accounts, model.core.accounts, live, a, acct);
      accounts := accounts[a := acct];
      live := live + {acct};
      model := WithCore(model, Update(model.core, a, acct.Val()));
    }

    method CreateAccount(a: Address)
      requires Valid()
      modifies this`accounts, this`live, this`model
      ensures Valid() && fresh(live - old(live)) && model == Step(old(model), OpCreateAccount(a))
    {
      hide Valid;
      var _ := GetOrCreateAccount(a);
    }

    method CreateContract(a: Address)
      requires Valid()
      modifies this`accounts, this`live, this`model, live
      ensures Valid() && fresh(live - old(live)) && model == Step(old(model), OpCreateContract(a))
    {
      hide Valid, Written, GetOrCreate;
      var acct := GetOrCreateAccount(a);
      Cached();
      label before:
      acct.isNew := true;
      AccountWritten@before(a);
      Accept(a);
    }

    /** Takes an amount off a balance, or all of it if there is less; returns the balance before. */
    method SubBalance(a: Address, amount: uint256) returns (prev: uint256)
      requires Valid()
      modifies this`accounts, this`live, this`model, live
      ensures Valid() && fresh(live - old(live)) && model == Step(old(model), OpSubBalance(a, amount))
      ensures prev == BalanceOf(old(model).core, old(model).world, a)
    {
      hide Valid, Written, GetOrCreate, BalanceOf;
      CreatedAccount(model.core, model.world, a);
      var acct := GetOrCreateAccount(a);
      Cached();
      prev := acct.balance;
      label before:
      acct.balance := if acct.balance < amount then 0 else acct.balance - amount;
      AccountWritten@before(a);
      Accept(a);
    }

    /** Adds to a balance, wrapping at 256 bits; returns the balance before. */
    method AddBalance(a: Address, amount: uint256) returns (prev: uint256)
      requires Valid()
      modifies this`accounts, this`live, this`model, live
      ensures Valid() && fresh(live - old(live)) && model == Step(old(model), OpAddBalance(a, amount))
      ensures prev == BalanceOf(old(model).core, old(model).world, a)
    {
      hide Valid, Written, GetOrCreate, BalanceOf;
      CreatedAccount(model.core, model.world, a);
      var acct := GetOrCreateAccount(a);
      Cached();
      prev := acct.balance;
      label before:
      acct.balance := (acct.balance + amount) % UINT256_LIMIT;
      AccountWritten@before(a);
      Accept(a);
    }

    method SetNonce(a: Address, nonce: uint64)
      requires Valid()
      modifies this`accounts, this`live, this`model, live
      ensures Valid() && fresh(live - old(live)) && model == Step(old(model), OpSetNonce(a, nonce))
    {
      hide Valid, Written, GetOrCreate;
      var acct := GetOrCreateAccount(a);
      Cached();
      label before:
      acct.nonce := nonce;
      AccountWritten@before(a);
      Accept(a);
    }

    method SetCode(a: Address, code: Bytes) returns (prev: Bytes)
      requires Valid()
      modifies this`accounts, this`live, this`model, live
      ensures Valid() && fresh(live - old(live)) && model == Step(old(model), OpSetCode(a, code))
      ensures prev == match AccountOf(old(model).core, old(model).world, a) case Some(v) => v.code case None => []
    {
      hide Valid, Written, GetOrCreate, AccountOf;
      CreatedAccount(model.core, model.world, a);
      var acct := GetOrCreateAccount(a);
      Cached();
      prev := acct.code;
      label before:
      acct.code := code;
      acct.codeHash := if |code| > 0 then keccak(code) else keccak([]);
      AccountWritten@before(a);
      Accept(a);
    }

    /** Marks a cached account destroyed and takes its balance; returns the balance before. */
    method SelfDestruct(a: Address) returns (prev: uint256)
      requires Valid()
      modifies this`model, live
      ensures Valid() && model == Step(old(model), OpSelfDestruct(a))
      ensures prev == if a in old(model).core.accounts then old(model).core.accounts[a].balance else 0
    {
      hide Valid, Written;
      Cached();
      if a !in accounts {
        return 0;
      }
      var acct := accounts[a];
      prev := acct.balance;
      acct.suicided := true;
      acct.balance := 0;
      AccountWritten(a);
      Accept(a);
    }

    /** Destroys an account made in this transaction; any other only loses its balance. */
    method SelfDestruct6780(a: Address) returns (prev: uint256, destroyed: bool)
      requires Valid()
      modifies this`model, live
      ensures Valid() && model == Step(old(model), OpSelfDestruct6780(a))
      ensures prev == if a in old(model).core.accounts then old(model).core.accounts[a].balance else 0
      ensures destroyed <==> a in old(model).core.accounts && old(model).core.accounts[a].isNew
    {
      hide Valid, Written;
      Cached();
      if a !in accounts {
        return 0, false;
      }
      var acct := accounts[a];
      if acct.isNew {
        prev := SelfDestruct(a);
        return prev, true;
      }
      prev, destroyed := acct.balance, false;
      acct.balance := 0;
      AccountWritten(a);
      Accept(a);
    }

    // ---- Reading an account ----

    lemma Plain()
      requires Valid()
      ensures StoredIsPlain(model.world)
    {
      hide AnswersFrom, FieldsMatch, Holds, AllSaved, Distinct, StoredIsPlain;
      AnswersArePlain(model.world, localStore);
    }

    method GetBalance(a: Address) returns (balance: uint256)
      requires Valid()
      modifies this`accounts, this`live, this`model
      ensures Valid() && fresh(live - old(live)) && model == Step(old(model), OpTouch(a))
      ensures balance == BalanceOf(old(model).core, old(model).world, a)
    {
      hide Valid;
      Cached();
      if a in accounts {
        return accounts[a].balance;
      }
      var acct := LoadAccountFromStore(a);
      return if acct != null then acct.balance else 0;
    }

    method GetNonce(a: Address) returns (nonce: uint64)
      requires Valid()
      modifies this`accounts, this`live, this`model
      ensures Valid() && fresh(live - old(live)) && model == Step(old(model), OpTouch(a))
      ensures nonce == match AccountOf(old(model).core, old(model).world, a) case Some(v) => v.nonce case None => 0
    {
      hide Valid;
      Cached();
      if a in accounts {
        return accounts[a].nonce;
      }
      var acct := LoadAccountFromStore(a);
      return if acct != null then acct.nonce else 0;
    }

    method GetCodeHash(a: Address) returns (h: Hash)
      requires Valid()
      modifies this`accounts, this`live, this`model
      ensures Valid() && fresh(live - old(live)) && model == Step(old(model), OpTouch(a))
      ensures h == match AccountOf(old(model).core, old(model).world, a)
                   case Some(v) => v.codeHash
                   case None => ZERO_HASH
    {
      hide Valid;
      Cached();
      if a in accounts {
        return accounts[a].codeHash;
      }
      var acct := LoadAccountFromStore(a);
      return if acct != null then acct.codeHash else ZERO_HASH;
    }

    method GetCode(a: Address) returns (code: Bytes)
      requires Valid()
      modifies this`accounts, this`live, this`model
      ensures Valid() && fresh(live - old(live)) && model == Step(old(model), OpTouch(a))
      ensures code == match AccountOf(old(model).core, old(model).world, a) case Some(v) => v.code case None => []
    {
      hide Valid;
      Cached();
      if a in accounts {
        return accounts[a].code;
      }
      var acct := LoadAccountFromStore(a);
      return if acct != null then acct.code else [];
    }

    method Exist(a: Address) returns (b: bool)
      requires Valid()
      modifies this`accounts, this`live, this`model
      ensures Valid() && fresh(live - old(live)) && model == Step(old(model), OpTouch(a))
      ensures b == AccountOf(old(model).core, old(model).world, a).Some?
    {
      hide Valid;
      Cached();
      if a in accounts {
        return true;
      }
      var acct := LoadAccountFromStore(a);
      return acct != null;
    }

    method Empty(a: Address) returns (b: bool)
      requires Valid()
      modifies this`accounts, this`live, this`model
      ensures Valid() && fresh(live - old(live)) && model == Step(old(model), OpTouch(a))
      ensures b == match AccountOf(old(model).core, old(model).world, a)
                   case Some(v) => v.nonce == 0 && v.balance == 0 && v.code == []
                   case None => true
    {
      hide Valid;
      Cached();
      var acct: Acct?;
      if a in accounts {
        acct := accounts[a];
      } else {
        acct := LoadAccountFromStore(a);
      }
      return acct == null || (acct.nonce == 0 && acct.balance == 0 && |acct.code| == 0);
    }

    /** An account that only the store knows is not new. */
    method IsNewAccount(a: Address) returns (b: bool)
      requires Valid()
      modifies this`accounts, this`live, this`model
      ensures Valid() && fresh(live - old(live)) && model == Step(old(model), OpTouch(a))
      ensures b == match AccountOf(old(model).core, old(model).world, a) case Some(v) => v.isNew case None => true
    {
      Plain();
      hide Valid;
      Cached();
      if a in accounts {
        return accounts[a].isNew;
      }
      var acct := LoadAccountFromStore(a);
      return acct == null;
    }

    /** Looks at the cache only. */
    method HasSelfDestructed(a: Address) returns (b: bool)
      requires Valid()
      ensures b == match AccountOf(model.core, model.world, a) case Some(v) => v.suicided case None => false
    {
      Plain();
      hide Valid;
      Cached();
      return a in accounts && accounts[a].suicided;
    }

    // ---- Storage ----

    /** Looking the slot up in the local store comes to an end. */
    ghost predicate Readable(a: Address, k: Hash)
      reads this, localStore
    {
      localStore == null || StateStore.SlotHalts(localStore.db, a, k)
    }

    /** Reads a slot from the local store and caches it as current and as committed. */
    method LoadSlotFromStore(a: Address, k: Hash) returns (v: Hash, ok: bool)
      requires Valid() && Readable(a, k)
      modifies this`storage, this`committedStorage, this`model
      ensures Valid() && model == LoadSlot(old(model), a, k)
      ensures ok == model.world.slot(a, k).Some? && v == OrZero(model.world.slot(a, k))
    {
      hide FieldsMatch, Holds, Distinct, AllSaved, AnswersFrom, Put;
      v, ok := FetchSlot(a, k);
      if ok {
        CacheSlot(a, k, v);
      }
    }

    method CacheSlot(a: Address, k: Hash, v: Hash)
      requires Valid()
      modifies this`storage, this`committedStorage, this`model
      ensures Valid()
      ensures model == old(model).(core := old(model).core.(storage := Put(old(model).core.storage, a, k, v)),
                                   committed := Put(old(model).committed, a, k, v))
    {
      hide Holds, Distinct, AllSaved, AnswersFrom, Put;
      storage := Put(storage, a, k, v);
      committedStorage := Put(committedStorage, a, k, v);
      model := model.(core := model.core.(storage := storage), committed := committedStorage);
    }

    /** What the local store has for a slot. */
    method FetchSlot(a: Address, k: Hash) returns (v: Hash, ok: bool)
      requires AnswersFrom(model.world, localStore) && Readable(a, k)
      ensures ok == model.world.slot(a, k).Some? && v == OrZero(model.world.slot(a, k))
    {
      if localStore == null {
        return ZERO_HASH, false;
      }
      assert model.world.slot(a, k) == LoadedSlot(localStore.db, a, k);
      hide Reflects, StateStore.SlotHalts;
      var value := localStore.GetStorageSlot(a, k);
      if value.Err? || value.value.None? {
        return ZERO_HASH, false;
      }
      return BytesToHash(value.value.value), true;
    }

    method GetState(a: Address, k: Hash) returns (v: Hash)
      requires Valid() && (Lookup(model.core.storage, a, k).Some? || Readable(a, k))
      modifies this`storage, this`committedStorage, this`model
      ensures Valid() && model == Step(old(model), OpGetState(a, k))
      ensures v == SlotOf(old(model).core, old(model).world, a, k)
    {
      assert storage == model.core.storage;
      hide Valid, LoadSlot;
      if a in storage && k in storage[a] {
        return storage[a][k];
      }
      var ok;
      v, ok := LoadSlotFromStore(a, k);
    }

    method GetCommittedState(a: Address, k: Hash) returns (v: Hash)
      requires Valid() && (Lookup(model.committed, a, k).Some? || Readable(a, k))
      modifies this`storage, this`committedStorage, this`model
      ensures Valid() && model == Step(old(model), OpGetCommitted(a, k)) && v == CommittedValue(old(model), a, k)
    {
      assert committedStorage == model.committed;
      hide Valid, LoadSlot;
      if a in committedStorage && k in committedStorage[a] {
        return committedStorage[a][k];
      }
      var ok;
      v, ok := LoadSlotFromStore(a, k);
    }

    /** Writes a slot and logs the write with the cached value before it, zero if there is none;
      * the store is not asked. */
    method SetState(a: Address, k: Hash, v: Hash) returns (previous: Hash)
      requires Valid()
      modifies this`storage, this`changes, this`model
      ensures Valid() && model == Step(old(model), OpSetState(a, k, v))
      ensures previous == OrZero(Lookup(old(model).core.storage, a, k))
    {
      hide FieldsMatch, Holds, Distinct, AllSaved, AnswersFrom;
      previous := RecordWrite(a, k, v);
    }

    method RecordWrite(a: Address, k: Hash, v: Hash) returns (previous: Hash)
      requires FieldsMatch()
      modifies this`storage, this`changes, this`model
      ensures FieldsMatch() && model == WithCore(old(model), StateDBSpec.SetState(old(model).core, a, k, v))
      ensures previous == OrZero(Lookup(old(model).core.storage, a, k))
    {
      hide Put;
      previous := if a in storage && k in storage[a] then storage[a][k] else ZERO_HASH;
      storage := Put(storage, a, k, v);
      changes := changes + [Change(a, k, previous, v)];
      model := WithCore(model, StateDBSpec.SetState(model.core, a, k, v));
    }

    method GetTransientState(a: Address, k: Hash) returns (v: Hash)
      requires Valid()
      ensures v == OrZero(Lookup(model.core.transient, a, k))
    {
      return if a in transientStorage && k in transientStorage[a] then transientStorage[a][k] else ZERO_HASH;
    }

    method SetTransientState(a: Address, k: Hash, v: Hash)
      requires Valid()
      modifies this`transientStorage, this`model
      ensures Valid() && model == Step(old(model), OpSetTransient(a, k, v))
    {
      hide Holds, Distinct, AllSaved, AnswersFrom, Put;
      transientStorage := Put(transientStorage, a, k, v);
      model := Step(model, OpSetTransient(a, k, v));
    }

    /** The net storage changes of the execution. */
    method GetStateChanges() returns (filtered: seq<Change>)
      requires Valid()
      ensures filtered == NetDiff.Net(model.core.changes)
    {
      hide Holds, Distinct, AllSaved, AnswersFrom;
      filtered := NetDiff.Collapse(changes);
    }

    // ---- Refund counter and logs ----

    method AddRefund(gas: uint64)
      requires Valid()
      modifies this`refund, this`model
      ensures Valid() && model == Step(old(model), OpAddRefund(gas))
    {
      hide Holds, Distinct, AllSaved, AnswersFrom;
      refund := (refund + gas) % UINT64_LIMIT;
      model := Step(model, OpAddRefund(gas));
    }

    /** Panics, changing nothing, when the counter would go below zero. */
    method SubRefund(gas: uint64) returns (panics: bool)
      requires Valid()
      modifies this`refund, this`model
      ensures Valid() && model == Step(old(model), OpSubRefund(gas)) && (panics <==> gas > old(model).core.refund)
    {
      hide Holds, Distinct, AllSaved, AnswersFrom;
      if gas > refund {
        return true;
      }
      refund := refund - gas;
      model := Step(model, OpSubRefund(gas));
      return false;
    }

    method GetRefund() returns (r: uint64)
      requires Valid()
      ensures r == model.core.refund
    {
      return refund;
    }

    method AddLog(address: Address, topics: seq<Hash>, data: Bytes)
      requires Valid()
      modifies this`logs, this`logIndex, this`model
      ensures Valid() && model == Step(old(model), OpAddLog(address, topics, data))
    {
      hide Holds, Distinct, AllSaved, AnswersFrom;
      logs := logs + [Log(address, topics, data, logIndex)];
      logIndex := logIndex + 1;
      model := Step(model, OpAddLog(address, topics, data));
    }

    method GetLogs() returns (r: seq<Log>)
      requires Valid()
      ensures r == model.core.logs
    {
      return logs;
    }

    // ---- Access lists ----

    method AddressInAccessList(a: Address) returns (b: bool)
      requires Valid()
      ensures b <==> a in model.core.accessedAddresses && model.core.accessedAddresses[a]
    {
      return a in accessedAddresses && accessedAddresses[a];
    }

    method SlotInAccessList(a: Address, k: Hash) returns (addressOk: bool, slotOk: bool)
      requires Valid()
      ensures addressOk <==> a in model.core.accessedAddresses && model.core.accessedAddresses[a]
      ensures slotOk <==> Lookup(model.core.accessedSlots, a, k) == Some(true)
    {
      addressOk := a in accessedAddresses && accessedAddresses[a];
      slotOk := a in accessedSlots && k in accessedSlots[a] && accessedSlots[a][k];
    }

    method AddAddressToAccessList(a: Address)
      requires Valid()
      modifies this`accessedAddresses, this`model
      ensures Valid() && model == Step(old(model), OpAddAddress(a))
    {
      hide Holds, Distinct, AllSaved, AnswersFrom;
      accessedAddresses := accessedAddresses[a := true];
      model := Step(model, OpAddAddress(a));
    }

    method AddSlotToAccessList(a: Address, k: Hash)
      requires Valid()
      modifies this`accessedAddresses, this`accessedSlots, this`model
      ensures Valid() && model == Step(old(model), OpAddSlot(a, k))
    {
      hide FieldsMatch, Holds, Distinct, AllSaved, AnswersFrom;
      ListSlot(a, k);
    }

    method ListSlot(a: Address, k: Hash)
      requires FieldsMatch()
      modifies this`accessedAddresses, this`accessedSlots, this`model
      ensures FieldsMatch() && model == WithCore(old(model), AddSlot(old(model).core, a, k))
    {
      hide Put;
      accessedAddresses := accessedAddresses[a := true];
      accessedSlots := Put(accessedSlots, a, k, true);
      model := WithCore(model, AddSlot(model.core, a, k));
    }

    /** Starts a transaction's access list: empties it, then adds the parties, the precompiled contracts
      * and the transaction's own list. */
    method Prepare(sender: Address, coinbase: Address, dest: Option<Address>, precompiles: seq<Address>,
                   txAccesses: seq<AccessTuple>)
      requires Valid()
      modifies this`accessedAddresses, this`accessedSlots, this`model
      ensures Valid()
      ensures model == Step(old(model),
        OpPrepare(sender, coinbase, dest, precompiles, txAccesses))
    {
      hide Valid, AddAddresses, AddSlots;
      ClearAccessList();
      ghost var c := model.core;
      AddParties(sender, coinbase, dest, precompiles);
      AddEntries(c, Parties(sender, coinbase, dest, precompiles), txAccesses);
    }

    method AddParties(sender: Address, coinbase: Address, dest: Option<Address>, precompiles: seq<Address>)
      requires Valid()
      modifies this`accessedAddresses, this`model
      ensures Valid()
      ensures model == WithCore(old(model), AddAddresses(old(model).core, Parties(sender, coinbase, dest, precompiles)))
    {
      hide Valid, AddAddress;
      ghost var c := model.core;
      AddAddressToAccessList(sender);
      AddAddressToAccessList(coinbase);
      if dest.Some? {
        AddAddressToAccessList(dest.value);
      }
      WarmParties(c, sender, coinbase, dest);
      AddAddressList(precompiles);
      AddAddressesConcat(c, [sender, coinbase] + Optional(dest), precompiles);
    }

    method ClearAccessList()
      requires Valid()
      modifies this`accessedAddresses, this`accessedSlots, this`model
      ensures Valid()
      ensures model == WithCore(old(model), old(model).core.(accessedAddresses := map[], accessedSlots := map[]))
    {
      hide Holds, Distinct, AllSaved, AnswersFrom;
      accessedAddresses, accessedSlots := map[], map[];
      model := WithCore(model, model.core.(accessedAddresses := map[], accessedSlots := map[]));
    }

    method AddAddressList(addresses: seq<Address>)
      requires Valid()
      modifies this`accessedAddresses, this`model
      ensures Valid() && model == WithCore(old(model), AddAddresses(old(model).core, addresses))
    {
      hide Valid, AddAddress;
      assert addresses[..0] == [];
      for i := 0 to |addresses|
        invariant Valid() && model == WithCore(old(model), AddAddresses(old(model).core, addresses[..i]))
      {
        assert addresses[..i + 1][..i] == addresses[..i];
        AddAddressToAccessList(addresses[i]);
      }
      assert addresses[..|addresses|] == addresses;
    }

    method AddEntries(ghost c: Core, ghost addresses: seq<Address>, entries: seq<AccessTuple>)
      requires Valid() && model.core == AddAddresses(c, addresses)
      modifies this`accessedAddresses, this`accessedSlots, this`model
      ensures Valid()
      ensures model == WithCore(old(model),
        AddSlots(AddAddresses(c, addresses + Listed(entries)), ListedSlots(entries)))
    {
      assert entries[..0] == [] && addresses + Listed([]) == addresses;
      assert AddSlots(model.core, []) == model.core;
      hide Valid, AddAddresses, AddSlots, SlotsOf;
      for i := 0 to |entries|
        invariant Valid()
        invariant model == WithCore(old(model),
          AddSlots(AddAddresses(c, addresses + Listed(entries[..i])), ListedSlots(entries[..i])))
      {
        assert entries[..i + 1][..i] == entries[..i];
        assert addresses + Listed(entries[..i + 1]) == addresses + Listed(entries[..i]) + [entries[i].address];
        AddEntry(c, addresses + Listed(entries[..i]), ListedSlots(entries[..i]), entries[i]);
      }
      assert entries[..|entries|] == entries;
    }

    /** One round: the entry's address, then its slots. */
    method AddEntry(ghost c: Core, ghost addresses: seq<Address>, ghost slots: seq<(Address, Hash)>, e: AccessTuple)
      requires Valid() && model.core == AddSlots(AddAddresses(c, addresses), slots)
      modifies this`accessedAddresses, this`accessedSlots, this`model
      ensures Valid()
      ensures model == WithCore(old(model),
        AddSlots(AddAddresses(c, addresses + [e.address]), slots + SlotsOf(e, |e.storageKeys|)))
    {
      hide Valid, AddAddress, AddSlot, AddAddresses, AddSlots, SlotsOf;
      NextEntry(c, addresses, slots, e);
      AddAddressToAccessList(e.address);
      AddEntrySlots(e);
    }

    method AddEntrySlots(e: AccessTuple)
      requires Valid()
      modifies this`accessedAddresses, this`accessedSlots, this`model
      ensures Valid() && model == WithCore(old(model), AddSlots(old(model).core, SlotsOf(e, |e.storageKeys|)))
    {
      hide Valid, AddSlot;
      for j := 0 to |e.storageKeys|
        invariant Valid() && model == WithCore(old(model), AddSlots(old(model).core, SlotsOf(e, j)))
      {
        assert SlotsOf(e, j + 1)[..|SlotsOf(e, j)|] == SlotsOf(e, j);
        AddSlotToAccessList(e.address, e.storageKeys[j]);
      }
    }

    // ---- Snapshots ----

    /** Saves copies of everything but the committed storage and the log counter. */
    method Snapshot() returns (id: int)
      requires Valid()
      modifies this`snapshots, this`frozen, this`model
      ensures Valid() && old(frozen) <= frozen && fresh(frozen - old(frozen))
      ensures model == Step(old(model), OpSnapshot) && id == |old(model).snapshots|
    {
      hide AnswersFrom, Distinct, Holds, Saved;
      var snap, copied := CopyState();
      OneMoreSaved(snapshots, model.snapshots, frozen, snap, model.core, copied);
      id := |snapshots|;
      hide AllSaved;
      snapshots := snapshots + [snap];
      frozen := frozen + copied;
      model := TakeSnapshot(model);
    }

    method CopyState() returns (snap: SnapshotEntry, ghost copied: set<Acct>)
      requires FieldsMatch() && Holds(accounts, model.core.accounts, live)
      ensures Saved(snap, model.core, copied) && fresh(copied)
    {
      hide Holds, Distinct;
      var copies;
      copies, copied := CopyAccounts(accounts, model.core.accounts, live);
      snap := SnapshotEntry(copies, storage, changes, logs, refund, accessedAddresses, accessedSlots, transientStorage);
    }

    /** Brings back copies of what the snapshot saved and forgets it and all later ones. */
    method RevertToSnapshot(id: int)
      requires Valid()
      modifies this`accounts, this`storage, this`changes, this`logs, this`refund, this`accessedAddresses,
               this`accessedSlots, this`transientStorage, this`snapshots, this`live, this`model
      ensures Valid() && fresh(live - old(live))
      ensures model == Step(old(model), OpRevert(id))
    {
      hide FieldsMatch, AnswersFrom, Distinct, Holds;
      if id < 0 || id >= |snapshots| {
        return;
      }
      var snap := snapshots[id];
      assert Saved(snap, model.snapshots[id], frozen);
      FewerSaved(snapshots, model.snapshots, frozen, id);
      hide AllSaved;
      var copies, copied := CopyAccounts(snap.accounts, model.snapshots[id].accounts, frozen);
      Restore(id, snap, copies, copied);
    }

    method Restore(id: nat, snap: SnapshotEntry, copies: map<Address, Acct>, ghost copied: set<Acct>)
      requires FieldsMatch() && AnswersFrom(model.world, localStore) && id < |model.snapshots| && id < |snapshots|
      requires AllSaved(snapshots[..id], model.snapshots[..id], frozen) && Saved(snap, model.snapshots[id], frozen)
      requires Holds(copies, model.snapshots[id].accounts, copied) && Distinct(copies) && copied !! frozen
      modifies this`accounts, this`storage, this`changes, this`logs, this`refund, this`accessedAddresses,
               this`accessedSlots, this`transientStorage, this`snapshots, this`live, this`model
      ensures Valid() && live == copied && model == Revert(old(model), id)
    {
      hide AllSaved, AnswersFrom, Distinct, Holds;
      RestoreFields(id, snap);
      accounts, live, snapshots := copies, copied, snapshots[..id];
    }

    method RestoreFields(id: nat, snap: SnapshotEntry)
      requires FieldsMatch() && id < |model.snapshots| && Saved(snap, model.snapshots[id], frozen)
      modifies this`storage, this`changes, this`logs, this`refund, this`accessedAddresses,
               this`accessedSlots, this`transientStorage, this`model
      ensures FieldsMatch() && model == Revert(old(model), id)
    {
      hide Holds;
      storage, changes, logs, refund := snap.storage, snap.changes, snap.logs, snap.refund;
      accessedAddresses, accessedSlots, transientStorage := snap.accessedAddresses, snap.accessedSlots, snap.transient;
      model := Revert(model, id);
    }
  }
}
