/** What the state database is made of: account objects, saved states, and the world they start from. */
module StateDBObjects {
  import opened Primitives
  import opened StateDBSpec
  import StateStore
  import Trie
  import TrieHalting
  import AccountRecord = Account

  // ---- What the store's records become in memory ----

  function LoadedAccount(c: StateStore.Content, a: Address, keccak: Bytes -> Hash): Option<Account> {
    match StateStore.AccountAt(c, a)
    case Ok(Some(io)) =>
      var plain := Account(io.balance % UINT256_LIMIT, io.nonce, [], keccak([]), false, false);
      if |io.codeHash| == 0 then Some(plain)
      else
        var code := match StateStore.Get(c, StateStore.NS_CODE, io.codeHash) case Some(b) => b case None => [];
        Some(plain.(code := code, codeHash := BytesToHash(io.codeHash)))
    case _ => None
  }

  ghost function LoadedSlot(c: StateStore.Content, a: Address, k: Hash): Option<Hash>
    requires StateStore.SlotHalts(c, a, k)
  {
    match StateStore.SlotAt(c, a, k) case Ok(Some(v)) => Some(BytesToHash(v)) case _ => None
  }

  /** Every slot of a store can be read if its extension nodes make no cycle without a path. */
  lemma AcyclicIsReadable(c: StateStore.Content, a: Address, k: Hash)
    requires TrieHalting.Acyclic(StateStore.Bucket(c, StateStore.NS_CONTRACT))
    ensures StateStore.SlotHalts(c, a, k)
  {
    hide Trie.Halts, StateStore.StorageRoot, TrieHalting.OnCycle, TrieHalting.After;
    match StateStore.StorageRoot(c, a)
    case Ok(Some(root)) => TrieHalting.LookupEndsIff(StateStore.Bucket(c, StateStore.NS_CONTRACT), root, k);
    case _ =>
  }

  /** The world's reads are those of the store's content, where they come to an end. */
  ghost predicate Reflects(w: World, c: StateStore.Content) {
    && (forall a :: w.account(a) == LoadedAccount(c, a, w.keccak))
    && (forall a: Address, k: Hash :: StateStore.SlotHalts(c, a, k) ==> w.slot(a, k) == LoadedSlot(c, a, k))
  }

  ghost function WithStore(w: World, c: StateStore.Content): World {
    w.(account := (a: Address) => LoadedAccount(c, a, w.keccak),
       slot := (a: Address, k: Hash) => if StateStore.SlotHalts(c, a, k) then LoadedSlot(c, a, k) else None)
  }

  /** Stored accounts are neither new nor destroyed. */
  ghost predicate StoredIsPlain(w: World) {
    forall a :: w.account(a).Some? ==> !w.account(a).value.isNew && !w.account(a).value.suicided
  }

  ghost predicate NoStore(w: World) {
    (forall a :: w.account(a).None?) && (forall a, k :: w.slot(a, k).None?)
  }

  // ---- The task ----

  datatype TaskAccount = TaskAccount(address: Address, balance: Bytes, nonce: uint64, codeHash: Bytes)

  /** Codes and slots are listed in the order the task's maps happen to be walked. */
  datatype Task = Task(
    sender: Option<TaskAccount>, receiver: Option<TaskAccount>,
    codes: seq<(Address, Bytes)>, slots: seq<(Address, map<Hash, Hash>)>)

  /** An unreadable or negative balance counts as zero. */
  function TaskBalance(s: Bytes): uint256 {
    match AccountRecord.ParseDecimal(s) case Some(n) => if n < 0 then 0 else n % UINT256_LIMIT case None => 0
  }

  function FromTask(t: TaskAccount, codeHash: Hash): Account {
    Account(TaskBalance(t.balance), t.nonce, [], codeHash, false, false)
  }

  function TaskParties(t: Task, keccak: Bytes -> Hash): map<Address, Account> {
    var none: map<Address, Account> := map[];
    var one := match t.sender case None => none case Some(s) => none[s.address := FromTask(s, keccak([]))];
    match t.receiver
    case None => one
    case Some(r) => one[r.address := FromTask(r, if |r.codeHash| > 0 then BytesToHash(r.codeHash) else keccak([]))]
  }

  function WithCode(m: map<Address, Account>, a: Address, code: Bytes, keccak: Bytes -> Hash): map<Address, Account> {
    var h := keccak(code);
    m[a := if a in m then m[a].(code := code, codeHash := h) else Account(0, 0, code, h, false, false)]
  }

  function WithCodes(m: map<Address, Account>, codes: seq<(Address, Bytes)>, keccak: Bytes -> Hash)
    : map<Address, Account>
  {
    if codes == [] then m
    else
      var last := codes[|codes| - 1];
      WithCode(WithCodes(m, codes[..|codes| - 1], keccak), last.0, last.1, keccak)
  }

  function TaskSlots(slots: seq<(Address, map<Hash, Hash>)>): Slots {
    if slots == [] then map[]
    else
      var before, last := TaskSlots(slots[..|slots| - 1]), slots[|slots| - 1];
      before[last.0 := (if last.0 in before then before[last.0] else map[]) + last.1]
  }

  function TaskWorld(t: Task, keccak: Bytes -> Hash): World {
    World(WithCodes(TaskParties(t, keccak), t.codes, keccak), TaskSlots(t.slots),
          (a: Address) => None, (a: Address, k: Hash) => None, keccak)
  }

  // ---- A transaction's access list ----

  lemma WarmParties(c: Core, sender: Address, coinbase: Address, dest: Option<Address>)
    ensures
      var two := AddAddress(AddAddress(c, sender), coinbase);
      AddAddresses(c, [sender, coinbase] + Optional(dest))
        == match dest case Some(a) => AddAddress(two, a) case None => two
  {
    hide AddAddress;
    var one: seq<Address> := [sender];
    var two := one + [coinbase];
    assert AddAddresses(c, one) == AddAddress(c, sender);
    assert two[..1] == one && two == [sender, coinbase];
    assert AddAddresses(c, two) == AddAddress(AddAddress(c, sender), coinbase);
    match dest
    case Some(a) => assert (two + [a])[..2] == two;
    case None => assert two + [] == two;
  }

  lemma {:induction false} AddAddressesConcat(c: Core, xs: seq<Address>, ys: seq<Address>)
    ensures AddAddresses(c, xs + ys) == AddAddresses(AddAddresses(c, xs), ys)
    decreases |ys|
  {
    if ys == [] {
      assert xs + ys == xs;
    } else {
      var init := ys[..|ys| - 1];
      assert (xs + ys)[..|xs + ys| - 1] == xs + init;
      AddAddressesConcat(c, xs, init);
    }
  }

  lemma {:induction false} AddSlotsConcat(c: Core, xs: seq<(Address, Hash)>, ys: seq<(Address, Hash)>)
    ensures AddSlots(c, xs + ys) == AddSlots(AddSlots(c, xs), ys)
    decreases |ys|
  {
    hide AddSlot;
    if ys == [] {
      assert xs + ys == xs;
    } else {
      var init := ys[..|ys| - 1];
      assert (xs + ys)[..|xs + ys| - 1] == xs + init;
      AddSlotsConcat(c, xs, init);
    }
  }

  lemma AddressAndSlotCommute(c: Core, a: Address, b: Address, k: Hash)
    ensures AddAddress(AddSlot(c, b, k), a) == AddSlot(AddAddress(c, a), b, k)
  {
    hide Put;
    assert c.accessedAddresses[b := true][a := true] == c.accessedAddresses[a := true][b := true];
  }

  /** It makes no difference whether an address is listed before or after some slots. */
  lemma {:induction false} AddressAndSlotsCommute(c: Core, a: Address, slots: seq<(Address, Hash)>)
    ensures AddAddress(AddSlots(c, slots), a) == AddSlots(AddAddress(c, a), slots)
    decreases |slots|
  {
    if slots != [] {
      hide AddAddress, AddSlot;
      var init, last := slots[..|slots| - 1], slots[|slots| - 1];
      AddressAndSlotsCommute(c, a, init);
      AddressAndSlotCommute(AddSlots(c, init), a, last.0, last.1);
    }
  }

  /** Going through the entries in order gives what listing all addresses first would give. */
  lemma NextEntry(c: Core, addresses: seq<Address>, slots: seq<(Address, Hash)>, e: AccessTuple)
    ensures
      var before := AddSlots(AddAddresses(c, addresses), slots);
      var keys := SlotsOf(e, |e.storageKeys|);
      AddSlots(AddAddress(before, e.address), keys) == AddSlots(AddAddresses(c, addresses + [e.address]), slots + keys)
  {
    hide AddAddress, AddSlot;
    var listed := AddAddresses(c, addresses);
    assert (addresses + [e.address])[..|addresses|] == addresses;
    AddressAndSlotsCommute(listed, e.address, slots);
    AddSlotsConcat(AddAddress(listed, e.address), slots, SlotsOf(e, |e.storageKeys|));
  }

  // ---- Account objects ----

  class Acct {
    var balance: uint256
    var nonce: uint64
    var code: Bytes
    var codeHash: Hash
    var suicided: bool
    var isNew: bool

    function Val(): Account
      reads this
    {
      Account(balance, nonce, code, codeHash, suicided, isNew)
    }

    constructor (v: Account)
      ensures Val() == v
    {
      balance, nonce, code, codeHash, suicided, isNew := v.balance, v.nonce, v.code, v.codeHash, v.suicided, v.isNew;
    }
  }

  /** The objects, all among objs, stand for the values. */
  ghost predicate Holds(m: map<Address, Acct>, vals: map<Address, Account>, objs: set<Acct>)
    reads objs
  {
    m.Keys == vals.Keys && forall a :: a in m ==> m[a] in objs && m[a].Val() == vals[a]
  }

  /** No two addresses share an object. */
  ghost predicate Distinct(m: map<Address, Acct>) {
    forall a, b :: a in m && b in m && a != b ==> m[a] != m[b]
  }

  datatype SnapshotEntry = SnapshotEntry(
    accounts: map<Address, Acct>, storage: Slots, changes: seq<Change>, logs: seq<Log>, refund: uint64,
    accessedAddresses: map<Address, bool>, accessedSlots: Flags, transient: Slots)

  ghost predicate Saved(s: SnapshotEntry, c: Core, objs: set<Acct>)
    reads objs
  {
    && Holds(s.accounts, c.accounts, objs)
    && s.storage == c.storage && s.changes == c.changes && s.logs == c.logs && s.refund == c.refund
    && s.accessedAddresses == c.accessedAddresses && s.accessedSlots == c.accessedSlots && s.transient == c.transient
  }

  ghost predicate AllSaved(ss: seq<SnapshotEntry>, cs: seq<Core>, objs: set<Acct>)
    reads objs
  {
    |ss| == |cs| && forall i :: 0 <= i < |ss| ==> Saved(ss[i], cs[i], objs)
  }

  ghost predicate AnswersFrom(w: World, store: StateStore.Store?)
    reads store
  {
    if store == null then NoStore(w) else Reflects(w, store.db)
  }

  /** Creating an account on demand does not change what it is seen to hold. */
  lemma CreatedAccount(c: Core, w: World, a: Address)
    ensures
      var v := GetOrCreate(c, w, a).accounts[a];
      v == (match AccountOf(c, w, a) case Some(u) => u case None => NewAccount(w)) && v.balance == BalanceOf(c, w, a)
  {}

  lemma HoldsKeys(m: map<Address, Acct>, vals: map<Address, Account>, objs: set<Acct>)
    requires Holds(m, vals, objs)
    ensures m.Keys == vals.Keys
    ensures forall a :: a in m ==> m[a] in objs && m[a].Val() == vals[a]
  {}

  lemma HoldsEach(m: map<Address, Acct>, vals: map<Address, Account>, objs: set<Acct>)
    requires m.Keys == vals.Keys
    requires forall a :: a in m ==> m[a] in objs && m[a].Val() == vals[a]
    ensures Holds(m, vals, objs)
  {}

  /** One more object for one more address. */
  lemma AddObject(m: map<Address, Acct>, vals: map<Address, Account>, objs: set<Acct>, a: Address, acct: Acct)
    requires Holds(m, vals, objs) && Distinct(m) && acct !in objs
    ensures Holds(m[a := acct], vals[a := acct.Val()], objs + {acct}) && Distinct(m[a := acct])
  {}

  /** Copies every account into an object of its own. */
  method CopyAccounts(m: map<Address, Acct>, ghost vals: map<Address, Account>, ghost objs: set<Acct>)
    returns (r: map<Address, Acct>, ghost copies: set<Acct>)
    requires Holds(m, vals, objs)
    ensures fresh(copies) && Holds(r, vals, copies) && Distinct(r)
  {
    r, copies := map[], {};
    var left := m.Keys;
    while left != {}
      invariant left <= m.Keys && r.Keys == m.Keys - left && fresh(copies)
      invariant Holds(m, vals, objs)
      invariant forall a :: a in r ==> r[a] in copies && r[a].Val() == vals[a]
      invariant Distinct(r)
    {
      var a :| a in left;
      var copy := new Acct(m[a].Val());
      r := r[a := copy];
      copies := copies + {copy};
      left := left - {a};
    }
  }

  lemma OneMoreSaved(ss: seq<SnapshotEntry>, cs: seq<Core>, objs: set<Acct>,
                     s: SnapshotEntry, c: Core, copies: set<Acct>)
    requires AllSaved(ss, cs, objs) && Saved(s, c, copies)
    ensures AllSaved(ss + [s], cs + [c], objs + copies)
  {
    forall i | 0 <= i < |ss| ensures Saved(ss[i], cs[i], objs + copies) {
      assert Saved(ss[i], cs[i], objs);
    }
  }

  lemma FewerSaved(ss: seq<SnapshotEntry>, cs: seq<Core>, objs: set<Acct>, n: nat)
    requires AllSaved(ss, cs, objs) && n <= |ss|
    ensures AllSaved(ss[..n], cs[..n], objs)
  {}

  lemma NothingBehindTask(t: Task, keccak: Bytes -> Hash)
    ensures AnswersFrom(TaskWorld(t, keccak), null) && AllSaved([], [], {})
    ensures TaskWorld(t, keccak).keccak == keccak
  {
    hide WithCodes, TaskParties, TaskSlots;
  }

  lemma WithStoreReflects(w: World, c: StateStore.Content)
    ensures Reflects(WithStore(w, c), c)
  {
    hide LoadedAccount, LoadedSlot, StateStore.SlotHalts;
    var v := WithStore(w, c);
    forall a: Address, k: Hash | StateStore.SlotHalts(c, a, k) ensures v.slot(a, k) == LoadedSlot(c, a, k) {}
  }

  lemma AnswersArePlain(w: World, store: StateStore.Store?)
    requires AnswersFrom(w, store)
    ensures StoredIsPlain(w)
  {
    if store != null {
      forall a | w.account(a).Some? ensures !w.account(a).value.isNew && !w.account(a).value.suicided {
        assert w.account(a) == LoadedAccount(store.db, a, w.keccak);
      }
    }
  }
}
