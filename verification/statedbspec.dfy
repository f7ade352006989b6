/** The transactional EVM state as values: what every operation does to it. */
module StateDBSpec {
  import opened Primitives

  // ---- Nested maps ----

  type Slots = map<Address, map<Hash, Hash>>
  type Flags = map<Address, map<Hash, bool>>

  function Lookup<V>(m: map<Address, map<Hash, V>>, a: Address, k: Hash): Option<V> {
    if a in m && k in m[a] then Some(m[a][k]) else None
  }

  function Put<V>(m: map<Address, map<Hash, V>>, a: Address, k: Hash, v: V): (r: map<Address, map<Hash, V>>)
    ensures forall b, j :: Lookup(r, b, j) == if b == a && j == k then Some(v) else Lookup(m, b, j)
  {
    m[a := (if a in m then m[a] else map[])[k := v]]
  }

  function OrZero(v: Option<Hash>): Hash {
    match v case Some(h) => h case None => ZERO_HASH
  }

  // ---- State ----

  datatype Account = Account(balance: uint256, nonce: uint64, code: Bytes, codeHash: Hash, suicided: bool, isNew: bool)

  datatype Change = Change(address: Address, slot: Hash, oldValue: Hash, newValue: Hash)

  datatype Log = Log(address: Address, topics: seq<Hash>, data: Bytes, index: nat)

  /** Everything a snapshot saves. */
  datatype Core = Core(
    accounts: map<Address, Account>,
    storage: Slots,
    changes: seq<Change>,
    logs: seq<Log>,
    refund: uint64,
    accessedAddresses: map<Address, bool>,
    accessedSlots: Flags,
    transient: Slots)

  /** What stays fixed during one execution: the accounts and slots the task brought, what the local
    * store answers (nothing at all in coordinator-only mode), and the code hash. */
  datatype World = World(
    accounts: map<Address, Account>,
    slots: Slots,
    account: Address -> Option<Account>,
    slot: (Address, Hash) -> Option<Hash>,
    keccak: Bytes -> Hash)

  datatype DB = DB(core: Core, committed: Slots, snapshots: seq<Core>, logIndex: nat, world: World)

  function Init(w: World): DB {
    DB(Core(w.accounts, w.slots, [], [], 0, map[], map[], map[]), w.slots, [], 0, w)
  }

  // ---- Accounts ----

  /** A read of an account that is not cached caches what the store has. */
  function LoadAccount(c: Core, w: World, a: Address): Core {
    if a in c.accounts then c
    else match w.account(a) case Some(v) => c.(accounts := c.accounts[a := v]) case None => c
  }

  function NewAccount(w: World): Account {
    Account(0, 0, [], w.keccak([]), false, true)
  }

  function GetOrCreate(c: Core, w: World, a: Address): (r: Core)
    ensures a in r.accounts
  {
    var loaded := LoadAccount(c, w, a);
    if a in loaded.accounts then loaded else loaded.(accounts := loaded.accounts[a := NewAccount(w)])
  }

  function Update(c: Core, a: Address, v: Account): Core {
    c.(accounts := c.accounts[a := v])
  }

  function SubBalance(c: Core, w: World, a: Address, amount: uint256): Core {
    var d := GetOrCreate(c, w, a);
    var v := d.accounts[a];
    Update(d, a, v.(balance := if v.balance < amount then 0 else v.balance - amount))
  }

  function AddBalance(c: Core, w: World, a: Address, amount: uint256): Core {
    var d := GetOrCreate(c, w, a);
    var v := d.accounts[a];
    Update(d, a, v.(balance := (v.balance + amount) % UINT256_LIMIT))
  }

  function SelfDestruct(c: Core, a: Address): Core {
    if a in c.accounts then Update(c, a, c.accounts[a].(suicided := true, balance := 0)) else c
  }

  function SelfDestruct6780(c: Core, a: Address): Core {
    if a !in c.accounts then c
    else if c.accounts[a].isNew then SelfDestruct(c, a)
    else Update(c, a, c.accounts[a].(balance := 0))
  }

  // ---- Storage ----

  /** A slot the store has is cached as current and as committed. */
  function LoadSlot(d: DB, a: Address, k: Hash): DB {
    match d.world.slot(a, k)
    case Some(v) =>
      d.(core := d.core.(storage := Put(d.core.storage, a, k, v)), committed := Put(d.committed, a, k, v))
    case None => d
  }

  function ReadState(d: DB, a: Address, k: Hash): DB {
    if Lookup(d.core.storage, a, k).Some? then d else LoadSlot(d, a, k)
  }

  function ReadCommitted(d: DB, a: Address, k: Hash): DB {
    if Lookup(d.committed, a, k).Some? then d else LoadSlot(d, a, k)
  }

  /** The values the two reads return. */
  function SlotOf(c: Core, w: World, a: Address, k: Hash): Hash {
    match Lookup(c.storage, a, k) case Some(v) => v case None => OrZero(w.slot(a, k))
  }

  function CommittedValue(d: DB, a: Address, k: Hash): Hash {
    match Lookup(d.committed, a, k) case Some(v) => v case None => OrZero(d.world.slot(a, k))
  }

  function SetState(c: Core, a: Address, k: Hash, v: Hash): Core {
    var previous := OrZero(Lookup(c.storage, a, k));
    c.(storage := Put(c.storage, a, k, v), changes := c.changes + [Change(a, k, previous, v)])
  }

  // ---- The rest ----

  function AddAddress(c: Core, a: Address): Core {
    c.(accessedAddresses := c.accessedAddresses[a := true])
  }

  function AddSlot(c: Core, a: Address, k: Hash): Core {
    c.(accessedAddresses := c.accessedAddresses[a := true], accessedSlots := Put(c.accessedSlots, a, k, true))
  }

  datatype AccessTuple = AccessTuple(address: Address, storageKeys: seq<Hash>)

  function Listed(es: seq<AccessTuple>): seq<Address> {
    if es == [] then [] else Listed(es[..|es| - 1]) + [es[|es| - 1].address]
  }

  function ListedSlots(es: seq<AccessTuple>): seq<(Address, Hash)> {
    if es == [] then [] else ListedSlots(es[..|es| - 1]) + SlotsOf(es[|es| - 1], |es[|es| - 1].storageKeys|)
  }

  /** The first n slots of an entry. */
  function SlotsOf(e: AccessTuple, n: nat): seq<(Address, Hash)>
    requires n <= |e.storageKeys|
  {
    if n == 0 then [] else SlotsOf(e, n - 1) + [(e.address, e.storageKeys[n - 1])]
  }

  function Optional(a: Option<Address>): seq<Address> {
    match a case Some(v) => [v] case None => []
  }

  function Parties(sender: Address, coinbase: Address, dest: Option<Address>, precompiles: seq<Address>): seq<Address> {
    [sender, coinbase] + Optional(dest) + precompiles
  }

  function AddAddresses(c: Core, addresses: seq<Address>): Core {
    if addresses == [] then c
    else AddAddress(AddAddresses(c, addresses[..|addresses| - 1]), addresses[|addresses| - 1])
  }

  function AddSlots(c: Core, slots: seq<(Address, Hash)>): Core {
    if slots == [] then c
    else AddSlot(AddSlots(c, slots[..|slots| - 1]), slots[|slots| - 1].0, slots[|slots| - 1].1)
  }

  /** Starts a transaction's access list afresh. */
  function Prepare(c: Core, addresses: seq<Address>, slots: seq<(Address, Hash)>): Core {
    AddSlots(AddAddresses(c.(accessedAddresses := map[], accessedSlots := map[]), addresses), slots)
  }

  /** A log gets the next index, which no revert takes back. */
  function AddLog(d: DB, address: Address, topics: seq<Hash>, data: Bytes): DB {
    d.(core := d.core.(logs := d.core.logs + [Log(address, topics, data, d.logIndex)]), logIndex := d.logIndex + 1)
  }

  // ---- Snapshots ----

  function TakeSnapshot(d: DB): DB {
    d.(snapshots := d.snapshots + [d.core])
  }

  function Revert(d: DB, id: int): DB {
    if 0 <= id < |d.snapshots| then d.(core := d.snapshots[id], snapshots := d.snapshots[..id]) else d
  }

  // ---- Value transfer ----

  function CanTransfer(d: DB, a: Address, amount: uint256): bool {
    BalanceOf(d.core, d.world, a) >= amount
  }

  function BalanceOf(c: Core, w: World, a: Address): uint256 {
    match AccountOf(c, w, a) case Some(v) => v.balance case None => 0
  }

  /** What every account getter sees. */
  function AccountOf(c: Core, w: World, a: Address): Option<Account> {
    if a in c.accounts then Some(c.accounts[a]) else w.account(a)
  }

  /** Left-padded or cropped to its last 32 bytes. */
  function BytesToHash(b: Bytes): Hash {
    if |b| > 32 then b[|b| - 32..] else ZERO_HASH[|b|..] + b
  }

  /** Big-endian without leading zeros. */
  function AmountBytes(n: nat): Bytes {
    if n == 0 then [] else AmountBytes(n / 256) + [(n % 256) as byte]
  }

  function TransferTopics(sender: Address, recipient: Address): seq<Hash> {
    [ZERO_HASH, BytesToHash(sender), BytesToHash(recipient)]
  }

  function Transfer(d: DB, sender: Address, recipient: Address, amount: uint256): DB {
    var moved := d.(core := AddBalance(SubBalance(d.core, d.world, sender, amount), d.world, recipient, amount));
    AddLog(moved, ZERO_ADDRESS, TransferTopics(sender, recipient), AmountBytes(amount))
  }

  // ---- Runs ----

  datatype Op =
    | OpTouch(a: Address)                              // any account getter
    | OpGetState(a: Address, k: Hash)
    | OpGetCommitted(a: Address, k: Hash)
    | OpCreateAccount(a: Address)
    | OpCreateContract(a: Address)
    | OpSubBalance(a: Address, amount: uint256)
    | OpAddBalance(a: Address, amount: uint256)
    | OpSetNonce(a: Address, nonce: uint64)
    | OpSetCode(a: Address, code: Bytes)
    | OpSelfDestruct(a: Address)
    | OpSelfDestruct6780(a: Address)
    | OpSetState(a: Address, k: Hash, v: Hash)
    | OpSetTransient(a: Address, k: Hash, v: Hash)
    | OpAddRefund(gas: uint64)
    | OpSubRefund(gas: uint64)
    | OpAddAddress(a: Address)
    | OpAddSlot(a: Address, k: Hash)
    | OpPrepare(sender: Address, coinbase: Address, dest: Option<Address>, precompiles: seq<Address>,
                list: seq<AccessTuple>)
    | OpAddLog(address: Address, topics: seq<Hash>, data: Bytes)
    | OpTransfer(sender: Address, recipient: Address, amount: uint256)
    | OpSnapshot
    | OpRevert(id: int)

  function WithCore(d: DB, c: Core): DB {
    d.(core := c)
  }

  function Step(d: DB, op: Op): DB {
    var c, w := d.core, d.world;
    match op
    case OpTouch(a) => WithCore(d, LoadAccount(c, w, a))
    case OpGetState(a, k) => ReadState(d, a, k)
    case OpGetCommitted(a, k) => ReadCommitted(d, a, k)
    case OpCreateAccount(a) => WithCore(d, GetOrCreate(c, w, a))
    case OpCreateContract(a) =>
      var e := GetOrCreate(c, w, a);
      WithCore(d, Update(e, a, e.accounts[a].(isNew := true)))
    case OpSubBalance(a, amount) => WithCore(d, SubBalance(c, w, a, amount))
    case OpAddBalance(a, amount) => WithCore(d, AddBalance(c, w, a, amount))
    case OpSetNonce(a, nonce) =>
      var e := GetOrCreate(c, w, a);
      WithCore(d, Update(e, a, e.accounts[a].(nonce := nonce)))
    case OpSetCode(a, code) =>
      var e := GetOrCreate(c, w, a);
      WithCore(d, Update(e, a, e.accounts[a].(code := code, codeHash := w.keccak(code))))
    case OpSelfDestruct(a) => WithCore(d, SelfDestruct(c, a))
    case OpSelfDestruct6780(a) => WithCore(d, SelfDestruct6780(c, a))
    case OpSetState(a, k, v) => WithCore(d, SetState(c, a, k, v))
    case OpSetTransient(a, k, v) => WithCore(d, c.(transient := Put(c.transient, a, k, v)))
    case OpAddRefund(gas) => WithCore(d, c.(refund := (c.refund + gas) % UINT64_LIMIT))
    case OpSubRefund(gas) => if gas > c.refund then d else WithCore(d, c.(refund := c.refund - gas))
    case OpAddAddress(a) => WithCore(d, AddAddress(c, a))
    case OpAddSlot(a, k) => WithCore(d, AddSlot(c, a, k))
    case OpPrepare(sender, coinbase, dest, precompiles, list) =>
      WithCore(d, Prepare(c, Parties(sender, coinbase, dest, precompiles) + Listed(list), ListedSlots(list)))
    case OpAddLog(address, topics, data) => AddLog(d, address, topics, data)
    case OpTransfer(sender, recipient, amount) => Transfer(d, sender, recipient, amount)
    case OpSnapshot => TakeSnapshot(d)
    case OpRevert(id) => Revert(d, id)
  }

  function Run(d: DB, ops: seq<Op>): DB
    decreases |ops|
  {
    if ops == [] then d else Run(Step(d, ops[0]), ops[1..])
  }
}
