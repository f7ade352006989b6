/** What the first reads of an execution see: the records of the task, and behind them those of the local store. */
module StateDBReads {
  import opened Primitives
  import opened StateDBSpec
  import opened StateDBObjects
  import StateStore
  import TrieTree
  import Trie
  import AccountRecord = Account

  /** The hash ends in the bytes and begins with zeros; of too many bytes it keeps the last. */
  predicate Padded(b: Bytes, h: Hash) {
    if |b| > 32 then h == b[|b| - 32..]
    else h[32 - |b|..] == b && forall i :: 0 <= i < 32 - |b| ==> h[i] == 0
  }

  lemma HashIsPadded(b: Bytes)
    ensures Padded(b, BytesToHash(b))
  {}

  // ---- What the task brings ----

  predicate IsParty(t: Task, a: Address) {
    (t.sender.Some? && t.sender.value.address == a) || (t.receiver.Some? && t.receiver.value.address == a)
  }

  predicate HasCode(t: Task, a: Address) {
    exists i :: 0 <= i < |t.codes| && t.codes[i].0 == a
  }

  /** The task's record of a party; of two for the same address the receiver's counts. */
  predicate IsRecordOf(t: Task, who: TaskAccount) {
    t.receiver == Some(who)
    || (t.sender == Some(who) && (t.receiver.Some? ==> t.receiver.value.address != who.address))
  }

  predicate IsLastCode(codes: seq<(Address, Bytes)>, i: nat) {
    i < |codes| && forall j :: i < j < |codes| ==> codes[j].0 != codes[i].0
  }

  lemma {:induction false} CodesOnlySetCode(m: map<Address, Account>, codes: seq<(Address, Bytes)>,
                                           keccak: Bytes -> Hash, a: Address)
    ensures a in WithCodes(m, codes, keccak) <==> a in m || exists i :: 0 <= i < |codes| && codes[i].0 == a
    ensures a in WithCodes(m, codes, keccak) ==>
      var v := WithCodes(m, codes, keccak)[a];
      var u := if a in m then m[a] else Account(0, 0, v.code, v.codeHash, false, false);
      v == u.(code := v.code, codeHash := v.codeHash)
    ensures (forall i :: 0 <= i < |codes| ==> codes[i].0 != a) && a in m ==> WithCodes(m, codes, keccak)[a] == m[a]
    decreases |codes|
  {
    if codes != [] {
      var n := |codes| - 1;
      CodesOnlySetCode(m, codes[..n], keccak, a);
      assert forall i :: 0 <= i < n ==> codes[..n][i] == codes[i];
    }
  }

  lemma {:induction false} LastCodeCounts(m: map<Address, Account>, codes: seq<(Address, Bytes)>,
                                         keccak: Bytes -> Hash, i: nat)
    requires IsLastCode(codes, i)
    ensures codes[i].0 in WithCodes(m, codes, keccak)
    ensures
      var v := WithCodes(m, codes, keccak)[codes[i].0];
      v.code == codes[i].1 && v.codeHash == keccak(codes[i].1)
    decreases |codes|
  {
    var n := |codes| - 1;
    if i < n {
      assert codes[..n][i] == codes[i];
      LastCodeCounts(m, codes[..n], keccak, i);
    }
  }

  /** A party has the balance its decimal string denotes, none if that is negative, the nonce and the code hash of its
    * record, or the code that is listed last for it with the hash of that. */
  lemma PartyIsSeen(t: Task, keccak: Bytes -> Hash, who: TaskAccount, n: int)
    requires IsRecordOf(t, who) && who.balance == AccountRecord.ToDecimal(n)
    ensures
      var w := TaskWorld(t, keccak);
      var seen := AccountOf(Init(w).core, w, who.address);
      && seen.Some? && !seen.value.isNew && !seen.value.suicided
      && seen.value.balance == (if n < 0 then 0 else n % UINT256_LIMIT) && seen.value.nonce == who.nonce
      && (!HasCode(t, who.address) ==>
        && seen.value.code == []
        && (if t.receiver == Some(who) && who.codeHash != [] then Padded(who.codeHash, seen.value.codeHash)
            else seen.value.codeHash == keccak([])))
  {
    AccountRecord.DecimalRoundTrip(n);
    CodesOnlySetCode(TaskParties(t, keccak), t.codes, keccak, who.address);
    HashIsPadded(who.codeHash);
    hide AccountRecord.ParseDecimal, AccountRecord.ToDecimal, BytesToHash, Padded, WithCodes;
  }

  /** A balance that is no decimal number counts as none. */
  lemma UnreadableBalanceIsZero(t: Task, keccak: Bytes -> Hash, who: TaskAccount)
    requires IsRecordOf(t, who) && AccountRecord.ParseDecimal(who.balance).None?
    ensures BalanceOf(Init(TaskWorld(t, keccak)).core, TaskWorld(t, keccak), who.address) == 0
  {
    CodesOnlySetCode(TaskParties(t, keccak), t.codes, keccak, who.address);
    hide AccountRecord.ParseDecimal, BytesToHash, WithCodes;
  }

  /** Code is seen where it is listed last; who is listed for code only has nothing else. */
  lemma CodeIsSeen(t: Task, keccak: Bytes -> Hash, i: nat)
    requires IsLastCode(t.codes, i)
    ensures
      var w := TaskWorld(t, keccak);
      var (a, code) := t.codes[i];
      var seen := AccountOf(Init(w).core, w, a);
      && seen.Some? && seen.value.code == code && seen.value.codeHash == keccak(code)
      && (!IsParty(t, a) ==> seen.value == Account(0, 0, code, keccak(code), false, false))
  {
    LastCodeCounts(TaskParties(t, keccak), t.codes, keccak, i);
    CodesOnlySetCode(TaskParties(t, keccak), t.codes, keccak, t.codes[i].0);
    hide WithCodes, TaskBalance;
  }

  /** Nobody else is seen without a store. */
  lemma OthersAreAbsent(t: Task, keccak: Bytes -> Hash, a: Address)
    ensures a in TaskWorld(t, keccak).accounts <==> IsParty(t, a) || HasCode(t, a)
  {
    CodesOnlySetCode(TaskParties(t, keccak), t.codes, keccak, a);
    hide WithCodes, TaskBalance;
  }

  /** The last list that has the slot of the account. */
  predicate IsLastListing(slots: seq<(Address, map<Hash, Hash>)>, i: nat, a: Address, k: Hash) {
    && i < |slots| && slots[i].0 == a && k in slots[i].1
    && forall j :: i < j < |slots| && slots[j].0 == a ==> k !in slots[j].1
  }

  predicate BringsSlot(slots: seq<(Address, map<Hash, Hash>)>, a: Address, k: Hash) {
    exists i :: 0 <= i < |slots| && slots[i].0 == a && k in slots[i].1
  }

  lemma {:induction false} ListedSlotsAre(slots: seq<(Address, map<Hash, Hash>)>, a: Address, k: Hash)
    ensures a in TaskSlots(slots) && k in TaskSlots(slots)[a] <==> BringsSlot(slots, a, k)
    decreases |slots|
  {
    if slots != [] {
      var n := |slots| - 1;
      ListedSlotsAre(slots[..n], a, k);
      assert forall i :: 0 <= i < n ==> slots[..n][i] == slots[i];
      assert BringsSlot(slots, a, k) <==> BringsSlot(slots[..n], a, k) || (slots[n].0 == a && k in slots[n].1);
    }
  }

  lemma {:induction false} LastListingCounts(slots: seq<(Address, map<Hash, Hash>)>, i: nat, a: Address, k: Hash)
    requires IsLastListing(slots, i, a, k)
    ensures a in TaskSlots(slots) && k in TaskSlots(slots)[a] && TaskSlots(slots)[a][k] == slots[i].1[k]
    decreases |slots|
  {
    var n := |slots| - 1;
    if i < n {
      assert forall j :: 0 <= j < n ==> slots[..n][j] == slots[j];
      LastListingCounts(slots[..n], i, a, k);
    }
  }

  /** A slot the task brings reads as the value listed for it, currently and as committed. */
  lemma BroughtSlotIsSeen(t: Task, keccak: Bytes -> Hash, i: nat, a: Address, k: Hash)
    requires IsLastListing(t.slots, i, a, k)
    ensures
      var w := TaskWorld(t, keccak);
      SlotOf(Init(w).core, w, a, k) == t.slots[i].1[k] == CommittedValue(Init(w), a, k)
  {
    LastListingCounts(t.slots, i, a, k);
    hide TaskSlots, TaskParties, WithCodes;
  }

  // ---- What the store answers ----

  /** The bytes under a key of a namespace. */
  function Stored(c: StateStore.Content, ns: Bytes, key: Bytes): Option<Bytes> {
    if ns in c && key in c[ns] then Some(c[ns][key]) else None
  }

  /** The start of an execution over a store. */
  ghost function Start(t: Task, keccak: Bytes -> Hash, c: StateStore.Content): DB {
    Init(WithStore(TaskWorld(t, keccak), c))
  }

  predicate Writable(rec: AccountRecord.IoTXAccount) {
    && |AccountRecord.ToDecimal(rec.balance)| < UINT64_LIMIT
    && |rec.root| < UINT64_LIMIT && |rec.codeHash| < UINT64_LIMIT
  }

  lemma RecordIsRead(c: StateStore.Content, a: Address, rec: AccountRecord.IoTXAccount)
    requires Writable(rec) && Stored(c, StateStore.NS_ACCOUNT, a) == Some(AccountRecord.EncodeAccount(rec))
    ensures StateStore.AccountAt(c, a) == Ok(Some(rec))
  {
    hide AccountRecord.DecodeAccount, AccountRecord.EncodeAccount, AccountRecord.ToDecimal;
    AccountRecord.AccountRoundTrip(rec);
  }

  /** An account the task does not bring is seen as its record in the store says: the balance modulo 2^256, the nonce,
    * the padded code hash, and the code that is stored under that hash, none if there is no such code. */
  lemma StoredAccountIsSeen(t: Task, keccak: Bytes -> Hash, c: StateStore.Content, a: Address,
                            rec: AccountRecord.IoTXAccount)
    requires Writable(rec) && Stored(c, StateStore.NS_ACCOUNT, a) == Some(AccountRecord.EncodeAccount(rec))
    requires !IsParty(t, a) && !HasCode(t, a)
    ensures
      var d := Start(t, keccak, c);
      var seen := AccountOf(d.core, d.world, a);
      && seen.Some? && !seen.value.isNew && !seen.value.suicided
      && seen.value.balance == rec.balance % UINT256_LIMIT && seen.value.nonce == rec.nonce
      && (rec.codeHash == [] ==> seen.value.code == [] && seen.value.codeHash == keccak([]))
      && (rec.codeHash != [] ==>
        && Padded(rec.codeHash, seen.value.codeHash)
        && seen.value.code == match Stored(c, StateStore.NS_CODE, rec.codeHash) case Some(b) => b case None => [])
  {
    RecordIsRead(c, a, rec);
    OthersAreAbsent(t, keccak, a);
    HashIsPadded(rec.codeHash);
    hide AccountRecord.DecodeAccount, AccountRecord.EncodeAccount, StateStore.AccountAt, BytesToHash, Padded,
         TaskParties, WithCodes, TaskSlots, LoadedSlot, StateStore.SlotHalts, Writable;
  }

  /** It is absent if and only if the store has no record of it, or one that cannot be decoded. */
  lemma AbsentIff(t: Task, keccak: Bytes -> Hash, c: StateStore.Content, a: Address)
    requires !IsParty(t, a) && !HasCode(t, a)
    ensures
      var d := Start(t, keccak, c);
      AccountOf(d.core, d.world, a).None? <==>
        match Stored(c, StateStore.NS_ACCOUNT, a)
        case Some(data) => AccountRecord.DecodeAccount(data).Err?
        case None => true
  {
    OthersAreAbsent(t, keccak, a);
    hide AccountRecord.DecodeAccount, BytesToHash, TaskParties, WithCodes, TaskSlots, LoadedSlot, StateStore.SlotHalts;
  }

  /** What the task brings hides what the store has. */
  lemma TaskHidesStore(t: Task, keccak: Bytes -> Hash, c: StateStore.Content, a: Address, k: Hash)
    ensures
      var w := TaskWorld(t, keccak);
      var d := Start(t, keccak, c);
      && (IsParty(t, a) || HasCode(t, a) ==> AccountOf(d.core, d.world, a) == AccountOf(Init(w).core, w, a))
      && (BringsSlot(t.slots, a, k) ==>
        && SlotOf(d.core, d.world, a, k) == SlotOf(Init(w).core, w, a, k)
        && CommittedValue(d, a, k) == CommittedValue(Init(w), a, k))
  {
    OthersAreAbsent(t, keccak, a);
    ListedSlotsAre(t.slots, a, k);
    hide LoadedAccount, LoadedSlot, StateStore.SlotHalts, TaskSlots, TaskParties, WithCodes, BringsSlot, IsParty,
         HasCode;
  }

  /** A slot the task does not bring, of an account whose record names a storage trie that is laid out in the store,
    * reads as the padded entry of the map the trie stands for, or as zero: through record and node bytes alike. */
  lemma StoredSlotIsSeen(t: Task, keccak: Bytes -> Hash, c: StateStore.Content, a: Address, k: Hash,
                         rec: AccountRecord.IoTXAccount, tree: TrieTree.Tree, hash: Bytes -> Bytes)
    requires Writable(rec) && Stored(c, StateStore.NS_ACCOUNT, a) == Some(AccountRecord.EncodeAccount(rec))
    requires rec.root == TrieTree.Root(tree, hash) && !Trie.NoTrie(rec.root)
    requires StateStore.NS_CONTRACT in c && TrieTree.Stored(c[StateStore.NS_CONTRACT], tree, hash)
    requires TrieTree.WellFormed(tree, []) && !BringsSlot(t.slots, a, k)
    ensures
      var d := Start(t, keccak, c);
      var v := SlotOf(d.core, d.world, a, k);
      && v == CommittedValue(d, a, k)
      && (if k in TrieTree.Entries(tree) then Padded(TrieTree.Entries(tree)[k], v)
          else forall i :: 0 <= i < 32 ==> v[i] == 0)
  {
    hide AccountRecord.DecodeAccount, AccountRecord.EncodeAccount, StateStore.AccountAt, StateStore.SlotAt,
         StateStore.SlotHalts, TrieTree.Root, TrieTree.Stored, TrieTree.Entries, TrieTree.WellFormed, TaskSlots,
         TaskParties, WithCodes, LoadedAccount, BringsSlot, Writable, Trie.NoTrie;
    RecordIsRead(c, a, rec);
    ListedSlotsAre(t.slots, a, k);
    StateStore.SlotIsMapEntry(c, a, rec, tree, hash, k);
    if k in TrieTree.Entries(tree) {
      HashIsPadded(TrieTree.Entries(tree)[k]);
    }
    hide BytesToHash, Padded;
  }

  /** A slot of an account without a record, or without a storage trie, reads as zero. */
  lemma SlotWithoutTrieIsZero(t: Task, keccak: Bytes -> Hash, c: StateStore.Content, a: Address, k: Hash)
    requires !BringsSlot(t.slots, a, k)
    requires
      match Stored(c, StateStore.NS_ACCOUNT, a)
      case None => true
      case Some(data) => AccountRecord.DecodeAccount(data).Err? || AccountRecord.DecodeAccount(data).value.root == []
    ensures
      var d := Start(t, keccak, c);
      SlotOf(d.core, d.world, a, k) == ZERO_HASH == CommittedValue(d, a, k)
  {
    ListedSlotsAre(t.slots, a, k);
    hide AccountRecord.DecodeAccount, BytesToHash, TaskParties, WithCodes, TaskSlots, LoadedAccount, BringsSlot,
         Trie.Lookup, Trie.Halts;
  }

  /** An account that was absent is created empty and new. */
  lemma CreatedIsEmpty(d: DB, a: Address)
    requires AccountOf(d.core, d.world, a).None?
    ensures
      var c := Step(d, OpCreateAccount(a)).core;
      AccountOf(c, d.world, a) == Some(Account(0, 0, [], d.world.keccak([]), false, true))
  {}
}
