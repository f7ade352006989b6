/** Logs, refund counter, transient storage and access lists, read off a journal of the operations that no revert has
  * taken back. The journal knows operations and snapshot ids only. */
module StateDBJournal {
  import opened Primitives
  import opened StateDBSpec
  import opened StateDBRuns
  import opened StateDBOverlay
  import opened Interpreter
  import BigEndian

  // ---- The journal ----

  /** An operation that counts, and how many logs had ever been made before it. */
  datatype Kept = Kept(op: Op, index: nat)

  /** What counts, how much of it counted when each open snapshot was taken, and how many logs have been made. */
  datatype Journal = Journal(kept: seq<Kept>, marks: seq<nat>, logged: nat)

  ghost predicate InOrder(j: Journal) {
    && (forall i :: 0 <= i < |j.marks| ==> j.marks[i] <= |j.kept|)
    && forall i, k :: 0 <= i <= k < |j.marks| ==> j.marks[i] <= j.marks[k]
  }

  predicate MakesLog(op: Op) {
    op.OpAddLog? || op.OpTransfer?
  }

  /** A snapshot marks the place, a revert to it takes back everything since; the count of logs only grows. */
  function Note(j: Journal, op: Op): (r: Journal)
    requires InOrder(j)
    ensures InOrder(r)
  {
    match op
    case OpSnapshot => j.(marks := j.marks + [|j.kept|])
    case OpRevert(id) =>
      if 0 <= id < |j.marks| then j.(kept := j.kept[..j.marks[id]], marks := j.marks[..id]) else j
    case _ => Journal(j.kept + [Kept(op, j.logged)], j.marks, j.logged + if MakesLog(op) then 1 else 0)
  }

  function After(ops: seq<Op>): (r: Journal)
    ensures InOrder(r)
  {
    if ops == [] then Journal([], [], 0) else Note(After(ops[..|ops| - 1]), ops[|ops| - 1])
  }

  // ---- What the kept operations say ----

  function LogsIn(ks: seq<Kept>): seq<Kept> {
    if ks == [] then []
    else
      var before, last := LogsIn(ks[..|ks| - 1]), ks[|ks| - 1];
      if MakesLog(last.op) then before + [last] else before
  }

  const TWELVE_ZEROS: Bytes := [0, 0, 0, 0, 0, 0, 0, 0, 0, 0, 0, 0]

  /** The log of a transfer is nobody's; it says that value moved, from whom, to whom, and how much. */
  predicate IsLogOf(l: Log, e: Kept) {
    match e.op
    case OpAddLog(address, topics, data) => l == Log(address, topics, data, e.index)
    case OpTransfer(sender, recipient, amount) =>
      && l.address == ZERO_ADDRESS && l.topics == [ZERO_HASH, TWELVE_ZEROS + sender, TWELVE_ZEROS + recipient]
      && BigEndian.Decode(l.data) == amount && (l.data != [] ==> l.data[0] != 0) && l.index == e.index
    case _ => false
  }

  ghost predicate LogsAre(logs: seq<Log>, ks: seq<Kept>) {
    |logs| == |LogsIn(ks)| && forall i :: 0 <= i < |logs| ==> IsLogOf(logs[i], LogsIn(ks)[i])
  }

  /** What was added less what was taken; taking more than there is takes nothing. */
  function Refund(ks: seq<Kept>): uint64 {
    if ks == [] then 0
    else
      var before := Refund(ks[..|ks| - 1]);
      match ks[|ks| - 1].op
      case OpAddRefund(gas) => (before + gas) % UINT64_LIMIT
      case OpSubRefund(gas) => if gas <= before then before - gas else before
      case _ => before
  }

  /** The last value written. */
  function Transient(ks: seq<Kept>, a: Address, k: Hash): Hash {
    if ks == [] then ZERO_HASH
    else if ks[|ks| - 1].op.OpSetTransient? && ks[|ks| - 1].op.a == a && ks[|ks| - 1].op.k == k then ks[|ks| - 1].op.v
    else Transient(ks[..|ks| - 1], a, k)
  }

  predicate Names(op: Op, a: Address)
    requires op.OpPrepare?
  {
    || a == op.sender || a == op.coinbase || op.dest == Some(a) || a in op.precompiles || NamesAddress(op.list, a)
  }

  predicate NamesAddress(list: seq<AccessTuple>, a: Address) {
    exists i :: 0 <= i < |list| && list[i].address == a
  }

  predicate NamesSlot(list: seq<AccessTuple>, a: Address, k: Hash) {
    exists i :: 0 <= i < |list| && list[i].address == a && k in list[i].storageKeys
  }

  /** Listed since the transaction was prepared, or by its preparation. */
  predicate Warm(ks: seq<Kept>, a: Address) {
    ks != [] &&
      match ks[|ks| - 1].op
      case OpPrepare(_, _, _, _, _) => Names(ks[|ks| - 1].op, a)
      case OpAddAddress(b) => a == b || Warm(ks[..|ks| - 1], a)
      case OpAddSlot(b, _) => a == b || Warm(ks[..|ks| - 1], a)
      case _ => Warm(ks[..|ks| - 1], a)
  }

  predicate WarmSlot(ks: seq<Kept>, a: Address, k: Hash) {
    ks != [] &&
      match ks[|ks| - 1].op
      case OpPrepare(_, _, _, _, list) => NamesSlot(list, a, k)
      case OpAddSlot(b, i) => (a == b && k == i) || WarmSlot(ks[..|ks| - 1], a, k)
      case _ => WarmSlot(ks[..|ks| - 1], a, k)
  }

  // ---- What the state says ----

  predicate InList(m: map<Address, bool>, a: Address) {
    a in m && m[a]
  }

  predicate InSlots(m: Flags, a: Address, k: Hash) {
    Lookup(m, a, k) == Some(true)
  }

  ghost predicate ListsAre(addresses: map<Address, bool>, slots: Flags, ks: seq<Kept>) {
    (forall a :: InList(addresses, a) <==> Warm(ks, a)) && forall a, k :: InSlots(slots, a, k) <==> WarmSlot(ks, a, k)
  }

  ghost predicate TransientIs(m: Slots, ks: seq<Kept>) {
    forall a, k :: OrZero(Lookup(m, a, k)) == Transient(ks, a, k)
  }

  ghost predicate Tells(c: Core, ks: seq<Kept>) {
    && LogsAre(c.logs, ks) && c.refund == Refund(ks)
    && TransientIs(c.transient, ks) && ListsAre(c.accessedAddresses, c.accessedSlots, ks)
  }

  /** The journal tells the present and every saved state. */
  ghost predicate Follows(d: DB, j: Journal) {
    && InOrder(j) && d.logIndex == j.logged && Tells(d.core, j.kept)
    && |d.snapshots| == |j.marks| && forall i :: 0 <= i < |j.marks| ==> Tells(d.snapshots[i], j.kept[..j.marks[i]])
  }

  // ---- Operations that touch none of it ----

  ghost predicate SameSide(c: Core, e: Core) {
    && e.logs == c.logs && e.refund == c.refund && e.transient == c.transient
    && e.accessedAddresses == c.accessedAddresses && e.accessedSlots == c.accessedSlots
  }

  predicate Plain(op: Op) {
    !SideOp(op) && !op.OpTransfer? && !op.OpSnapshot? && !op.OpRevert?
  }

  lemma AccountStepsSpare(d: DB, op: Op)
    requires AccountOp(op)
    ensures SameSide(d.core, Step(d, op).core) && Step(d, op).logIndex == d.logIndex
  {
    hide GetOrCreate, SubBalance, AddBalance;
    match op
    case OpSubBalance(a, amount) => BalancesOnly(d.core, d.world, a, amount);
    case OpAddBalance(a, amount) => BalancesOnly(d.core, d.world, a, amount);
    case OpCreateContract(a) => AccountsOnly(d.core, d.world, a);
    case OpSetNonce(a, _) => AccountsOnly(d.core, d.world, a);
    case OpSetCode(a, _) => AccountsOnly(d.core, d.world, a);
  }

  lemma PlainSpares(d: DB, op: Op)
    requires Plain(op)
    ensures SameSide(d.core, Step(d, op).core) && Step(d, op).logIndex == d.logIndex
  {
    if AccountOp(op) {
      hide Step, SameSide;
      AccountStepsSpare(d, op);
    } else {
      hide LoadAccount, GetOrCreate, SelfDestruct, SelfDestruct6780, Put;
      match op
      case OpTouch(a) => AccountsOnly(d.core, d.world, a);
      case OpCreateAccount(a) => AccountsOnly(d.core, d.world, a);
      case OpSelfDestruct(a) => AccountsOnly(d.core, d.world, a);
      case OpSelfDestruct6780(a) => AccountsOnly(d.core, d.world, a);
      case OpGetState(_, _) =>
      case OpGetCommitted(_, _) =>
      case OpSetState(_, _, _) =>
    }
  }

  /** The journal of one more kept operation says nothing new. */
  lemma PlainTells(c: Core, e: Core, ks: seq<Kept>, more: Kept)
    requires Tells(c, ks) && SameSide(c, e) && Plain(more.op)
    ensures Tells(e, ks + [more])
  {
    Shorter(ks, more);
    SameLogs(c.logs, ks, more);
    SameTransient(c.transient, ks, more);
    SameLists(c.accessedAddresses, c.accessedSlots, ks, more);
    hide LogsAre, TransientIs, ListsAre;
  }

  lemma Shorter(ks: seq<Kept>, more: Kept)
    ensures (ks + [more])[..|ks|] == ks
  {}

  lemma SameLogs(logs: seq<Log>, ks: seq<Kept>, more: Kept)
    requires LogsAre(logs, ks) && !MakesLog(more.op)
    ensures LogsAre(logs, ks + [more])
  {
    Shorter(ks, more);
  }

  lemma SameTransient(m: Slots, ks: seq<Kept>, more: Kept)
    requires TransientIs(m, ks) && !more.op.OpSetTransient?
    ensures TransientIs(m, ks + [more])
  {
    Shorter(ks, more);
    hide Lookup;
    forall a, k ensures OrZero(Lookup(m, a, k)) == Transient(ks + [more], a, k) {}
  }

  lemma SameLists(addresses: map<Address, bool>, slots: Flags, ks: seq<Kept>, more: Kept)
    requires ListsAre(addresses, slots, ks)
    requires !more.op.OpPrepare? && !more.op.OpAddAddress? && !more.op.OpAddSlot?
    ensures ListsAre(addresses, slots, ks + [more])
  {
    Shorter(ks, more);
    hide InList, InSlots;
    forall a ensures InList(addresses, a) <==> Warm(ks + [more], a) {}
    forall a, k ensures InSlots(slots, a, k) <==> WarmSlot(ks + [more], a, k) {}
  }

  // ---- Logs ----

  lemma OneMoreLog(logs: seq<Log>, ks: seq<Kept>, l: Log, more: Kept)
    requires LogsAre(logs, ks) && MakesLog(more.op) && IsLogOf(l, more)
    ensures LogsAre(logs + [l], ks + [more])
  {
    Shorter(ks, more);
    hide IsLogOf;
    assert LogsIn(ks + [more]) == LogsIn(ks) + [more];
  }

  lemma AmountIsPlain(n: nat)
    ensures BigEndian.Decode(AmountBytes(n)) == n && (AmountBytes(n) != [] ==> AmountBytes(n)[0] != 0)
  {
    if n > 0 {
      AmountIsPlain(n / 256);
      var b := AmountBytes(n);
      assert b[..|b| - 1] == AmountBytes(n / 256);
      if n < 256 {
        assert AmountBytes(n / 256) == [];
      }
    }
  }

  lemma AddressIsPadded(a: Address)
    ensures BytesToHash(a) == TWELVE_ZEROS + a
  {}

  lemma TransferTells(d: DB, ks: seq<Kept>, sender: Address, recipient: Address, amount: uint256)
    requires Tells(d.core, ks)
    ensures
      var op := OpTransfer(sender, recipient, amount);
      Tells(Step(d, op).core, ks + [Kept(op, d.logIndex)]) && Step(d, op).logIndex == d.logIndex + 1
  {
    hide SubBalance, AddBalance, TransientIs, ListsAre, LogsAre, BytesToHash, AmountBytes, BigEndian.Decode;
    var op := OpTransfer(sender, recipient, amount);
    var c, w := d.core, d.world;
    var e := Step(d, op).core;
    BalancesOnly(c, w, sender, amount);
    BalancesOnly(SubBalance(c, w, sender, amount), w, recipient, amount);
    AmountIsPlain(amount);
    AddressIsPadded(sender);
    AddressIsPadded(recipient);
    var more := Kept(op, d.logIndex);
    var l := Log(ZERO_ADDRESS, TransferTopics(sender, recipient), AmountBytes(amount), d.logIndex);
    assert e.logs == c.logs + [l];
    OneMoreLog(c.logs, ks, l, more);
    Shorter(ks, more);
    SameTransient(c.transient, ks, more);
    SameLists(c.accessedAddresses, c.accessedSlots, ks, more);
  }

  lemma AddLogTells(d: DB, ks: seq<Kept>, op: Op)
    requires Tells(d.core, ks) && op.OpAddLog?
    ensures Tells(Step(d, op).core, ks + [Kept(op, d.logIndex)]) && Step(d, op).logIndex == d.logIndex + 1
  {
    hide TransientIs, ListsAre, LogsAre;
    var c, more := d.core, Kept(op, d.logIndex);
    OneMoreLog(c.logs, ks, Log(op.address, op.topics, op.data, d.logIndex), more);
    Shorter(ks, more);
    SameTransient(c.transient, ks, more);
    SameLists(c.accessedAddresses, c.accessedSlots, ks, more);
  }

  // ---- Refund and transient storage ----

  lemma RefundTells(d: DB, ks: seq<Kept>, op: Op)
    requires Tells(d.core, ks) && (op.OpAddRefund? || op.OpSubRefund?)
    ensures Tells(Step(d, op).core, ks + [Kept(op, d.logIndex)]) && Step(d, op).logIndex == d.logIndex
  {
    hide TransientIs, ListsAre, LogsAre;
    var c, more := d.core, Kept(op, d.logIndex);
    Shorter(ks, more);
    SameLogs(c.logs, ks, more);
    SameTransient(c.transient, ks, more);
    SameLists(c.accessedAddresses, c.accessedSlots, ks, more);
  }

  lemma PutTransient(m: Slots, ks: seq<Kept>, a: Address, k: Hash, v: Hash, index: nat)
    requires TransientIs(m, ks)
    ensures TransientIs(Put(m, a, k, v), ks + [Kept(OpSetTransient(a, k, v), index)])
  {
    var more := Kept(OpSetTransient(a, k, v), index);
    Shorter(ks, more);
    hide Put, Lookup;
    forall b, i ensures OrZero(Lookup(Put(m, a, k, v), b, i)) == Transient(ks + [more], b, i) {
      assert OrZero(Lookup(m, b, i)) == Transient(ks, b, i);
    }
  }

  lemma SetTransientTells(d: DB, ks: seq<Kept>, op: Op)
    requires Tells(d.core, ks) && op.OpSetTransient?
    ensures Tells(Step(d, op).core, ks + [Kept(op, d.logIndex)]) && Step(d, op).logIndex == d.logIndex
  {
    hide TransientIs, ListsAre, LogsAre, Put;
    var c, more := d.core, Kept(op, d.logIndex);
    Shorter(ks, more);
    SameLogs(c.logs, ks, more);
    PutTransient(c.transient, ks, op.a, op.k, op.v, d.logIndex);
    SameLists(c.accessedAddresses, c.accessedSlots, ks, more);
  }

  // ---- Access lists ----

  lemma {:induction false} ListedAddresses(c: Core, xs: seq<Address>, a: Address)
    ensures InList(AddAddresses(c, xs).accessedAddresses, a) <==> InList(c.accessedAddresses, a) || a in xs
    ensures AddAddresses(c, xs).accessedSlots == c.accessedSlots
    decreases |xs|
  {
    if xs != [] {
      ListedAddresses(c, xs[..|xs| - 1], a);
    }
  }

  lemma {:induction false} ListedPairs(c: Core, xs: seq<(Address, Hash)>, a: Address, k: Hash)
    ensures InSlots(AddSlots(c, xs).accessedSlots, a, k) <==> InSlots(c.accessedSlots, a, k) || (a, k) in xs
    ensures InList(AddSlots(c, xs).accessedAddresses, a)
      <==> InList(c.accessedAddresses, a) || exists i :: 0 <= i < |xs| && xs[i].0 == a
    decreases |xs|
  {
    if xs != [] {
      hide Put;
      var n := |xs| - 1;
      ListedPairs(c, xs[..n], a, k);
      assert xs == xs[..n] + [xs[n]];
      assert forall i :: 0 <= i < n ==> xs[..n][i] == xs[i];
    }
  }

  lemma {:induction false} KeysOf(e: AccessTuple, n: nat, a: Address, k: Hash)
    requires n <= |e.storageKeys|
    ensures (a, k) in SlotsOf(e, n) <==> a == e.address && k in e.storageKeys[..n]
    ensures forall i :: 0 <= i < |SlotsOf(e, n)| ==> SlotsOf(e, n)[i].0 == e.address
  {
    if n > 0 {
      KeysOf(e, n - 1, a, k);
      assert e.storageKeys[..n] == e.storageKeys[..n - 1] + [e.storageKeys[n - 1]];
    }
  }

  lemma {:induction false} ListNames(list: seq<AccessTuple>, a: Address, k: Hash)
    ensures a in Listed(list) <==> NamesAddress(list, a)
    ensures (a, k) in ListedSlots(list) <==> NamesSlot(list, a, k)
    ensures (exists i :: 0 <= i < |ListedSlots(list)| && ListedSlots(list)[i].0 == a) ==> NamesAddress(list, a)
    decreases |list|
  {
    if list != [] {
      var n := |list| - 1;
      var init, last := list[..n], list[n];
      ListNames(init, a, k);
      KeysOf(last, |last.storageKeys|, a, k);
      assert last.storageKeys[..|last.storageKeys|] == last.storageKeys;
      OneMoreNamed(list, a, k);
      hide NamesSlot, NamesAddress, SlotsOf;
      assert ListedSlots(list) == ListedSlots(init) + SlotsOf(last, |last.storageKeys|);
      assert Listed(list) == Listed(init) + [last.address];
    }
  }

  lemma OneMoreNamed(list: seq<AccessTuple>, a: Address, k: Hash)
    requires list != []
    ensures
      var init, last := list[..|list| - 1], list[|list| - 1];
      && (NamesAddress(list, a) <==> NamesAddress(init, a) || last.address == a)
      && (NamesSlot(list, a, k) <==> NamesSlot(init, a, k) || (last.address == a && k in last.storageKeys))
  {
    var init := list[..|list| - 1];
    assert forall i :: 0 <= i < |init| ==> init[i] == list[i];
  }

  lemma Prepared(c: Core, op: Op, a: Address, k: Hash)
    requires op.OpPrepare?
    ensures
      var r := Prepare(c, Parties(op.sender, op.coinbase, op.dest, op.precompiles) + Listed(op.list),
                       ListedSlots(op.list));
      (InList(r.accessedAddresses, a) <==> Names(op, a))
      && (InSlots(r.accessedSlots, a, k) <==> NamesSlot(op.list, a, k))
  {
    var parties := Parties(op.sender, op.coinbase, op.dest, op.precompiles);
    var cleared := c.(accessedAddresses := map[], accessedSlots := map[]);
    hide AddAddresses, AddSlots, Listed, ListedSlots, NamesSlot, NamesAddress, Parties;
    var listed := AddAddresses(cleared, parties + Listed(op.list));
    ListedAddresses(cleared, parties + Listed(op.list), a);
    ListedPairs(listed, ListedSlots(op.list), a, k);
    ListNames(op.list, a, k);
    PartiesAre(op, a);
    assert !InList(map[], a) && !InSlots(map[], a, k);
  }

  lemma PartiesAre(op: Op, a: Address)
    requires op.OpPrepare?
    ensures a in Parties(op.sender, op.coinbase, op.dest, op.precompiles)
      <==> a == op.sender || a == op.coinbase || op.dest == Some(a) || a in op.precompiles
  {}

  lemma ListTells(d: DB, ks: seq<Kept>, op: Op)
    requires Tells(d.core, ks) && (op.OpAddAddress? || op.OpAddSlot? || op.OpPrepare?)
    ensures Tells(Step(d, op).core, ks + [Kept(op, d.logIndex)]) && Step(d, op).logIndex == d.logIndex
  {
    hide TransientIs, ListsAre, LogsAre, Put, Prepare;
    var c, more := d.core, Kept(op, d.logIndex);
    Shorter(ks, more);
    SameLogs(c.logs, ks, more);
    SameTransient(c.transient, ks, more);
    if op.OpPrepare? {
      PrepareOnly(c, Parties(op.sender, op.coinbase, op.dest, op.precompiles) + Listed(op.list), ListedSlots(op.list));
      PreparedLists(d, ks, op);
    } else {
      AddedLists(d, ks, op);
    }
  }

  lemma AddedLists(d: DB, ks: seq<Kept>, op: Op)
    requires ListsAre(d.core.accessedAddresses, d.core.accessedSlots, ks) && (op.OpAddAddress? || op.OpAddSlot?)
    ensures
      var e := Step(d, op).core;
      ListsAre(e.accessedAddresses, e.accessedSlots, ks + [Kept(op, d.logIndex)])
  {
    var more, e := Kept(op, d.logIndex), Step(d, op).core;
    Shorter(ks, more);
    hide Put;
    forall a ensures InList(e.accessedAddresses, a) <==> Warm(ks + [more], a) {
      assert InList(d.core.accessedAddresses, a) <==> Warm(ks, a);
    }
    forall a, k ensures InSlots(e.accessedSlots, a, k) <==> WarmSlot(ks + [more], a, k) {
      assert InSlots(d.core.accessedSlots, a, k) <==> WarmSlot(ks, a, k);
    }
  }

  lemma PreparedLists(d: DB, ks: seq<Kept>, op: Op)
    requires op.OpPrepare?
    ensures
      var e := Step(d, op).core;
      ListsAre(e.accessedAddresses, e.accessedSlots, ks + [Kept(op, d.logIndex)])
  {
    var more, e := Kept(op, d.logIndex), Step(d, op).core;
    hide Prepare, Parties, Listed, ListedSlots, InList, InSlots, Names, NamesSlot;
    forall a ensures InList(e.accessedAddresses, a) <==> Warm(ks + [more], a) {
      Prepared(d.core, op, a, ZERO_HASH);
    }
    forall a, k ensures InSlots(e.accessedSlots, a, k) <==> WarmSlot(ks + [more], a, k) {
      Prepared(d.core, op, a, k);
    }
  }

  // ---- Every step and every run ----

  lemma KeptTells(d: DB, ks: seq<Kept>, op: Op)
    requires Tells(d.core, ks) && !op.OpSnapshot? && !op.OpRevert?
    ensures Tells(Step(d, op).core, ks + [Kept(op, d.logIndex)])
    ensures Step(d, op).logIndex == d.logIndex + if MakesLog(op) then 1 else 0
  {
    hide Step, Tells;
    if Plain(op) {
      PlainSpares(d, op);
      PlainTells(d.core, Step(d, op).core, ks, Kept(op, d.logIndex));
    } else {
      match op
      case OpTransfer(sender, recipient, amount) => TransferTells(d, ks, sender, recipient, amount);
      case OpAddLog(_, _, _) => AddLogTells(d, ks, op);
      case OpAddRefund(_) => RefundTells(d, ks, op);
      case OpSubRefund(_) => RefundTells(d, ks, op);
      case OpSetTransient(_, _, _) => SetTransientTells(d, ks, op);
      case OpAddAddress(_) => ListTells(d, ks, op);
      case OpAddSlot(_, _) => ListTells(d, ks, op);
      case OpPrepare(_, _, _, _, _) => ListTells(d, ks, op);
    }
  }

  lemma StepFollows(d: DB, j: Journal, op: Op)
    requires Follows(d, j)
    ensures Follows(Step(d, op), Note(j, op))
  {
    hide Tells;
    var e, r := Step(d, op), Note(j, op);
    if op.OpSnapshot? {
      assert j.kept[..|j.kept|] == j.kept;
    } else if op.OpRevert? {
      assert forall i, n :: 0 <= i <= n <= |j.kept| ==> j.kept[..n][..i] == j.kept[..i];
    } else {
      KeptTells(d, j.kept, op);
      SameSnapshots(d, op);
      hide Step;
      forall i | 0 <= i < |r.marks| ensures Tells(e.snapshots[i], r.kept[..r.marks[i]]) {
        assert r.kept[..r.marks[i]] == j.kept[..j.marks[i]];
      }
    }
  }

  lemma {:induction false} RunSnoc(d: DB, ops: seq<Op>, op: Op)
    ensures Run(d, ops + [op]) == Step(Run(d, ops), op)
    decreases |ops|
  {
    hide Step;
    if ops == [] {
      assert ([op])[1..] == [];
      assert [] + [op] == [op];
      assert Run(d, [op]) == Run(Step(d, op), []);
    } else {
      assert (ops + [op])[1..] == ops[1..] + [op];
      RunSnoc(Step(d, ops[0]), ops[1..], op);
    }
  }

  lemma NothingYet(w: World)
    ensures Follows(Init(w), After([]))
  {}

  /** After any run whatever, of operations in any order: the logs are those of the operations that no revert has taken
    * back, one for each that makes one, in order, numbered by all logs ever made; the refund counter, the transient
    * values and access lists are what these operations say; and as many snapshots can be reverted to as are open. */
  lemma {:induction false} JournalTells(w: World, ops: seq<Op>)
    ensures Follows(Run(Init(w), ops), After(ops))
    decreases |ops|
  {
    hide Step, Follows, Init, Note;
    if ops == [] {
      NothingYet(w);
    } else {
      var n := |ops| - 1;
      JournalTells(w, ops[..n]);
      StepFollows(Run(Init(w), ops[..n]), After(ops[..n]), ops[n]);
      RunSnoc(Init(w), ops[..n], ops[n]);
      assert ops[..n] + [ops[n]] == ops;
    }
  }

  /** The i-th operation takes more than the operations kept before it have left. */
  predicate Overdraws(ops: seq<Op>, i: nat)
    requires i < |ops|
  {
    ops[i].OpSubRefund? && ops[i].gas > Refund(After(ops[..i]).kept)
  }

  predicate SomeOverdraws(ops: seq<Op>) {
    exists i :: 0 <= i < |ops| && Overdraws(ops, i)
  }

  lemma OverdrawsSnoc(ops: seq<Op>)
    requires ops != []
    ensures SomeOverdraws(ops) <==> SomeOverdraws(ops[..|ops| - 1]) || Overdraws(ops, |ops| - 1)
  {
    var init := ops[..|ops| - 1];
    forall i | 0 <= i < |init| ensures Overdraws(ops, i) <==> Overdraws(init, i) {
      assert init[..i] == ops[..i];
    }
  }

  /** An execution panics if and only if some operation takes more from the refund counter than what is kept there. */
  lemma {:induction false} PanicsIff(w: World, ops: seq<Op>)
    ensures NeverPanics(Init(w), ops) <==> !SomeOverdraws(ops)
    decreases |ops|
  {
    hide Step, Init, Refund, After, SomeOverdraws, Run, NeverPanics;
    if ops != [] {
      var init, last := ops[..|ops| - 1], ops[|ops| - 1];
      PanicsIff(w, init);
      RefundIsKept(w, init);
      assert init + [last] == ops;
      PanicSnoc(Init(w), init, last);
      OverdrawsSnoc(ops);
    } else {
      assert NeverPanics(Init(w), []) && !SomeOverdraws([]) by { NoneOverdraws(Init(w)); }
    }
  }

  lemma NoneOverdraws(d: DB)
    ensures NeverPanics(d, []) && !SomeOverdraws([])
  {}

  lemma RefundIsKept(w: World, ops: seq<Op>)
    ensures Run(Init(w), ops).core.refund == Refund(After(ops).kept)
  {
    hide Run, Init, After, Follows, Refund;
    JournalTells(w, ops);
    FollowsTells(Run(Init(w), ops), After(ops));
  }

  lemma FollowsTells(d: DB, j: Journal)
    requires Follows(d, j)
    ensures Tells(d.core, j.kept)
  {}

  lemma {:induction false} PanicSnoc(d: DB, ops: seq<Op>, op: Op)
    ensures NeverPanics(d, ops + [op]) <==> NeverPanics(d, ops) && !ReturnedBy(Run(d, ops), op).Panic?
    decreases |ops|
  {
    hide Step, ReturnedBy;
    if ops == [] {
      assert ([op])[1..] == [];
      assert [] + [op] == [op];
    } else {
      assert (ops + [op])[1..] == ops[1..] + [op];
      PanicSnoc(Step(d, ops[0]), ops[1..], op);
    }
  }

  // ---- Answers ----

  /** What an operation should return: the account or slot that the plain overlay holds, the value at the start for a
    * committed slot, the number of open snapshots, and a panic for taking more refund than there is. */
  function PlainReturn(o: Overlay, w: World, ks: seq<Kept>, op: Op): Returned {
    match op
    case OpTouch(a) => Seen(PlainAccount(o.top, w, a))
    case OpGetState(a, k) => Value(PlainSlot(o.top, w, a, k))
    case OpGetCommitted(a, k) => Value(Original(w, a, k))
    case OpSetState(a, k, _) => Value(PlainSlot(o.top, w, a, k))
    case OpSubBalance(a, _) => Balance(PlainBalance(o.top, w, a))
    case OpAddBalance(a, _) => Balance(PlainBalance(o.top, w, a))
    case OpSelfDestruct(a) => Balance(PlainBalance(o.top, w, a))
    case OpSelfDestruct6780(a) =>
      Destroyed(PlainBalance(o.top, w, a), PlainAccount(o.top, w, a).Some? && PlainAccount(o.top, w, a).value.isNew)
    case OpSetCode(a, _) => Code(match PlainAccount(o.top, w, a) case Some(v) => v.code case None => [])
    case OpSubRefund(gas) => if gas > Refund(ks) then Panic else Nothing
    case OpSnapshot => Id(|o.saved|)
    case _ => Nothing
  }

  function PlainBalance(l: Layer, w: World, a: Address): uint256 {
    match PlainAccount(l, w, a) case Some(v) => v.balance case None => 0
  }

  lemma SimulatedReturn(d: DB, o: Overlay, ks: seq<Kept>, op: Op)
    requires Inv(d) && Simulates(d, o) && Faithful(d, op) && d.core.refund == Refund(ks)
    ensures ReturnedBy(d, op) == PlainReturn(o, d.world, ks, op)
  {
    hide PlainAccount, PlainSlot, Original, Refund, Inv, AccountOf, SlotOf, CommittedValue;
    assert Agrees(d.core, o.top, d.world);
    match op
    case OpGetCommitted(a, k) => CommittedStays(d, a, k);
    case OpSetState(a, k, v) => WrittenOver(d, a, k);
    case OpSelfDestruct(a) => CachedOrNowhere(d, a);
    case OpSelfDestruct6780(a) => CachedOrNowhere(d, a);
    case _ =>
  }

  lemma CommittedStays(d: DB, a: Address, k: Hash)
    requires Inv(d)
    ensures CommittedValue(d, a, k) == Original(d.world, a, k)
  {
    hide Inv, CommittedValue, Original;
    InvMeansExact(d);
  }

  /** An account that may be destroyed is cached or nowhere. */
  lemma CachedOrNowhere(d: DB, a: Address)
    requires MayDestroy(d, a)
    ensures AccountOf(d.core, d.world, a) == if a in d.core.accounts then Some(d.core.accounts[a]) else None
  {}

  /** A slot that may be written is cached, or is nowhere and reads as zero. */
  lemma WrittenOver(d: DB, a: Address, k: Hash)
    requires MayWrite(d, a, k)
    ensures OrZero(Lookup(d.core.storage, a, k)) == SlotOf(d.core, d.world, a, k)
  {}

  /** After any faithful run a faithful operation is answered as the plain overlay and the journal would answer it. */
  lemma EveryAnswerIsPlain(w: World, ops: seq<Op>, op: Op)
    requires FaithfulRun(Init(w), ops) && Faithful(Run(Init(w), ops), op)
    ensures ReturnedBy(Run(Init(w), ops), op) == PlainReturn(PlainRun(EMPTY_OVERLAY, w, ops), w, After(ops).kept, op)
    ensures Tells(Step(Run(Init(w), ops), op).core, After(ops + [op]).kept)
  {
    hide Inv, Faithful, Simulates, Step, ReturnedBy, PlainReturn, PlainRun, Run, Follows, FaithfulRun;
    StateDBRuns.InitHolds(w);
    InitSimulates(w);
    RunSimulates(Init(w), EMPTY_OVERLAY, ops);
    JournalTells(w, ops);
    JournalTells(w, ops + [op]);
    RunSnoc(Init(w), ops, op);
    FollowsTells(Run(Init(w), ops), After(ops));
    FollowsTells(Run(Init(w), ops + [op]), After(ops + [op]));
    hide Init;
    SimulatedReturn(Run(Init(w), ops), PlainRun(EMPTY_OVERLAY, w, ops), After(ops).kept, op);
  }
}
