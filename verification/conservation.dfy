/** Value moves but is neither made nor lost. */
module Conservation {
  import opened Primitives
  import opened MapSums
  import opened StateDBSpec
  import StateDBRuns

  /** The balances of some addresses as every getter would report them. */
  ghost function Balances(c: Core, w: World, among: set<Address>): map<Address, int> {
    map a | a in among :: BalanceOf(c, w, a) as int
  }

  ghost function Total(c: Core, w: World, among: set<Address>): int {
    Sum(Balances(c, w, among))
  }

  // ---- One transfer ----

  lemma SubBalanceView(c: Core, w: World, a: Address, amount: uint256, b: Address)
    ensures BalanceOf(SubBalance(c, w, a, amount), w, b) ==
      if a != b then BalanceOf(c, w, b)
      else if BalanceOf(c, w, a) < amount then 0 else BalanceOf(c, w, a) - amount
  {}

  lemma AddBalanceView(c: Core, w: World, a: Address, amount: uint256, b: Address)
    ensures BalanceOf(AddBalance(c, w, a, amount), w, b) ==
      if a != b then BalanceOf(c, w, b) else (BalanceOf(c, w, a) + amount) % UINT256_LIMIT
  {}

  lemma SubBalanceTotal(c: Core, w: World, a: Address, amount: uint256, among: set<Address>)
    requires a in among
    ensures Total(SubBalance(c, w, a, amount), w, among) - Total(c, w, among)
         == BalanceOf(SubBalance(c, w, a, amount), w, a) - BalanceOf(c, w, a)
  {
    hide SubBalance, BalanceOf;
    var e := SubBalance(c, w, a, amount);
    forall b ensures b != a ==> BalanceOf(e, w, b) == BalanceOf(c, w, b) {
      SubBalanceView(c, w, a, amount, b);
    }
    assert Balances(e, w, among) == Balances(c, w, among)[a := BalanceOf(e, w, a)];
    SumUpdate(Balances(c, w, among), a, BalanceOf(e, w, a));
  }

  lemma AddBalanceTotal(c: Core, w: World, a: Address, amount: uint256, among: set<Address>)
    requires a in among
    ensures Total(AddBalance(c, w, a, amount), w, among) - Total(c, w, among)
         == BalanceOf(AddBalance(c, w, a, amount), w, a) - BalanceOf(c, w, a)
  {
    hide AddBalance, BalanceOf;
    var e := AddBalance(c, w, a, amount);
    forall b ensures b != a ==> BalanceOf(e, w, b) == BalanceOf(c, w, b) {
      AddBalanceView(c, w, a, amount, b);
    }
    assert Balances(e, w, among) == Balances(c, w, among)[a := BalanceOf(e, w, a)];
    SumUpdate(Balances(c, w, among), a, BalanceOf(e, w, a));
  }

  lemma BalanceWithinTotal(c: Core, w: World, a: Address, among: set<Address>)
    requires a in among
    ensures BalanceOf(c, w, a) <= Total(c, w, among)
  {
    hide BalanceOf;
    SumBoundsEntry(Balances(c, w, among), a);
  }

  function Moved(c: Core, w: World, sender: Address, recipient: Address, amount: uint256): Core {
    AddBalance(SubBalance(c, w, sender, amount), w, recipient, amount)
  }

  /** A transfer keeps the total, sender and recipient being the same or not, exactly when the sender
    * can pay: otherwise the difference is made out of nothing. */
  lemma TransferConservesIff(c: Core, w: World, sender: Address, recipient: Address, amount: uint256,
                             among: set<Address>)
    requires sender in among && recipient in among && Total(c, w, among) < UINT256_LIMIT
    ensures Total(Moved(c, w, sender, recipient, amount), w, among) == Total(c, w, among)
      <==> BalanceOf(c, w, sender) >= amount
  {
    hide SubBalance, AddBalance, BalanceOf, Total;
    var s := SubBalance(c, w, sender, amount);
    SubBalanceTotal(c, w, sender, amount, among);
    SubBalanceView(c, w, sender, amount, sender);
    AddBalanceTotal(s, w, recipient, amount, among);
    AddBalanceView(s, w, recipient, amount, recipient);
    BalanceWithinTotal(s, w, recipient, among);
  }

  /** The check made before a transfer lets through exactly the transfers that keep the total, those of nothing and
    * those of everything included. */
  lemma CanTransferIffConserved(d: DB, sender: Address, recipient: Address, amount: uint256, among: set<Address>)
    requires sender in among && recipient in among && Total(d.core, d.world, among) < UINT256_LIMIT
    ensures CanTransfer(d, sender, amount)
      <==> Total(Moved(d.core, d.world, sender, recipient, amount), d.world, among) == Total(d.core, d.world, among)
  {
    hide Moved, BalanceOf, Total;
    TransferConservesIff(d.core, d.world, sender, recipient, amount, among);
  }

  // ---- Runs ----

  /** Every operation but the ones that set balances; transfers only when the sender can pay, as the
    * interpreter checks before it makes one. */
  predicate Conserving(d: DB, op: Op, among: set<Address>) {
    match op
    case OpSubBalance(_, _) => false
    case OpAddBalance(_, _) => false
    case OpSelfDestruct(_) => false
    case OpSelfDestruct6780(_) => false
    case OpTransfer(sender, recipient, amount) =>
      sender in among && recipient in among && CanTransfer(d, sender, amount)
    case _ => true
  }

  predicate ConservingRun(d: DB, ops: seq<Op>, among: set<Address>)
    decreases |ops|
  {
    ops == [] || (Conserving(d, ops[0], among) && ConservingRun(Step(d, ops[0]), ops[1..], among))
  }

  /** The present and every saved state hold the same total. */
  ghost predicate AllTotal(d: DB, among: set<Address>, t: int) {
    && Total(d.core, d.world, among) == t
    && forall i :: 0 <= i < |d.snapshots| ==> Total(d.snapshots[i], d.world, among) == t
  }

  lemma SameBalancesSameTotal(c: Core, e: Core, w: World, among: set<Address>)
    requires forall a :: BalanceOf(e, w, a) == BalanceOf(c, w, a)
    ensures Total(e, w, among) == Total(c, w, among)
  {
    hide BalanceOf;
    assert Balances(e, w, among) == Balances(c, w, among);
  }

  predicate MovesValue(op: Op) {
    op.OpSubBalance? || op.OpAddBalance? || op.OpSelfDestruct? || op.OpSelfDestruct6780? || op.OpTransfer?
    || op.OpSnapshot? || op.OpRevert?
  }

  predicate TouchesAccounts(op: Op) {
    op.OpTouch? || op.OpCreateAccount? || op.OpCreateContract? || op.OpSetNonce? || op.OpSetCode?
  }

  lemma OthersSpareAccounts(d: DB, op: Op)
    requires !MovesValue(op) && !TouchesAccounts(op)
    ensures Step(d, op).core.accounts == d.core.accounts
  {
    if StateDBRuns.SideOp(op) {
      StateDBRuns.SideOpSpares(d, op);
      hide Step;
    } else {
      hide Put;
    }
  }

  lemma CreatingSparesBalances(c: Core, w: World, a: Address, b: Address)
    ensures BalanceOf(LoadAccount(c, w, a), w, b) == BalanceOf(c, w, b)
    ensures BalanceOf(GetOrCreate(c, w, a), w, b) == BalanceOf(c, w, b)
  {}

  lemma UpdatingSparesBalances(c: Core, w: World, a: Address, v: Account, b: Address)
    requires a in c.accounts && v.balance == c.accounts[a].balance
    ensures BalanceOf(Update(c, a, v), w, b) == BalanceOf(c, w, b)
  {}

  lemma OthersSpareBalances(d: DB, op: Op, b: Address)
    requires !MovesValue(op)
    ensures BalanceOf(Step(d, op).core, d.world, b) == BalanceOf(d.core, d.world, b)
  {
    if TouchesAccounts(op) {
      hide LoadAccount, GetOrCreate, Update, BalanceOf;
      var c, w := d.core, d.world;
      CreatingSparesBalances(c, w, op.a, b);
      var e := GetOrCreate(c, w, op.a);
      match op
      case OpCreateContract(a) => UpdatingSparesBalances(e, w, a, e.accounts[a].(isNew := true), b);
      case OpSetNonce(a, nonce) => UpdatingSparesBalances(e, w, a, e.accounts[a].(nonce := nonce), b);
      case OpSetCode(a, code) =>
        UpdatingSparesBalances(e, w, a, e.accounts[a].(code := code, codeHash := w.keccak(code)), b);
      case _ =>
    } else {
      OthersSpareAccounts(d, op);
      hide Step;
    }
  }

  lemma StepConserves(d: DB, op: Op, among: set<Address>, t: int)
    requires AllTotal(d, among, t) && t < UINT256_LIMIT && Conserving(d, op, among)
    ensures AllTotal(Step(d, op), among, t) && Step(d, op).world == d.world
  {
    hide Total;
    StateDBRuns.SameWorld(d, op);
    if op.OpTransfer? {
      hide SubBalance, AddBalance;
      TransferConservesIff(d.core, d.world, op.sender, op.recipient, op.amount, among);
      var m := Moved(d.core, d.world, op.sender, op.recipient, op.amount);
      SameBalancesSameTotal(m, Step(d, op).core, d.world, among);
    } else if !op.OpSnapshot? && !op.OpRevert? {
      StateDBRuns.SameSnapshots(d, op);
      forall a ensures BalanceOf(Step(d, op).core, d.world, a) == BalanceOf(d.core, d.world, a) {
        OthersSpareBalances(d, op, a);
      }
      hide Step, BalanceOf;
      SameBalancesSameTotal(d.core, Step(d, op).core, d.world, among);
    }
  }

  /** Over any run of transfers the senders can pay for, with whatever reads, other writes, snapshots and
    * reverts between them, the sum of all balances, loaded from the store or not, stays what it was. */
  lemma {:induction false} RunConserves(d: DB, ops: seq<Op>, among: set<Address>, t: int)
    requires AllTotal(d, among, t) && t < UINT256_LIMIT && ConservingRun(d, ops, among)
    ensures Total(Run(d, ops).core, d.world, among) == t
    decreases |ops|
  {
    if ops != [] {
      StepConserves(d, ops[0], among, t);
      hide Step, AllTotal, Total, Conserving;
      RunConserves(Step(d, ops[0]), ops[1..], among, t);
    }
  }

  lemma ValueIsConserved(w: World, ops: seq<Op>, among: set<Address>)
    requires Total(Init(w).core, w, among) < UINT256_LIMIT && ConservingRun(Init(w), ops, among)
    ensures Total(Run(Init(w), ops).core, w, among) == Total(Init(w).core, w, among)
  {
    hide Run, ConservingRun, Total;
    RunConserves(Init(w), ops, among, Total(Init(w).core, w, among));
  }
}
