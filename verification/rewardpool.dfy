/** The AgentRewardPool contract: F1 accounting (cumulative reward per unit of weight).
  * Every entry point is written as a function on pool values; None is a reverted transaction. */
module RewardPoolSpec {
  import opened Primitives
  import opened MapSums

  /** Fixed-point scale of the cumulative reward-per-weight counter. */
  const SCALE: nat := 1_000_000_000_000_000_000

  datatype Agent = Agent(weight: uint256, snapshot: uint256, pending: uint256)

  /** What has happened to the contract, oldest first. Reverted transactions leave no trace. */
  datatype Event =
    | Deposited(value: nat)
    | Received(value: nat)
    | Settled(agent: Address)
    | Weighed(agent: Address, weight: nat)
    | Paid(agent: Address, amount: nat)

  datatype Pool = Pool(
    self: Address,                     // the contract's own address
    coordinator: Address,
    cum: uint256,
    totalWeight: uint256,
    agents: map<Address, Agent>,
    balance: nat,
    history: seq<Event>)

  function Info(p: Pool, a: Address): Agent {
    if a in p.agents then p.agents[a] else Agent(0, 0, 0)
  }

  // ---- Checked uint256 arithmetic: None where the contract reverts ----

  function CheckedAdd(x: uint256, y: uint256): Option<uint256> {
    if x + y < UINT256_LIMIT then Some(x + y) else None
  }

  function CheckedSub(x: uint256, y: uint256): Option<uint256> {
    if y <= x then Some(x - y) else None
  }

  function CheckedMul(x: uint256, y: uint256): Option<uint256> {
    var z := x * y;
    if 0 <= z < UINT256_LIMIT then Some(z) else None
  }

  /** weight * (cum - snapshot) / SCALE, the reward an agent has not had credited yet. */
  function Accrued(i: Agent, cum: uint256): Option<uint256> {
    match CheckedSub(cum, i.snapshot)
    case None => None
    case Some(d) =>
      match CheckedMul(i.weight, d)
      case None => None
      case Some(x) => Some(x / SCALE)
  }

  // ---- The steps the entry points are made of ----

  function Receive(p: Pool, value: uint256): Pool {
    p.(balance := p.balance + value, history := p.history + [Received(value)])
  }

  /** What one unit of weight earns from a deposit, and what the division leaves over. */
  function Rate(value: nat, total: nat): nat
    requires total > 0
  {
    value * SCALE / total
  }

  function Remainder(value: nat, total: nat): nat
    requires total > 0
  {
    value * SCALE % total
  }

  /** Takes the deposited value in and, if somebody has weight, raises the counter. */
  function Distribute(p: Pool, value: uint256): Option<Pool> {
    var q := p.(balance := p.balance + value, history := p.history + [Deposited(value)]);
    if p.totalWeight > 0 && value > 0 then
      match CheckedMul(value, SCALE)
      case None => None
      case Some(_) =>
        match CheckedAdd(p.cum, Rate(value, p.totalWeight))
        case None => None
        case Some(c) => Some(q.(cum := c))
    else Some(q)
  }

  /** Moves what an agent with weight has accrued since its snapshot into its pending balance. */
  function Settle(p: Pool, a: Address): Option<Pool> {
    var i := Info(p, a);
    if i.weight == 0 || i.snapshot == p.cum then Some(p)
    else
      match Accrued(i, p.cum)
      case None => None
      case Some(r) =>
        match CheckedAdd(i.pending, r)
        case None => None
        case Some(pending) =>
          Some(p.(agents := p.agents[a := Agent(i.weight, p.cum, pending)],
                  history := p.history + [Settled(a)]))
  }

  /** Gives a settled agent its new weight. */
  function Reweigh(p: Pool, a: Address, weight: uint256): Option<Pool> {
    var i := Info(p, a);
    match CheckedSub(p.totalWeight, i.weight)
    case None => None
    case Some(rest) =>
      match CheckedAdd(rest, weight)
      case None => None
      case Some(total) =>
        Some(p.(agents := p.agents[a := Agent(weight, p.cum, i.pending)],
                totalWeight := total,
                history := p.history + [Weighed(a, weight)]))
  }

  /** The value transfer to a claimant: refused by the recipient or for lack of funds. */
  predicate TransferSucceeds(p: Pool, amount: nat, accepts: bool) {
    accepts && amount <= p.balance
  }

  /** Zeroes the pending balance and sends it. The contract paying itself keeps its funds. */
  function Pay(p: Pool, a: Address): Pool
    requires Info(p, a).pending <= p.balance
  {
    var i := Info(p, a);
    p.(agents := p.agents[a := i.(pending := 0)],
       balance := if a == p.self then p.balance else p.balance - i.pending,
       history := p.history + [Paid(a, i.pending)])
  }

  // ---- Entry points ----

  function SettleAll(p: Pool, agents: seq<Address>, weights: seq<uint256>): Option<Pool>
    requires |agents| == |weights|
    decreases |agents|
  {
    if agents == [] then Some(p)
    else
      match Settle(p, agents[0])
      case None => None
      case Some(s) =>
        match Reweigh(s, agents[0], weights[0])
        case None => None
        case Some(w) => SettleAll(w, agents[1..], weights[1..])
  }

  function DepositAndSettle(p: Pool, caller: Address, value: uint256, agents: seq<Address>, weights: seq<uint256>)
    : Option<Pool>
  {
    if caller != p.coordinator || |agents| != |weights| then None
    else
      match Distribute(p, value)
      case None => None
      case Some(d) => SettleAll(d, agents, weights)
  }

  /** One round of the batch loops: settle, skip if nothing is pending, put the amount back if the transfer fails. */
  function ClaimOne(p: Pool, a: Address, accepts: bool): Option<Pool> {
    match Settle(p, a)
    case None => None
    case Some(s) =>
      var amount := Info(s, a).pending;
      if amount > 0 && TransferSucceeds(s, amount, accepts) then Some(Pay(s, a)) else Some(s)
  }

  function ClaimAll(p: Pool, agents: seq<Address>, accepts: seq<bool>): Option<Pool>
    requires |agents| == |accepts|
    decreases |agents|
  {
    if agents == [] then Some(p)
    else
      match ClaimOne(p, agents[0], accepts[0])
      case None => None
      case Some(c) => ClaimAll(c, agents[1..], accepts[1..])
  }

  function DepositSettleAndClaim(p: Pool, caller: Address, value: uint256, agents: seq<Address>, weights: seq<uint256>,
                                 claimees: seq<Address>, accepts: seq<bool>): Option<Pool>
    requires |claimees| == |accepts|
  {
    match DepositAndSettle(p, caller, value, agents, weights)
    case None => None
    case Some(d) => ClaimAll(d, claimees, accepts)
  }

  /** The second half of both single claims: nothing pending or a refused transfer reverts. */
  function Collect(p: Pool, a: Address, accepts: bool): Option<Pool> {
    var amount := Info(p, a).pending;
    if amount > 0 && TransferSucceeds(p, amount, accepts) then Some(Pay(p, a)) else None
  }

  /** claim(). For a caller with weight the settlement is left at 0xbb7 for the return address 0x866, inside the
    * view, instead of 0xbc0: the view's end then jumps to the selector of claim(), which is no place to jump to. */
  function Claim(p: Pool, caller: Address, accepts: bool): Option<Pool> {
    if Info(p, caller).weight > 0 then None else Collect(p, caller, accepts)
  }

  /** claimFor(a). For an agent with weight the same jump adds the accrued reward to the storage slot of the agent's
    * record and ends at 0xc7, where the call stops: it succeeds, unless that sum overflows, and changes nothing. */
  function ClaimFor(p: Pool, a: Address, slot: uint256, accepts: bool): Option<Pool> {
    var i := Info(p, a);
    if i.weight > 0 then
      match Accrued(i, p.cum)
      case None => None
      case Some(r) => match CheckedAdd(slot, r) case None => None case Some(_) => Some(p)
    else Collect(p, a, accepts)
  }

  function SetCoordinator(p: Pool, caller: Address, next: Address): Option<Pool> {
    if caller != p.coordinator || next == ZERO_ADDRESS then None else Some(p.(coordinator := next))
  }

  /** The view claimable(a). */
  function Claimable(p: Pool, a: Address): Option<uint256> {
    var i := Info(p, a);
    if i.weight == 0 then Some(i.pending)
    else
      match Accrued(i, p.cum)
      case None => None
      case Some(r) => CheckedAdd(i.pending, r)
  }

  function Init(self: Address, coordinator: Address): Pool {
    Pool(self, coordinator, 0, 0, map[], 0, [])
  }

  // ---- Transactions and runs ----

  datatype Tx =
    | TxDeposit(caller: Address, value: uint256, agents: seq<Address>, weights: seq<uint256>)
    | TxDepositAndClaim(caller: Address, value: uint256, agents: seq<Address>, weights: seq<uint256>,
                        claimees: seq<Address>, accepts: seq<bool>)
    | TxClaim(caller: Address, accept: bool)
    | TxClaimFor(agent: Address, slot: uint256, accept: bool)
    | TxBatchClaim(claimees: seq<Address>, accepts: seq<bool>)
    | TxReceive(value: uint256)
    | TxSetCoordinator(caller: Address, next: Address)

  function Attempt(p: Pool, tx: Tx): Option<Pool> {
    match tx
    case TxDeposit(caller, value, agents, weights) => DepositAndSettle(p, caller, value, agents, weights)
    case TxDepositAndClaim(caller, value, agents, weights, claimees, accepts) =>
      if |claimees| != |accepts| then None
      else DepositSettleAndClaim(p, caller, value, agents, weights, claimees, accepts)
    case TxClaim(caller, accept) => Claim(p, caller, accept)
    case TxClaimFor(a, slot, accept) => ClaimFor(p, a, slot, accept)
    case TxBatchClaim(claimees, accepts) =>
      if |claimees| != |accepts| then None else ClaimAll(p, claimees, accepts)
    case TxReceive(value) => Some(Receive(p, value))
    case TxSetCoordinator(caller, next) => SetCoordinator(p, caller, next)
  }

  /** A transaction takes effect as a whole or not at all. */
  function Exec(p: Pool, tx: Tx): Pool {
    match Attempt(p, tx) case Some(q) => q case None => p
  }

  function Run(p: Pool, txs: seq<Tx>): Pool
    decreases |txs|
  {
    if txs == [] then p else Run(Exec(p, txs[0]), txs[1..])
  }
}
