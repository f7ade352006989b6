/** Solvency, exact dust and agreement with naive per-deposit crediting, over every run of the pool. */
module RewardPoolProofs {
  import opened Primitives
  import opened MapSums
  import opened RewardPoolSpec

  // ---- The reference scheme: replay the history without the cumulative counter ----

  ghost function Prev(h: seq<Event>): seq<Event>
    requires h != []
  {
    h[..|h| - 1]
  }

  /** The weight each agent was last given. */
  ghost function WeightsOf(h: seq<Event>): map<Address, int>
  {
    if h == [] then map[]
    else
      match h[|h| - 1]
      case Weighed(a, w) => WeightsOf(Prev(h))[a := w]
      case _ => WeightsOf(Prev(h))
  }

  ghost function TotalOf(h: seq<Event>): int {
    Sum(WeightsOf(h))
  }

  ghost function ExactShare(value: int, weight: int, total: int): real
    requires total > 0
  {
    (value as real) * (weight as real) / (total as real)
  }

  /** Naive crediting: every deposit hands every agent its exact share value * weight / total. */
  ghost function NaiveCredit(h: seq<Event>, a: Address): real
  {
    if h == [] then 0.0
    else
      var before := NaiveCredit(Prev(h), a);
      match h[|h| - 1]
      case Deposited(v) =>
        var total := TotalOf(Prev(h));
        if total > 0 then before + ExactShare(v, Get(WeightsOf(Prev(h)), a), total) else before
      case _ => before
  }

  /** Wei actually sent to an agent. */
  ghost function PaidTo(h: seq<Event>, a: Address): nat
  {
    if h == [] then 0
    else
      match h[|h| - 1]
      case Paid(b, amount) => PaidTo(Prev(h), a) + if a == b then amount else 0
      case _ => PaidTo(Prev(h), a)
  }

  /** How often an agent with weight was settled. */
  ghost function Settlements(h: seq<Event>, a: Address): nat
  {
    if h == [] then 0
    else Settlements(Prev(h), a) + if h[|h| - 1] == Settled(a) then 1 else 0
  }

  ghost predicate Distributes(h: seq<Event>, e: Event) {
    e.Deposited? && e.value > 0 && TotalOf(h) > 0
  }

  /** A distributed deposit that the total weight does not divide evenly. */
  ghost predicate Inexact(h: seq<Event>, e: Event) {
    Distributes(h, e) && Remainder(e.value, TotalOf(h)) != 0
  }

  /** The weight an agent had in each inexact deposit, summed. */
  ghost function WeightInInexact(h: seq<Event>, a: Address): int
  {
    if h == [] then 0
    else WeightInInexact(Prev(h), a) + if Inexact(Prev(h), h[|h| - 1]) then Get(WeightsOf(Prev(h)), a) else 0
  }

  /** The reward-per-weight counter as the deposits have raised it. */
  ghost function CumOf(h: seq<Event>): int
  {
    if h == [] then 0
    else
      var e := h[|h| - 1];
      CumOf(Prev(h)) + if Distributes(Prev(h), e) then Rate(e.value, TotalOf(Prev(h))) else 0
  }

  /** The counter when the agent was last settled or weighed. */
  ghost function SnapOf(h: seq<Event>, a: Address): int
  {
    if h == [] then 0
    else
      match h[|h| - 1]
      case Settled(b) => if a == b then CumOf(Prev(h)) else SnapOf(Prev(h), a)
      case Weighed(b, _) => if a == b then CumOf(Prev(h)) else SnapOf(Prev(h), a)
      case _ => SnapOf(Prev(h), a)
  }

  /** The scaled wei a settlement of the agent at this point drops: what does not make a whole wei. */
  ghost function Dropped(h: seq<Event>, a: Address): int {
    Get(WeightsOf(h), a) * (CumOf(h) - SnapOf(h, a)) % SCALE
  }

  /** Scaled wei an agent lost to its settlements. */
  ghost function SettlementLoss(h: seq<Event>, a: Address): int
  {
    if h == [] then 0
    else SettlementLoss(Prev(h), a) + if h[|h| - 1] == Settled(a) then Dropped(Prev(h), a) else 0
  }

  /** Scaled wei an agent lost to deposits: its share of every remainder. */
  ghost function DepositLoss(h: seq<Event>, a: Address): real
  {
    if h == [] then 0.0
    else
      var e := h[|h| - 1];
      DepositLoss(Prev(h), a) +
      if Distributes(Prev(h), e) then
        ExactShare(Remainder(e.value, TotalOf(Prev(h))), Get(WeightsOf(Prev(h)), a), TotalOf(Prev(h)))
      else 0.0
  }

  /** Scaled wei dropped by all settlements together. */
  ghost function AllDropped(h: seq<Event>): int
  {
    if h == [] then 0
    else AllDropped(Prev(h)) + match h[|h| - 1] case Settled(a) => Dropped(Prev(h), a) case _ => 0
  }

  /** Scaled wei that no agent can ever claim: what came in while nobody had weight or as a plain
    * transfer, what the pool paid itself, and the remainder of every distributed deposit. */
  ghost function Undistributed(h: seq<Event>, self: Address): int
  {
    if h == [] then 0
    else
      Undistributed(Prev(h), self) +
      match h[|h| - 1]
      case Deposited(v) => if Distributes(Prev(h), h[|h| - 1]) then Remainder(v, TotalOf(Prev(h))) else v * SCALE
      case Received(v) => v * SCALE
      case Paid(a, amount) => if a == self then SCALE * amount else 0
      case _ => 0
  }

  /** How many settlements there were in all. */
  ghost function AllSettlements(h: seq<Event>): nat
  {
    if h == [] then 0 else AllSettlements(Prev(h)) + if h[|h| - 1].Settled? then 1 else 0
  }

  ghost function Flow(e: Event, self: Address): int {
    match e
    case Deposited(v) => v
    case Received(v) => v
    case Paid(a, amount) => (if a == self then 0 else 0 - amount)
    case _ => 0
  }

  /** Every wei that came in, less every wei that left for another address. */
  ghost function Funds(h: seq<Event>, self: Address): int
  {
    if h == [] then 0 else Funds(Prev(h), self) + Flow(h[|h| - 1], self)
  }

  // ---- The pool's liabilities ----

  ghost function Owed(i: Agent, cum: int): int {
    i.weight * (cum - i.snapshot) + SCALE * i.pending
  }

  ghost function OwedMap(p: Pool): map<Address, int> {
    map a | a in p.agents :: Owed(p.agents[a], p.cum)
  }

  ghost function WeightMap(p: Pool): map<Address, int> {
    map a | a in p.agents :: p.agents[a].weight
  }

  /** Everything the pool owes its agents, in scaled wei. */
  ghost function Liabilities(p: Pool): int {
    Sum(OwedMap(p))
  }

  ghost function Excess(p: Pool): int {
    SCALE * p.balance - Liabilities(p)
  }

  /** What an agent has been paid, has pending and has not had settled yet, in scaled wei. */
  ghost function Entitled(p: Pool, a: Address): int {
    SCALE * PaidTo(p.history, a) + Owed(Info(p, a), p.cum)
  }

  // ---- Invariants ----

  ghost predicate WeightsAgree(p: Pool) {
    && WeightMap(p) == WeightsOf(p.history)
    && p.totalWeight == TotalOf(p.history)
    && forall a :: a in p.agents ==> p.agents[a].snapshot <= p.cum
  }

  /** The counter and the snapshots are those the history gives. */
  ghost predicate Replayed(p: Pool) {
    p.cum == CumOf(p.history) && forall a :: Info(p, a).snapshot == SnapOf(p.history, a)
  }

  ghost predicate DustExact(p: Pool) {
    Excess(p) == Undistributed(p.history, p.self) + AllDropped(p.history)
  }

  /** What naive crediting gives an agent is its entitlement and what it has lost. */
  ghost predicate ShareExact(p: Pool, a: Address) {
    SCALE as real * NaiveCredit(p.history, a)
      == (Entitled(p, a) + SettlementLoss(p.history, a)) as real + DepositLoss(p.history, a)
  }

  ghost predicate Ledger(p: Pool) {
    && WeightsAgree(p) && Replayed(p) && DustExact(p)
    && 0 <= Undistributed(p.history, p.self) && p.balance == Funds(p.history, p.self)
  }

  ghost predicate Shares(p: Pool) {
    forall a :: ShareExact(p, a)
  }

  ghost predicate Inv(p: Pool) {
    Ledger(p) && Shares(p)
  }

  // ---- Arithmetic ----

  lemma QuotientBand(x: nat, d: nat)
    requires d > 0
    ensures x - d < d * (x / d) <= x
    ensures x == d * (x / d) + x % d
  {}

  lemma RateBand(value: nat, total: nat)
    requires total > 0
    ensures value * SCALE == total * Rate(value, total) + Remainder(value, total)
    ensures Remainder(value, total) < total
  {
    QuotientBand(value * SCALE, total);
  }

  /** A distributed deposit credits an agent its exact share but for its share of the remainder. */
  lemma NaiveShareStep(v: nat, w: nat, total: nat)
    requires total > 0
    ensures SCALE as real * ExactShare(v, w, total)
         == (w * Rate(v, total)) as real + ExactShare(Remainder(v, total), w, total)
  {
    var q, r := Rate(v, total), Remainder(v, total);
    RateBand(v, total);
    hide Rate, Remainder;
    var t := total as real;
    Cancel(v as real * w as real, t);
    Cancel(r as real * w as real, t);
    assert (v * SCALE) as real == t * q as real + r as real;
    var x, y := ExactShare(v, w, total), ExactShare(r, w, total);
    hide ExactShare;
    assert (SCALE as real * x) * t == (v * SCALE) as real * w as real;
    assert ((w * q) as real + y) * t == t * q as real * w as real + r as real * w as real;
    SameFactor(SCALE as real * x, (w * q) as real + y, t);
  }

  lemma Cancel(x: real, t: real)
    requires t > 0.0
    ensures x / t * t == x
  {}

  lemma SameFactor(x: real, y: real, t: real)
    requires t > 0.0 && x * t == y * t
    ensures x == y
  {}

  // ---- Each step keeps the invariant ----

  lemma Appended(h: seq<Event>, e: Event)
    ensures Prev(h + [e]) == h
  {}

  /** How an event moves the replayed counter and snapshots. */
  lemma ReplayStep(h: seq<Event>, e: Event)
    ensures CumOf(h + [e]) == CumOf(h) + if Distributes(h, e) then Rate(e.value, TotalOf(h)) else 0
    ensures forall a ::
      SnapOf(h + [e], a) == (if e == Settled(a) || (e.Weighed? && e.agent == a) then CumOf(h) else SnapOf(h, a))
  {
    Appended(h, e);
    hide Distributes, Rate, TotalOf;
  }

  lemma ReceiveLedger(p: Pool, value: uint256)
    requires Ledger(p)
    ensures Ledger(Receive(p, value))
  {
    var q := Receive(p, value);
    Appended(p.history, Received(value));
    ReplayStep(p.history, Received(value));
    hide Dropped, CumOf, SnapOf, Sum, Owed;
    assert OwedMap(q) == OwedMap(p);
    assert WeightMap(q) == WeightMap(p);
  }

  lemma ReceiveKeeps(p: Pool, value: uint256)
    requires Inv(p)
    ensures Inv(Receive(p, value))
  {
    hide Ledger, Dropped, Sum;
    ReceiveLedger(p, value);
    Appended(p.history, Received(value));
    forall a ensures ShareExact(Receive(p, value), a) {
      assert ShareExact(p, a);
    }
  }

  /** Raising the counter by q raises what is owed by exactly q for every unit of weight. */
  lemma LiabilitiesAfterRaise(p: Pool, cum: uint256, q: Pool)
    requires q.agents == p.agents && q.cum == cum >= p.cum
    ensures Liabilities(q) == Liabilities(p) + (cum - p.cum) * Sum(WeightMap(p))
  {
    var c := cum - p.cum;
    forall a | a in p.agents ensures OwedMap(q)[a] == OwedMap(p)[a] + Mul(c, WeightMap(p)[a]) {
      var i := p.agents[a];
      assert i.weight * (cum - i.snapshot) == i.weight * (p.cum - i.snapshot) + c * i.weight;
    }
    SumLinear(OwedMap(q), OwedMap(p), WeightMap(p), c);
  }

  /** What a deposit does to the pool, with the division out of the way. */
  lemma DistributeEffect(p: Pool, value: uint256)
    requires Distribute(p, value).Some?
    ensures
      var q := Distribute(p, value).value;
      && q == p.(cum := q.cum, balance := p.balance + value, history := p.history + [Deposited(value)])
      && q.cum == p.cum + if p.totalWeight > 0 && value > 0 then Rate(value, p.totalWeight) else 0
  {
    hide Rate;
  }

  /** A distributed deposit leaves exactly its remainder behind, any other deposit all of it. */
  lemma DistributeExcess(p: Pool, value: uint256)
    requires WeightsAgree(p) && Distribute(p, value).Some?
    ensures
      var q := Distribute(p, value).value;
      Excess(q) - Excess(p)
        == if p.totalWeight > 0 && value > 0 then Remainder(value, p.totalWeight) else value * SCALE
  {
    hide Distribute, Liabilities, WeightsOf, Rate, Remainder;
    DistributeEffect(p, value);
    var q := Distribute(p, value).value;
    LiabilitiesAfterRaise(p, q.cum, q);
    assert Sum(WeightMap(p)) == p.totalWeight;
    var rise := q.cum - p.cum;
    assert Liabilities(q) == Liabilities(p) + rise * p.totalWeight;
    if p.totalWeight > 0 && value > 0 {
      RateBand(value, p.totalWeight);
      Commute(p.totalWeight, rise);
    }
  }

  lemma Commute(x: int, y: int)
    ensures x * y == y * x
  {}

  lemma DistributeReplayed(p: Pool, value: uint256)
    requires WeightsAgree(p) && Replayed(p) && Distribute(p, value).Some?
    ensures Replayed(Distribute(p, value).value)
  {
    hide Distribute, Rate, CumOf, SnapOf;
    DistributeEffect(p, value);
    ReplayStep(p.history, Deposited(value));
  }

  lemma DistributeLedger(p: Pool, value: uint256)
    requires Ledger(p) && Distribute(p, value).Some?
    ensures Ledger(Distribute(p, value).value)
  {
    hide Distribute, Excess, Rate, Remainder, Replayed;
    DistributeEffect(p, value);
    DistributeExcess(p, value);
    DistributeReplayed(p, value);
    var q := Distribute(p, value).value;
    Appended(p.history, Deposited(value));
    assert WeightMap(q) == WeightMap(p);
  }

  lemma DistributeKeeps(p: Pool, value: uint256)
    requires Inv(p) && Distribute(p, value).Some?
    ensures Inv(Distribute(p, value).value)
  {
    hide Distribute, WeightsAgree, Replayed, DustExact, ShareExact;
    DistributeLedger(p, value);
    forall a ensures ShareExact(Distribute(p, value).value, a) {
      DistributeShare(p, value, a);
    }
  }

  lemma DistributeEntitled(p: Pool, value: uint256, a: Address)
    requires Distribute(p, value).Some?
    ensures
      var q := Distribute(p, value).value;
      Entitled(q, a) == Entitled(p, a) + Info(p, a).weight * (q.cum - p.cum)
  {
    hide Distribute, Rate;
    DistributeEffect(p, value);
    var q := Distribute(p, value).value;
    Appended(p.history, Deposited(value));
    var i := Info(p, a);
    assert Info(q, a) == i;
    assert i.weight * (q.cum - i.snapshot) == i.weight * (p.cum - i.snapshot) + i.weight * (q.cum - p.cum);
  }

  lemma ZeroShare(w: real, total: real)
    requires total > 0.0
    ensures 0.0 * w / total == 0.0
  {}

  /** How a deposit moves the replayed quantities. */
  lemma DepositReplay(h: seq<Event>, value: nat, a: Address)
    ensures
      var after := h + [Deposited(value)];
      var w, total := Get(WeightsOf(h), a), TotalOf(h);
      && NaiveCredit(after, a) == NaiveCredit(h, a) + (if total > 0 then ExactShare(value, w, total) else 0.0)
      && DepositLoss(after, a) == DepositLoss(h, a)
        + (if total > 0 && value > 0 then ExactShare(Remainder(value, total), w, total) else 0.0)
      && SettlementLoss(after, a) == SettlementLoss(h, a)
  {
    Appended(h, Deposited(value));
  }

  lemma DistributeShare(p: Pool, value: uint256, a: Address)
    requires WeightsAgree(p) && ShareExact(p, a) && Distribute(p, value).Some?
    ensures ShareExact(Distribute(p, value).value, a)
  {
    hide Distribute, ExactShare, Rate, Remainder, WeightsOf, Entitled, NaiveCredit, DepositLoss, SettlementLoss;
    DistributeEffect(p, value);
    WeightReplayed(p, a);
    DistributeEntitled(p, value, a);
    DepositReplay(p.history, value, a);
    if p.totalWeight > 0 {
      if value > 0 {
        NaiveShareStep(value, Info(p, a).weight, p.totalWeight);
      } else {
        NothingToShare(Info(p, a).weight, p.totalWeight);
      }
    }
  }

  lemma NothingToShare(w: nat, total: nat)
    requires total > 0
    ensures ExactShare(0, w, total) == 0.0
  {
    ZeroShare(w as real, total as real);
  }

  lemma WeightReplayed(p: Pool, a: Address)
    requires WeightsAgree(p)
    ensures Get(WeightsOf(p.history), a) == Info(p, a).weight
  {
    assert WeightMap(p) == WeightsOf(p.history);
  }

  /** Replacing one agent's record changes what is owed by the difference of the two records. */
  lemma LiabilitiesAfterUpdate(p: Pool, q: Pool, a: Address, i: Agent)
    requires q.agents == p.agents[a := i] && q.cum == p.cum
    ensures Liabilities(q) == Liabilities(p) - Owed(Info(p, a), p.cum) + Owed(i, p.cum)
    ensures WeightMap(q) == WeightMap(p)[a := i.weight]
  {
    assert OwedMap(q) == OwedMap(p)[a := Owed(i, p.cum)];
    SumUpdate(OwedMap(p), a, Owed(i, p.cum));
  }

  /** Settling floors: it drops what does not make a whole wei of the accrued reward. */
  lemma SettledOwed(i: Agent, cum: uint256, pending: uint256)
    requires i.snapshot <= cum && pending == i.pending + i.weight * (cum - i.snapshot) / SCALE
    ensures Owed(Agent(i.weight, cum, pending), cum) == Owed(i, cum) - i.weight * (cum - i.snapshot) % SCALE
  {
    NaturalProduct(i.weight, cum - i.snapshot);
    QuotientBand(i.weight * (cum - i.snapshot), SCALE);
    assert i.weight * (cum - cum) == 0;
  }

  lemma DroppedIs(p: Pool, a: Address)
    requires WeightsAgree(p) && Replayed(p)
    ensures Dropped(p.history, a) == Info(p, a).weight * (p.cum - Info(p, a).snapshot) % SCALE
  {
    WeightReplayed(p, a);
  }

  /** A settlement adds to the excess exactly what it drops, less than one wei. */
  lemma SettleExcess(p: Pool, a: Address)
    requires WeightsAgree(p) && Replayed(p) && Settle(p, a).Some? && Settle(p, a).value != p
    ensures Excess(Settle(p, a).value) - Excess(p) == Dropped(p.history, a)
    ensures 0 <= Dropped(p.history, a) < SCALE
  {
    var q := Settle(p, a).value;
    DroppedIs(p, a);
    hide Dropped, Liabilities, Owed;
    LiabilitiesAfterUpdate(p, q, a, q.agents[a]);
    SettledOwed(Info(p, a), p.cum, q.agents[a].pending);
  }

  lemma SettleWeights(p: Pool, a: Address)
    requires WeightsAgree(p) && Settle(p, a).Some?
    ensures WeightsAgree(Settle(p, a).value)
  {
    var q := Settle(p, a).value;
    if q != p {
      Appended(p.history, Settled(a));
      assert WeightMap(q) == WeightMap(p);
    }
  }

  lemma SettleLedger(p: Pool, a: Address)
    requires Ledger(p) && Settle(p, a).Some?
    ensures Ledger(Settle(p, a).value)
  {
    SettleWeights(p, a);
    SettleReplayed(p, a);
    if Settle(p, a).value != p {
      SettleExcess(p, a);
      Appended(p.history, Settled(a));
      hide Sum, Info, Accrued, TotalOf, WeightsOf, WeightsAgree, Replayed, Dropped, Excess, CheckedAdd;
    }
  }

  lemma SettleReplayed(p: Pool, a: Address)
    requires Replayed(p) && Settle(p, a).Some?
    ensures Replayed(Settle(p, a).value)
  {
    hide Accrued, CheckedAdd, CumOf, SnapOf;
    ReplayStep(p.history, Settled(a));
  }

  lemma SettleShare(p: Pool, a: Address, b: Address)
    requires Ledger(p) && ShareExact(p, b) && Settle(p, a).Some?
    ensures ShareExact(Settle(p, a).value, b)
  {
    var q := Settle(p, a).value;
    var h := p.history;
    if q != p {
      Appended(h, Settled(a));
      DroppedIs(p, a);
      SettledOwed(Info(p, a), p.cum, q.agents[a].pending);
      hide Dropped, Owed, Accrued, CheckedAdd;
      assert NaiveCredit(q.history, b) == NaiveCredit(h, b) && DepositLoss(q.history, b) == DepositLoss(h, b);
      assert Entitled(q, b) - Entitled(p, b) == Owed(Info(q, b), p.cum) - Owed(Info(p, b), p.cum);
    }
  }

  lemma SettleKeeps(p: Pool, a: Address)
    requires Inv(p) && Settle(p, a).Some?
    ensures Inv(Settle(p, a).value)
  {
    SettleLedger(p, a);
    forall b ensures ShareExact(Settle(p, a).value, b) {
      SettleShare(p, a, b);
    }
  }

  lemma ReweighedOwed(i: Agent, cum: uint256, weight: uint256)
    requires i.weight > 0 ==> i.snapshot == cum
    ensures Owed(Agent(weight, cum, i.pending), cum) == Owed(i, cum)
  {
    assert weight * (cum - cum) == 0;
    if i.weight == 0 {
      assert i.weight * (cum - i.snapshot) == 0;
    } else {
      assert i.weight * (cum - i.snapshot) == 0;
    }
  }

  lemma ReweighReplayed(p: Pool, a: Address, weight: uint256)
    requires Replayed(p) && Reweigh(p, a, weight).Some?
    ensures Replayed(Reweigh(p, a, weight).value)
  {
    hide CumOf, SnapOf;
    ReplayStep(p.history, Weighed(a, weight));
  }

  lemma ReweighLedger(p: Pool, a: Address, weight: uint256)
    requires Ledger(p) && Reweigh(p, a, weight).Some?
    requires Info(p, a).weight > 0 ==> Info(p, a).snapshot == p.cum
    ensures Ledger(Reweigh(p, a, weight).value)
  {
    hide Owed, Liabilities, Replayed;
    ReweighReplayed(p, a, weight);
    var q := Reweigh(p, a, weight).value;
    Appended(p.history, Weighed(a, weight));
    LiabilitiesAfterUpdate(p, q, a, q.agents[a]);
    ReweighedOwed(Info(p, a), p.cum, weight);
    SumUpdate(WeightsOf(p.history), a, weight);
  }

  lemma ReweighShare(p: Pool, a: Address, weight: uint256, b: Address)
    requires ShareExact(p, b) && Reweigh(p, a, weight).Some?
    requires Info(p, a).weight > 0 ==> Info(p, a).snapshot == p.cum
    ensures ShareExact(Reweigh(p, a, weight).value, b)
  {
    hide Owed;
    Appended(p.history, Weighed(a, weight));
    ReweighedOwed(Info(p, a), p.cum, weight);
  }

  lemma ReweighKeeps(p: Pool, a: Address, weight: uint256)
    requires Inv(p) && Reweigh(p, a, weight).Some?
    requires Info(p, a).weight > 0 ==> Info(p, a).snapshot == p.cum
    ensures Inv(Reweigh(p, a, weight).value)
  {
    hide Reweigh, Ledger, ShareExact;
    ReweighLedger(p, a, weight);
    forall b ensures ShareExact(Reweigh(p, a, weight).value, b) {
      ReweighShare(p, a, weight, b);
    }
  }

  lemma PaidOwed(i: Agent, cum: uint256)
    ensures Owed(i.(pending := 0), cum) == Owed(i, cum) - SCALE * i.pending
  {}

  lemma PayReplayed(p: Pool, a: Address)
    requires Replayed(p) && Info(p, a).pending <= p.balance
    ensures Replayed(Pay(p, a))
  {
    hide CumOf, SnapOf;
    ReplayStep(p.history, Paid(a, Info(p, a).pending));
  }

  lemma PayLedger(p: Pool, a: Address)
    requires Ledger(p) && Info(p, a).pending <= p.balance && a in p.agents
    ensures Ledger(Pay(p, a))
  {
    hide Owed, Liabilities, Replayed;
    PayReplayed(p, a);
    var q := Pay(p, a);
    var i := Info(p, a);
    Appended(p.history, Paid(a, i.pending));
    LiabilitiesAfterUpdate(p, q, a, i.(pending := 0));
    PaidOwed(i, p.cum);
    assert WeightMap(q) == WeightMap(p);
  }

  lemma PayShare(p: Pool, a: Address, b: Address)
    requires ShareExact(p, b) && Info(p, a).pending <= p.balance
    ensures ShareExact(Pay(p, a), b)
  {
    hide Owed;
    Appended(p.history, Paid(a, Info(p, a).pending));
    PaidOwed(Info(p, a), p.cum);
  }

  lemma PayKeeps(p: Pool, a: Address)
    requires Inv(p) && Info(p, a).pending <= p.balance && a in p.agents
    ensures Inv(Pay(p, a))
  {
    hide Pay, Ledger, ShareExact;
    PayLedger(p, a);
    forall b ensures ShareExact(Pay(p, a), b) {
      PayShare(p, a, b);
    }
  }

  // ---- Entry points ----

  lemma {:induction false} SettleAllKeeps(p: Pool, agents: seq<Address>, weights: seq<uint256>)
    requires Inv(p) && |agents| == |weights| && SettleAll(p, agents, weights).Some?
    ensures Inv(SettleAll(p, agents, weights).value)
    decreases |agents|
  {
    if agents != [] {
      SettleKeeps(p, agents[0]);
      var s := Settle(p, agents[0]).value;
      ReweighKeeps(s, agents[0], weights[0]);
      SettleAllKeeps(Reweigh(s, agents[0], weights[0]).value, agents[1..], weights[1..]);
    }
  }

  lemma ClaimOneKeeps(p: Pool, a: Address, accepts: bool)
    requires Inv(p) && ClaimOne(p, a, accepts).Some?
    ensures Inv(ClaimOne(p, a, accepts).value)
  {
    SettleKeeps(p, a);
    var s := Settle(p, a).value;
    var amount := Info(s, a).pending;
    if amount > 0 && TransferSucceeds(s, amount, accepts) {
      PayKeeps(s, a);
    }
  }

  lemma CollectKeeps(p: Pool, a: Address, accepts: bool)
    requires Inv(p)
    ensures Collect(p, a, accepts).Some? ==> Inv(Collect(p, a, accepts).value)
  {
    if Collect(p, a, accepts).Some? {
      PayKeeps(p, a);
    }
  }

  lemma {:induction false} ClaimAllKeeps(p: Pool, agents: seq<Address>, accepts: seq<bool>)
    requires Inv(p) && |agents| == |accepts| && ClaimAll(p, agents, accepts).Some?
    ensures Inv(ClaimAll(p, agents, accepts).value)
    decreases |agents|
  {
    if agents != [] {
      ClaimOneKeeps(p, agents[0], accepts[0]);
      ClaimAllKeeps(ClaimOne(p, agents[0], accepts[0]).value, agents[1..], accepts[1..]);
    }
  }

  lemma SetCoordinatorKeeps(p: Pool, next: Address)
    requires Inv(p)
    ensures Inv(p.(coordinator := next))
  {
    var q := p.(coordinator := next);
    assert OwedMap(q) == OwedMap(p) && WeightMap(q) == WeightMap(p);
    forall a ensures ShareExact(q, a) {
      assert ShareExact(p, a);
      assert Info(q, a) == Info(p, a);
    }
  }

  lemma DepositAndSettleKeeps(p: Pool, caller: Address, value: uint256, agents: seq<Address>, weights: seq<uint256>)
    requires Inv(p) && DepositAndSettle(p, caller, value, agents, weights).Some?
    ensures Inv(DepositAndSettle(p, caller, value, agents, weights).value)
  {
    DistributeKeeps(p, value);
    SettleAllKeeps(Distribute(p, value).value, agents, weights);
  }

  lemma ExecKeeps(p: Pool, tx: Tx)
    requires Inv(p)
    ensures Inv(Exec(p, tx))
  {
    if Attempt(p, tx).Some? {
      match tx
      case TxDeposit(caller, value, agents, weights) =>
        DepositAndSettleKeeps(p, caller, value, agents, weights);
      case TxDepositAndClaim(caller, value, agents, weights, claimees, accepts) =>
        DepositAndSettleKeeps(p, caller, value, agents, weights);
        ClaimAllKeeps(DepositAndSettle(p, caller, value, agents, weights).value, claimees, accepts);
      case TxClaim(caller, accept) =>
        CollectKeeps(p, caller, accept);
      case TxClaimFor(a, _, accept) =>
        CollectKeeps(p, a, accept);
      case TxBatchClaim(claimees, accepts) =>
        ClaimAllKeeps(p, claimees, accepts);
      case TxReceive(value) =>
        ReceiveKeeps(p, value);
      case TxSetCoordinator(caller, next) =>
        SetCoordinatorKeeps(p, next);
    }
  }

  lemma InitHolds(self: Address, coordinator: Address)
    ensures Inv(Init(self, coordinator))
  {
    var p := Init(self, coordinator);
    assert OwedMap(p) == map[] && WeightMap(p) == map[];
    forall a ensures ShareExact(p, a) {}
  }

  lemma {:induction false} RunKeeps(p: Pool, txs: seq<Tx>)
    requires Inv(p)
    ensures Inv(Run(p, txs))
    decreases |txs|
  {
    if txs != [] {
      ExecKeeps(p, txs[0]);
      RunKeeps(Exec(p, txs[0]), txs[1..]);
    }
  }

  // ---- What agents could claim ----

  ghost function ClaimableMap(p: Pool): map<Address, int> {
    map a | a in p.agents :: Payable(p.agents[a], p.cum)
  }

  lemma NaturalProduct(w: nat, d: nat)
    ensures 0 <= w * d
  {}

  ghost function Payable(i: Agent, cum: int): int {
    i.pending + i.weight * (cum - i.snapshot) / SCALE
  }

  lemma PayableWithinOwed(i: Agent, cum: uint256)
    requires i.snapshot <= cum
    ensures 0 <= SCALE * Payable(i, cum) <= Owed(i, cum)
  {
    NaturalProduct(i.weight, cum - i.snapshot);
    QuotientBand(i.weight * (cum - i.snapshot), SCALE);
  }

  /** Rounding every agent's entitlement down to whole wei cannot exceed the scaled total. */
  lemma ClaimableWithinLiabilities(p: Pool)
    requires WeightsAgree(p)
    ensures SCALE * Sum(ClaimableMap(p)) <= Liabilities(p)
    ensures forall a :: a in p.agents ==> 0 <= ClaimableMap(p)[a]
  {
    var m := ClaimableMap(p);
    var scaled := map a | a in m :: SCALE * m[a];
    forall a | a in p.agents ensures 0 <= SCALE * m[a] <= OwedMap(p)[a] {
      PayableWithinOwed(p.agents[a], p.cum);
    }
    SumScale(scaled, m, SCALE);
    SumMonotone(scaled, OwedMap(p));
  }

  // ---- What was lost, bounded ----

  lemma {:induction false} WeightsAreNatural(h: seq<Event>, a: Address)
    ensures 0 <= Get(WeightsOf(h), a)
    decreases |h|
  {
    if h != [] {
      WeightsAreNatural(Prev(h), a);
    }
  }

  lemma ShareBounds(r: nat, w: nat, total: nat)
    requires r < total
    ensures 0.0 <= ExactShare(r, w, total) <= w as real
    ensures ExactShare(r, w, total) == 0.0 <==> r == 0 || w == 0
  {
    var x, t := ExactShare(r, w, total), total as real;
    Cancel(r as real * w as real, t);
    hide ExactShare;
    assert x * t == r as real * w as real;
    NonNegativeFactor(x, t);
    assert (w as real - x) * t == (t - r as real) * w as real;
    NonNegativeFactor(w as real - x, t);
  }

  lemma NonNegativeFactor(d: real, t: real)
    requires t > 0.0 && 0.0 <= d * t
    ensures 0.0 <= d
  {}

  lemma {:induction false} DepositLossBounds(h: seq<Event>, a: Address)
    ensures 0.0 <= DepositLoss(h, a) <= WeightInInexact(h, a) as real
    decreases |h|
  {
    if h != [] {
      DepositLossBounds(Prev(h), a);
      var e := h[|h| - 1];
      if Distributes(Prev(h), e) {
        WeightsAreNatural(Prev(h), a);
        RateBand(e.value, TotalOf(Prev(h)));
        hide Rate, Remainder, ExactShare, WeightsOf, TotalOf;
        ShareBounds(Remainder(e.value, TotalOf(Prev(h))), Get(WeightsOf(Prev(h)), a), TotalOf(Prev(h)));
      }
    }
  }

  lemma {:induction false} SettlementLossBounds(h: seq<Event>, a: Address)
    ensures 0 <= SettlementLoss(h, a) <= (SCALE - 1) * Settlements(h, a)
    decreases |h|
  {
    if h != [] {
      SettlementLossBounds(Prev(h), a);
    }
  }

  lemma {:induction false} AllDroppedBounds(h: seq<Event>)
    ensures 0 <= AllDropped(h) <= (SCALE - 1) * AllSettlements(h)
    decreases |h|
  {
    if h != [] {
      AllDroppedBounds(Prev(h));
    }
  }

  /** The event takes something from the agent: a distributed deposit that leaves a remainder while the agent has
    * weight, or a settlement of the agent that drops a part of a wei. */
  ghost predicate Takes(h: seq<Event>, e: Event, a: Address) {
    || (Distributes(h, e) && Get(WeightsOf(h), a) > 0 && Remainder(e.value, TotalOf(h)) != 0)
    || (e == Settled(a) && Dropped(h, a) != 0)
  }

  ghost predicate LosesNothing(h: seq<Event>, a: Address) {
    forall i :: 0 <= i < |h| ==> !Takes(h[..i], h[i], a)
  }

  lemma LosesNothingStep(h: seq<Event>, a: Address)
    requires h != []
    ensures LosesNothing(h, a) <==> LosesNothing(Prev(h), a) && !Takes(Prev(h), h[|h| - 1], a)
  {
    hide Takes;
    assert forall i :: 0 <= i < |h| - 1 ==> h[..i] == Prev(h)[..i] && h[i] == Prev(h)[i];
  }

  lemma {:induction false} LossIsZeroIff(h: seq<Event>, a: Address)
    ensures DepositLoss(h, a) + SettlementLoss(h, a) as real == 0.0 <==> LosesNothing(h, a)
    decreases |h|
  {
    if h != [] {
      var e := h[|h| - 1];
      LossIsZeroIff(Prev(h), a);
      LosesNothingStep(h, a);
      DepositLossBounds(Prev(h), a);
      SettlementLossBounds(Prev(h), a);
      if Distributes(Prev(h), e) {
        WeightsAreNatural(Prev(h), a);
        RateBand(e.value, TotalOf(Prev(h)));
        hide Rate, Remainder, ExactShare, WeightsOf, TotalOf, LosesNothing;
        ShareBounds(Remainder(e.value, TotalOf(Prev(h))), Get(WeightsOf(Prev(h)), a), TotalOf(Prev(h)));
      }
    }
  }

  // ---- Main results ----

  lemma RunHolds(self: Address, coordinator: Address, txs: seq<Tx>)
    ensures Inv(Run(Init(self, coordinator), txs)) && Run(Init(self, coordinator), txs).self == self
  {
    hide Inv, Run;
    InitHolds(self, coordinator);
    RunKeeps(Init(self, coordinator), txs);
    WeightlessIsFrozen(Init(self, coordinator), txs, self);
  }

  lemma SolventNow(p: Pool)
    requires Ledger(p)
    ensures Liabilities(p) <= SCALE * p.balance && Sum(ClaimableMap(p)) <= p.balance
    ensures p.totalWeight == Sum(WeightMap(p)) && forall a :: Info(p, a).snapshot <= p.cum
  {
    hide Liabilities, Replayed, Sum, WeightMap, ClaimableMap, Undistributed, AllDropped, Funds;
    AllDroppedBounds(p.history);
    ClaimableWithinLiabilities(p);
  }

  /** After any run the pool holds at least what it owes, so at least what all agents together could
    * claim; the stored total weight is the sum of the stored weights and no snapshot is ahead of the counter. */
  lemma Solvency(self: Address, coordinator: Address, txs: seq<Tx>)
    ensures
      var p := Run(Init(self, coordinator), txs);
      && Liabilities(p) <= SCALE * p.balance
      && Sum(ClaimableMap(p)) <= p.balance
      && p.totalWeight == Sum(WeightMap(p))
      && forall a :: Info(p, a).snapshot <= p.cum
  {
    hide Ledger, Run, Liabilities, Sum, WeightMap, ClaimableMap;
    RunHolds(self, coordinator, txs);
    SolventNow(Run(Init(self, coordinator), txs));
  }

  /** After any run, what the pool holds beyond its debts is exactly the undistributable money with the
    * deposits' remainders, and what the settlements dropped, less than one wei each. */
  lemma DustIsExact(self: Address, coordinator: Address, txs: seq<Tx>)
    ensures
      var p := Run(Init(self, coordinator), txs);
      && SCALE * p.balance - Liabilities(p) == Undistributed(p.history, self) + AllDropped(p.history)
      && 0 <= AllDropped(p.history) <= (SCALE - 1) * AllSettlements(p.history)
      && p.balance == Funds(p.history, self)
  {
    hide Run, Liabilities, WeightsAgree, Replayed, Shares, Undistributed, AllDropped, Funds;
    RunHolds(self, coordinator, txs);
    AllDroppedBounds(Run(Init(self, coordinator), txs).history);
  }

  /** After any run, the rewards of any agent fall short of crediting every deposit exactly by its share of the
    * remainder of every distributed deposit and by what every settlement of it dropped, and by nothing else. */
  lemma ShortfallIsExact(self: Address, coordinator: Address, txs: seq<Tx>, a: Address)
    ensures
      var p := Run(Init(self, coordinator), txs);
      SCALE as real * NaiveCredit(p.history, a) - Entitled(p, a) as real
        == DepositLoss(p.history, a) + SettlementLoss(p.history, a) as real
  {
    hide Run, Ledger, NaiveCredit, DepositLoss, SettlementLoss;
    RunHolds(self, coordinator, txs);
    assert ShareExact(Run(Init(self, coordinator), txs), a);
  }

  /** So rewards never exceed exact crediting, and fall short by less than one wei for each settlement plus, for each
    * deposit the total weight does not divide, at most the agent's weight in scaled wei. */
  lemma RefinesNaiveCrediting(self: Address, coordinator: Address, txs: seq<Tx>, a: Address)
    ensures
      var p := Run(Init(self, coordinator), txs);
      var exact := SCALE as real * NaiveCredit(p.history, a);
      && Entitled(p, a) as real <= exact
      && exact <= (Entitled(p, a) + (SCALE - 1) * Settlements(p.history, a) + WeightInInexact(p.history, a)) as real
  {
    hide Run, Entitled, NaiveCredit, DepositLoss, SettlementLoss, Settlements, WeightInInexact;
    ShortfallIsExact(self, coordinator, txs, a);
    var h := Run(Init(self, coordinator), txs).history;
    DepositLossBounds(h, a);
    SettlementLossBounds(h, a);
  }

  /** After any run an agent has exactly what naive crediting gives it if and only if no deposit distributed while
    * it had weight left a remainder and no settlement of it dropped anything. */
  lemma ShareIsExactIff(self: Address, coordinator: Address, txs: seq<Tx>, a: Address)
    ensures
      var p := Run(Init(self, coordinator), txs);
      SCALE as real * NaiveCredit(p.history, a) == Entitled(p, a) as real <==> LosesNothing(p.history, a)
  {
    hide Run, Entitled, NaiveCredit, DepositLoss, SettlementLoss, LosesNothing;
    ShortfallIsExact(self, coordinator, txs, a);
    LossIsZeroIff(Run(Init(self, coordinator), txs).history, a);
  }

  lemma {:induction false} UnsettledAt(h: seq<Event>, a: Address, i: nat)
    requires Settlements(h, a) == 0 && i < |h|
    ensures h[i] != Settled(a)
    decreases |h|
  {
    if i < |h| - 1 {
      UnsettledAt(Prev(h), a, i);
      assert Prev(h)[i] == h[i];
    }
  }

  /** An agent that was never settled has its exact share if and only if the total weight divided the scaled value of
    * every deposit distributed while it had weight. */
  lemma UnsettledShareIsExactIff(self: Address, coordinator: Address, txs: seq<Tx>, a: Address)
    requires Settlements(Run(Init(self, coordinator), txs).history, a) == 0
    ensures
      var p := Run(Init(self, coordinator), txs);
      var h := p.history;
      SCALE as real * NaiveCredit(h, a) == Entitled(p, a) as real
      <==> (forall i :: 0 <= i < |h| && Distributes(h[..i], h[i]) && Get(WeightsOf(h[..i]), a) > 0 ==>
        h[i].value * SCALE % TotalOf(h[..i]) == 0)
  {
    hide Run, Entitled, NaiveCredit, Dropped, WeightsOf, TotalOf, Settlements;
    ShareIsExactIff(self, coordinator, txs, a);
    var h := Run(Init(self, coordinator), txs).history;
    forall i | 0 <= i < |h| ensures h[i] != Settled(a) {
      UnsettledAt(h, a, i);
    }
    assert LosesNothing(h, a) ==> forall i :: 0 <= i < |h| ==> !Takes(h[..i], h[i], a);
  }

  /** Settlements alone do not account for the shortfall: a deposit of one wei over a total weight
    * of two units of scale is lost to the agent without any settlement of it. */
  lemma ShortfallWithoutSettlement(self: Address, c: Address, a: Address)
    ensures
      var w: uint256 := 2 * SCALE;
      var p := Run(Init(self, c), [TxDeposit(c, 0, [a], [w]), TxDeposit(c, 1, [], [])]);
      && Settlements(p.history, a) == 0
      && Entitled(p, a) == 0
      && NaiveCredit(p.history, a) == 1.0
  {
    var w: uint256 := 2 * SCALE;
    LostWeiRun(self, c, a, w);
    LostWeiHistory(a, w);
    hide Run, NaiveCredit, Settlements, PaidTo;
  }

  lemma LostWeiRun(self: Address, c: Address, a: Address, w: uint256)
    requires w == 2 * SCALE
    ensures Run(Init(self, c), [TxDeposit(c, 0, [a], [w]), TxDeposit(c, 1, [], [])])
         == Pool(self, c, 0, w, map[a := Agent(w, 0, 0)], 1, [Deposited(0), Weighed(a, w), Deposited(1)])
  {
    var first, second := TxDeposit(c, 0, [a], [w]), TxDeposit(c, 1, [], []);
    var p0 := Init(self, c);
    var p1 := Pool(self, c, 0, w, map[a := Agent(w, 0, 0)], 0, [Deposited(0), Weighed(a, w)]);
    assert Exec(p0, first) == p1 by {
      var d := Distribute(p0, 0).value;
      assert SettleAll(d, [a], [w]) == SettleAll(Reweigh(d, a, w).value, [], []);
    }
    var p2 := p1.(balance := 1, history := p1.history + [Deposited(1)]);
    assert SCALE / w == 0;
    assert Exec(p1, second) == p2;
    assert Run(p0, [first, second]) == Run(p1, [second]) == Run(p2, []) == p2;
  }

  lemma LostWeiHistory(a: Address, w: uint256)
    requires w == 2 * SCALE
    ensures
      var h := [Deposited(0), Weighed(a, w), Deposited(1)];
      Settlements(h, a) == 0 && PaidTo(h, a) == 0 && NaiveCredit(h, a) == 1.0
  {
    var h0: seq<Event> := [];
    var h1 := h0 + [Deposited(0)];
    var h2 := h1 + [Weighed(a, w)];
    assert [Deposited(0), Weighed(a, w), Deposited(1)] == h2 + [Deposited(1)];
    Appended(h0, Deposited(0));
    Appended(h1, Weighed(a, w));
    Appended(h2, Deposited(1));
    assert WeightsOf(h1) == map[];
    assert WeightsOf(h2) == map[a := w];
    SumUpdate(map[], a, w);
    assert TotalOf(h2) == w;
    assert ExactShare(1, w, w) == 1.0;
    assert Settlements(h2, a) == Settlements(h1, a) == 0;
    assert PaidTo(h2, a) == PaidTo(h1, a) == 0;
    assert NaiveCredit(h2, a) == NaiveCredit(h1, a) == 0.0;
  }

  // ---- What a claim does ----

  /** In a reachable pool a round of the batch loops fails only if the claimable amount overflows, and pays whenever
    * something is claimable and the recipient takes it: the pool never lacks the funds. */
  lemma ClaimNeverLacksFunds(p: Pool, a: Address, accepts: bool)
    requires Inv(p)
    ensures ClaimOne(p, a, accepts).Some? <==> Claimable(p, a).Some?
    ensures Claimable(p, a).Some? ==>
      var s := Settle(p, a).value;
      Settle(p, a).Some? && Info(s, a).pending == Claimable(p, a).value <= s.balance
      && ClaimOne(p, a, accepts) == Some(if Claimable(p, a).value > 0 && accepts then Pay(s, a) else s)
  {
    if Settle(p, a).Some? {
      SettleMakesPending(p, a, a);
      SettleKeeps(p, a);
      PendingWithinBalance(Settle(p, a).value, a);
      hide Inv, Claimable, Settle;
    }
  }

  lemma PendingWithinPayable(i: Agent, cum: uint256)
    requires i.snapshot <= cum
    ensures i.pending <= Payable(i, cum)
  {
    NaturalProduct(i.weight, cum - i.snapshot);
  }

  lemma PendingWithinBalance(p: Pool, a: Address)
    requires Ledger(p)
    ensures Info(p, a).pending <= p.balance
  {
    SolventNow(p);
    ClaimableWithinLiabilities(p);
    hide Ledger, Sum, Liabilities, Payable;
    SumBoundsEntry(ClaimableMap(p), a);
    if a in p.agents {
      PendingWithinPayable(p.agents[a], p.cum);
    }
  }

  /** Settling turns what is claimable into pending and leaves nothing accrued; nobody else is moved. */
  lemma SettleMakesPending(p: Pool, a: Address, b: Address)
    requires Settle(p, a).Some?
    ensures
      var s := Settle(p, a).value;
      && Claimable(p, a) == Some(Info(s, a).pending)
      && s.balance == p.balance && s.self == p.self && s.cum == p.cum
      && (Info(s, a).weight > 0 ==> Info(s, a).snapshot == s.cum)
      && (b != a ==> Info(s, b) == Info(p, b))
      && PaidTo(s.history, b) == PaidTo(p.history, b)
  {
    Appended(p.history, Settled(a));
  }

  lemma NothingAccrued(i: Agent, cum: uint256)
    requires i.weight > 0 ==> i.snapshot == cum
    ensures i.weight > 0 ==> Accrued(i, cum) == Some(0)
  {}

  /** What a payment changes, for its agent and for another one. */
  lemma PayMoves(s: Pool, a: Address, b: Address)
    requires Info(s, a).pending <= s.balance
    ensures
      var q := Pay(s, a);
      && q.cum == s.cum && q.balance == s.balance - (if a == s.self then 0 else Info(s, a).pending)
      && Info(q, a) == Info(s, a).(pending := 0) && PaidTo(q.history, a) == PaidTo(s.history, a) + Info(s, a).pending
      && (b != a ==> Info(q, b) == Info(s, b) && PaidTo(q.history, b) == PaidTo(s.history, b))
  {
    Appended(s.history, Paid(a, Info(s, a).pending));
  }

  /** A round of the batch loops sends exactly the claimable amount to a recipient who takes it and leaves nothing
    * claimable; otherwise it leaves claimable what was; nobody else is moved. */
  lemma ClaimPaysClaimable(p: Pool, a: Address, accepts: bool, b: Address)
    requires Inv(p) && Claimable(p, a).Some?
    ensures ClaimOne(p, a, accepts).Some?
    ensures
      var q := ClaimOne(p, a, accepts).value;
      var amount := if accepts then Claimable(p, a).value else 0;
      && PaidTo(q.history, a) == PaidTo(p.history, a) + amount
      && q.balance == p.balance - (if a == p.self then 0 else amount)
      && Claimable(q, a) == Some(Claimable(p, a).value - amount)
      && (b != a ==> Claimable(q, b) == Claimable(p, b) && PaidTo(q.history, b) == PaidTo(p.history, b))
  {
    ClaimNeverLacksFunds(p, a, accepts);
    hide Settle, Accrued, Inv, ClaimOne, Pay, PaidTo, Info;
    var s := Settle(p, a).value;
    SettleMakesPending(p, a, a);
    SettleMakesPending(p, a, b);
    PayMoves(s, a, b);
    var q := ClaimOne(p, a, accepts).value;
    NothingAccrued(Info(q, a), q.cum);
  }

  // ---- Single claims ----

  /** claim() and claimFor(a) pay the claimable amount if and only if the agent has no weight, something is pending and
    * the recipient takes it; then nothing is left and nobody else is moved. Otherwise they change nothing at all. */
  lemma SingleClaimPaysIff(p: Pool, a: Address, tx: Tx, b: Address)
    requires Inv(p) && (tx.TxClaim? ==> tx.caller == a) && (tx.TxClaimFor? ==> tx.agent == a)
    requires tx.TxClaim? || tx.TxClaimFor?
    ensures
      var q := Exec(p, tx);
      var pays := Info(p, a).weight == 0 && Info(p, a).pending > 0 && tx.accept;
      && (pays <==> Claimable(p, a).Some? && Claimable(p, a).value > 0
                    && PaidTo(q.history, a) == PaidTo(p.history, a) + Claimable(p, a).value)
      && (!pays ==> q == p)
      && (pays ==>
        && q.balance == p.balance - (if a == p.self then 0 else Claimable(p, a).value)
        && Claimable(q, a) == Some(0)
        && (b != a ==> Claimable(q, b) == Claimable(p, b) && PaidTo(q.history, b) == PaidTo(p.history, b)))
  {
    PendingWithinBalance(p, a);
    Appended(p.history, Paid(a, Info(p, a).pending));
    hide Inv, Accrued, PaidTo;
    if Info(p, a).weight == 0 && Info(p, a).pending > 0 && tx.accept {
      PayMoves(p, a, b);
    }
  }

  /** A single claim of an agent with weight comes to nothing though there is something to claim: after a deposit of one
    * wei for an agent of weight one the view reports one wei and the pool has it; claim() fails, claimFor(a) succeeds
    * without paying, and a round of a batch pays. */
  lemma WeightedClaimComesToNothing(self: Address, c: Address, a: Address, slot: uint256)
    requires a != self && slot + 1 < UINT256_LIMIT
    ensures
      var p := Run(Init(self, c), [TxDeposit(c, 0, [a], [1]), TxDeposit(c, 1, [], [])]);
      && Claimable(p, a) == Some(1) && p.balance == 1
      && Claim(p, a, true) == None && ClaimFor(p, a, slot, true) == Some(p)
      && ClaimOne(p, a, true).Some? && ClaimOne(p, a, true).value.balance == 0
  {
    OneWeiRun(self, c, a);
    hide Run;
    var p := Pool(self, c, SCALE, 1, map[a := Agent(1, 0, 0)], 1, [Deposited(0), Weighed(a, 1), Deposited(1)]);
    assert Accrued(Info(p, a), p.cum) == Some(1);
    assert Settle(p, a) == Some(p.(agents := p.agents[a := Agent(1, SCALE, 1)], history := p.history + [Settled(a)]));
    assert Info(Settle(p, a).value, a) == Agent(1, SCALE, 1);
  }

  lemma OneWeiRun(self: Address, c: Address, a: Address)
    ensures Run(Init(self, c), [TxDeposit(c, 0, [a], [1]), TxDeposit(c, 1, [], [])])
         == Pool(self, c, SCALE, 1, map[a := Agent(1, 0, 0)], 1, [Deposited(0), Weighed(a, 1), Deposited(1)])
  {
    var first, second := TxDeposit(c, 0, [a], [1]), TxDeposit(c, 1, [], []);
    var p0 := Init(self, c);
    var p1 := Pool(self, c, 0, 1, map[a := Agent(1, 0, 0)], 0, [Deposited(0), Weighed(a, 1)]);
    assert Exec(p0, first) == p1 by {
      var d := Distribute(p0, 0).value;
      assert SettleAll(d, [a], [1]) == SettleAll(Reweigh(d, a, 1).value, [], []);
    }
    var p2 := p1.(cum := SCALE, balance := 1, history := p1.history + [Deposited(1)]);
    assert CheckedMul(1, SCALE) == Some(SCALE) && Rate(1, 1) == SCALE;
    assert Distribute(p1, 1) == Some(p2);
    assert SettleAll(p2, [], []) == Some(p2);
    assert Exec(p1, second) == p2;
    assert Run(p0, [first, second]) == Run(p1, [second]) == Run(p2, []) == p2;
  }

  // ---- Agents without weight ----

  /** How often an agent was given a weight or paid. */
  ghost function Touches(h: seq<Event>, a: Address): nat
  {
    if h == [] then 0
    else
      Touches(Prev(h), a) +
      match h[|h| - 1]
      case Weighed(b, _) => if a == b then 1 else 0
      case Paid(b, _) => if a == b then 1 else 0
      case _ => 0
  }

  /** q may follow p: same contract, and a weightless agent nobody touched is unchanged. */
  ghost predicate Follows(p: Pool, q: Pool, a: Address) {
    && q.self == p.self
    && Touches(p.history, a) <= Touches(q.history, a)
    && (Info(p, a).weight == 0 && Touches(q.history, a) == Touches(p.history, a) ==> Info(q, a) == Info(p, a))
  }

  lemma StepsFollow(p: Pool, a: Address)
    ensures forall v: uint256 :: Follows(p, Receive(p, v), a)
    ensures forall v :: Distribute(p, v).Some? ==> Follows(p, Distribute(p, v).value, a)
    ensures forall b :: Settle(p, b).Some? ==> Follows(p, Settle(p, b).value, a)
    ensures forall b, w :: Reweigh(p, b, w).Some? ==> Follows(p, Reweigh(p, b, w).value, a)
    ensures forall b :: Info(p, b).pending <= p.balance ==> Follows(p, Pay(p, b), a)
  {
    var h := p.history;
    forall e {:trigger h + [e]} ensures Prev(h + [e]) == h { Appended(h, e); }
  }

  lemma {:induction false} SettleAllFollows(p: Pool, agents: seq<Address>, weights: seq<uint256>, a: Address)
    requires |agents| == |weights| && SettleAll(p, agents, weights).Some?
    ensures Follows(p, SettleAll(p, agents, weights).value, a)
    decreases |agents|
  {
    if agents != [] {
      StepsFollow(p, a);
      var s := Settle(p, agents[0]).value;
      StepsFollow(s, a);
      SettleAllFollows(Reweigh(s, agents[0], weights[0]).value, agents[1..], weights[1..], a);
    }
  }

  lemma ClaimOneFollows(p: Pool, b: Address, accepts: bool, a: Address)
    requires ClaimOne(p, b, accepts).Some?
    ensures Follows(p, ClaimOne(p, b, accepts).value, a)
  {
    StepsFollow(p, a);
    StepsFollow(Settle(p, b).value, a);
  }

  lemma {:induction false} ClaimAllFollows(p: Pool, agents: seq<Address>, accepts: seq<bool>, a: Address)
    requires |agents| == |accepts| && ClaimAll(p, agents, accepts).Some?
    ensures Follows(p, ClaimAll(p, agents, accepts).value, a)
    decreases |agents|
  {
    if agents != [] {
      ClaimOneFollows(p, agents[0], accepts[0], a);
      ClaimAllFollows(ClaimOne(p, agents[0], accepts[0]).value, agents[1..], accepts[1..], a);
    }
  }

  lemma DepositFollows(p: Pool, caller: Address, value: uint256, agents: seq<Address>, weights: seq<uint256>,
                       a: Address)
    requires DepositAndSettle(p, caller, value, agents, weights).Some?
    ensures Follows(p, DepositAndSettle(p, caller, value, agents, weights).value, a)
  {
    StepsFollow(p, a);
    SettleAllFollows(Distribute(p, value).value, agents, weights, a);
  }

  lemma ExecFollows(p: Pool, tx: Tx, a: Address)
    ensures Follows(p, Exec(p, tx), a)
  {
    StepsFollow(p, a);
    if Attempt(p, tx).Some? {
      match tx
      case TxDeposit(caller, value, agents, weights) =>
        DepositFollows(p, caller, value, agents, weights, a);
      case TxDepositAndClaim(caller, value, agents, weights, claimees, accepts) =>
        DepositFollows(p, caller, value, agents, weights, a);
        ClaimAllFollows(DepositAndSettle(p, caller, value, agents, weights).value, claimees, accepts, a);
      case TxBatchClaim(claimees, accepts) =>
        ClaimAllFollows(p, claimees, accepts, a);
      case _ =>
    }
  }

  /** An agent without weight keeps its claimable amount through every run that neither weighs nor pays it. */
  lemma {:induction false} WeightlessIsFrozen(p: Pool, txs: seq<Tx>, a: Address)
    ensures Follows(p, Run(p, txs), a)
    ensures Info(p, a).weight == 0 && Touches(Run(p, txs).history, a) == Touches(p.history, a)
      ==> Claimable(Run(p, txs), a) == Claimable(p, a)
    decreases |txs|
  {
    if txs != [] {
      ExecFollows(p, txs[0], a);
      WeightlessIsFrozen(Exec(p, txs[0]), txs[1..], a);
    }
  }
}
