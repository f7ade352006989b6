/** The contract as storage that its entry points update in place. A reverting entry point puts the
  * storage back as the call found it and answers false. */
module RewardContract {
  import opened Primitives
  import Spec = RewardPoolSpec

  class RewardPool {
    const self: Address
    var coordinator: Address
    var cum: uint256
    var totalWeight: uint256
    var agents: map<Address, Spec.Agent>
    var balance: nat
    var history: seq<Spec.Event>

    function State(): Spec.Pool
      reads this
    {
      Spec.Pool(self, coordinator, cum, totalWeight, agents, balance, history)
    }

    constructor (self: Address, coordinator: Address)
      requires coordinator != ZERO_ADDRESS
      ensures State() == Spec.Init(self, coordinator)
    {
      this.self, this.coordinator := self, coordinator;
      cum, totalWeight, agents, balance, history := 0, 0, map[], 0, [];
    }

    /** Undoes everything since State() was saved. */
    method Revert(saved: Spec.Pool)
      requires saved.self == self
      modifies this
      ensures State() == saved
    {
      coordinator, cum, totalWeight := saved.coordinator, saved.cum, saved.totalWeight;
      agents, balance, history := saved.agents, saved.balance, saved.history;
    }

    method Receive(value: uint256)
      modifies this
      ensures State() == Spec.Receive(old(State()), value)
    {
      balance := balance + value;
      history := history + [Spec.Received(value)];
    }

    method SetCoordinator(caller: Address, next: Address) returns (ok: bool)
      modifies this
      ensures Outcome(old(State()), Spec.SetCoordinator(old(State()), caller, next), ok)
    {
      if caller != coordinator || next == ZERO_ADDRESS {
        return false;
      }
      coordinator := next;
      return true;
    }

    /** The state is the specified one, or the old one after a revert. */
    ghost predicate Outcome(before: Spec.Pool, after: Option<Spec.Pool>, ok: bool)
      reads this
    {
      ok == after.Some? && State() == if ok then after.value else before
    }

    /** Adds to an agent with weight what it has accrued; false on arithmetic overflow. */
    method SettleAgent(a: Address) returns (ok: bool)
      modifies this
      ensures ok ==> Spec.Settle(old(State()), a) == Some(State())
      ensures !ok ==> Spec.Settle(old(State()), a) == None
      ensures balance == old(balance)
    {
      var info := Spec.Info(State(), a);
      if info.weight > 0 {
        if cum < info.snapshot {
          return false;
        }
        var scaled := info.weight * (cum - info.snapshot);
        assert info.snapshot == cum ==> scaled == 0;
        if !(0 <= scaled < UINT256_LIMIT) {
          return false;
        }
        if info.pending + scaled / Spec.SCALE >= UINT256_LIMIT {
          return false;
        }
        agents := agents[a := Spec.Agent(info.weight, cum, info.pending + scaled / Spec.SCALE)];
        assert info.snapshot == cum ==> agents == old(agents);
        if info.snapshot != cum {
          history := history + [Spec.Settled(a)];
        }
      }
      return true;
    }

    /** Takes the value in and raises the counter if anybody has weight; false on arithmetic overflow. */
    method TakeDeposit(value: uint256) returns (ok: bool)
      modifies this
      ensures ok ==> Spec.Distribute(old(State()), value) == Some(State())
      ensures !ok ==> Spec.Distribute(old(State()), value) == None
    {
      balance := balance + value;
      history := history + [Spec.Deposited(value)];
      if totalWeight > 0 && value > 0 {
        var scaled := value * Spec.SCALE;
        hide Spec.Rate;
        var rate := Spec.Rate(value, totalWeight);
        if scaled >= UINT256_LIMIT || cum + rate >= UINT256_LIMIT {
          return false;
        }
        cum := cum + rate;
      }
      return true;
    }

    /** Sets a settled agent's weight and snapshot; false on arithmetic overflow. */
    method ReweighAgent(a: Address, weight: uint256) returns (ok: bool)
      modifies this
      ensures ok ==> Spec.Reweigh(old(State()), a, weight) == Some(State())
      ensures !ok ==> Spec.Reweigh(old(State()), a, weight) == None
    {
      var info := Spec.Info(State(), a);
      if totalWeight < info.weight || totalWeight - info.weight + weight >= UINT256_LIMIT {
        return false;
      }
      totalWeight := totalWeight - info.weight + weight;
      agents := agents[a := Spec.Agent(weight, cum, info.pending)];
      history := history + [Spec.Weighed(a, weight)];
      return true;
    }

    /** The deposit half of both deposit entry points; may stop anywhere when it fails. */
    method Deposit(caller: Address, value: uint256, agentList: seq<Address>, weights: seq<uint256>) returns (ok: bool)
      modifies this
      ensures ok ==> Spec.DepositAndSettle(old(State()), caller, value, agentList, weights) == Some(State())
      ensures !ok ==> Spec.DepositAndSettle(old(State()), caller, value, agentList, weights) == None
    {
      if caller != coordinator || |agentList| != |weights| {
        return false;
      }
      ok := TakeDeposit(value);
      if !ok {
        return;
      }
      ghost var all := Spec.SettleAll(State(), agentList, weights);
      for i := 0 to |agentList|
        invariant ok && all == Spec.SettleAll(State(), agentList[i..], weights[i..])
      {
        assert agentList[i..][1..] == agentList[i + 1..] && weights[i..][1..] == weights[i + 1..];
        ok := SettleAgent(agentList[i]);
        if !ok {
          return;
        }
        ok := ReweighAgent(agentList[i], weights[i]);
        if !ok {
          return;
        }
      }
    }

    /** Zero the pending amount, send it, and put it back if the recipient refuses. */
    method TryPay(a: Address, accepts: bool) returns (paid: bool)
      requires Spec.Info(State(), a).pending > 0
      modifies this
      ensures paid == Spec.TransferSucceeds(old(State()), Spec.Info(old(State()), a).pending, accepts)
      ensures State() == if paid then Spec.Pay(old(State()), a) else old(State())
    {
      var info := Spec.Info(State(), a);
      agents := agents[a := info.(pending := 0)];
      if accepts && info.pending <= balance {
        balance := if a == self then balance else balance - info.pending;
        history := history + [Spec.Paid(a, info.pending)];
        return true;
      }
      agents := agents[a := info];
      return false;
    }

    /** The claim loop of both batch entry points; may stop anywhere when it fails. */
    method ClaimEach(claimees: seq<Address>, accepts: seq<bool>) returns (ok: bool)
      requires |claimees| == |accepts|
      modifies this
      ensures ok ==> Spec.ClaimAll(old(State()), claimees, accepts) == Some(State())
      ensures !ok ==> Spec.ClaimAll(old(State()), claimees, accepts) == None
    {
      for i := 0 to |claimees|
        invariant Spec.ClaimAll(old(State()), claimees, accepts) == Spec.ClaimAll(State(), claimees[i..], accepts[i..])
      {
        assert claimees[i..][1..] == claimees[i + 1..] && accepts[i..][1..] == accepts[i + 1..];
        ok := SettleAgent(claimees[i]);
        if !ok {
          return false;
        }
        if Spec.Info(State(), claimees[i]).pending == 0 {
          continue;
        }
        var paid := TryPay(claimees[i], accepts[i]);
      }
      return true;
    }

    method DepositAndSettle(caller: Address, value: uint256, agentList: seq<Address>, weights: seq<uint256>)
      returns (ok: bool)
      modifies this
      ensures Outcome(old(State()), Spec.DepositAndSettle(old(State()), caller, value, agentList, weights), ok)
    {
      var saved := State();
      ok := Deposit(caller, value, agentList, weights);
      if !ok {
        Revert(saved);
      }
    }

    method DepositSettleAndClaim(caller: Address, value: uint256, agentList: seq<Address>, weights: seq<uint256>,
                                 claimees: seq<Address>, accepts: seq<bool>) returns (ok: bool)
      requires |claimees| == |accepts|
      modifies this
      ensures Outcome(
        old(State()),
        Spec.DepositSettleAndClaim(old(State()), caller, value, agentList, weights, claimees, accepts), ok)
    {
      var saved := State();
      ok := Deposit(caller, value, agentList, weights);
      if ok {
        ok := ClaimEach(claimees, accepts);
      }
      if !ok {
        Revert(saved);
      }
    }

    method BatchClaimFor(claimees: seq<Address>, accepts: seq<bool>) returns (ok: bool)
      requires |claimees| == |accepts|
      modifies this
      ensures Outcome(old(State()), Spec.ClaimAll(old(State()), claimees, accepts), ok)
    {
      var saved := State();
      ok := ClaimEach(claimees, accepts);
      if !ok {
        Revert(saved);
      }
    }

    /** Pays a pending amount without settling first. */
    method Collect(a: Address, accepts: bool) returns (ok: bool)
      modifies this
      ensures Outcome(old(State()), Spec.Collect(old(State()), a, accepts), ok)
    {
      if Spec.Info(State(), a).pending == 0 {
        return false;
      }
      ok := TryPay(a, accepts);
    }

    /** claim(): a caller with weight ends at an invalid jump. */
    method Claim(caller: Address, accepts: bool) returns (ok: bool)
      modifies this
      ensures Outcome(old(State()), Spec.Claim(old(State()), caller, accepts), ok)
    {
      if Spec.Info(State(), caller).weight > 0 {
        return false;
      }
      ok := Collect(caller, accepts);
    }

    /** claimFor(a): for an agent with weight the call computes what has accrued, adds it to the storage slot of the
      * record, and stops without having stored anything. */
    method ClaimFor(a: Address, slot: uint256, accepts: bool) returns (ok: bool)
      modifies this
      ensures Outcome(old(State()), Spec.ClaimFor(old(State()), a, slot, accepts), ok)
    {
      var info := Spec.Info(State(), a);
      if info.weight > 0 {
        if cum < info.snapshot {
          return false;
        }
        var scaled := info.weight * (cum - info.snapshot);
        if !(0 <= scaled < UINT256_LIMIT) || slot + scaled / Spec.SCALE >= UINT256_LIMIT {
          return false;
        }
        return true;
      }
      ok := Collect(a, accepts);
    }
  }
}
