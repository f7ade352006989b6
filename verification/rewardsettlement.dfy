/** What the entry points do for every agent they list, when they succeed, and where the money goes. */
module RewardSettlement {
  import opened Primitives
  import opened MapSums
  import opened RewardPoolSpec
  import opened RewardPoolProofs

  // ---- The settlement loop ----

  /** The weight each listed agent is to have: the last one listed for it. */
  function Wanted(agents: seq<Address>, weights: seq<uint256>): map<Address, int>
    requires |agents| == |weights|
    decreases |agents|
  {
    if agents == [] then map[] else map[agents[0] := weights[0]] + Wanted(agents[1..], weights[1..])
  }

  lemma {:induction false} WantedIsLast(agents: seq<Address>, weights: seq<uint256>, i: nat)
    requires |agents| == |weights| && i < |agents| && agents[i] !in agents[i + 1..]
    ensures agents[i] in Wanted(agents, weights) && Wanted(agents, weights)[agents[i]] == weights[i]
    decreases |agents|
  {
    WantedAre(agents[1..], weights[1..]);
    if i > 0 {
      assert agents[1..][i..] == agents[i + 1..];
      WantedIsLast(agents[1..], weights[1..], i - 1);
    }
  }

  lemma {:induction false} WantedAre(agents: seq<Address>, weights: seq<uint256>)
    requires |agents| == |weights|
    ensures forall a :: a in Wanted(agents, weights) <==> a in agents
    decreases |agents|
  {
    if agents != [] {
      WantedAre(agents[1..], weights[1..]);
    }
  }

  /** One round: the agent's claimable amount becomes pending and its weight and snapshot are the new ones. */
  ghost predicate Weighs(p: Pool, q: Pool, a: Address, weight: uint256) {
    && q.cum == p.cum && q.balance == p.balance && q.self == p.self && q.coordinator == p.coordinator
    && Claimable(p, a).Some? && Info(q, a) == Agent(weight, p.cum, Claimable(p, a).value)
    && (forall b :: b != a ==> Info(q, b) == Info(p, b))
    && WeightMap(q) == WeightMap(p)[a := weight as int]
  }

  lemma SettleSpares(p: Pool, a: Address)
    requires Settle(p, a).Some?
    ensures
      var s := Settle(p, a).value;
      && s.cum == p.cum && s.balance == p.balance && s.self == p.self && s.coordinator == p.coordinator
      && (forall b :: b != a ==> Info(s, b) == Info(p, b)) && WeightMap(s) == WeightMap(p)
  {
    hide Accrued, CheckedAdd;
  }

  lemma ReweighSets(p: Pool, a: Address, weight: uint256)
    requires Reweigh(p, a, weight).Some?
    ensures
      var q := Reweigh(p, a, weight).value;
      && q.cum == p.cum && q.balance == p.balance && q.self == p.self && q.coordinator == p.coordinator
      && Info(q, a) == Agent(weight, p.cum, Info(p, a).pending)
      && (forall b :: b != a ==> Info(q, b) == Info(p, b)) && WeightMap(q) == WeightMap(p)[a := weight as int]
  {
    hide CheckedAdd, CheckedSub;
  }

  lemma RoundWeighs(p: Pool, a: Address, weight: uint256)
    requires Settle(p, a).Some? && Reweigh(Settle(p, a).value, a, weight).Some?
    ensures Weighs(p, Reweigh(Settle(p, a).value, a, weight).value, a, weight)
  {
    hide Settle, Reweigh, Info, WeightMap, Claimable, PaidTo;
    SettleMakesPending(p, a, a);
    SettleSpares(p, a);
    ReweighSets(Settle(p, a).value, a, weight);
  }

  /** Settling and weighing twice is as good as once. */
  lemma SettledStays(p: Pool, a: Address)
    requires Info(p, a).snapshot == p.cum
    ensures Claimable(p, a) == Some(Info(p, a).pending)
  {
    assert Info(p, a).weight * 0 == 0;
  }

  /** A listed agent has been served, another one left alone. */
  ghost predicate ServedAt(p: Pool, q: Pool, wanted: map<Address, int>, a: Address) {
    if a in wanted then
      && Claimable(p, a).Some? && 0 <= wanted[a] < UINT256_LIMIT
      && Info(q, a) == Agent(wanted[a], p.cum, Claimable(p, a).value)
    else Info(q, a) == Info(p, a)
  }

  /** The state in which every listed agent has been served. */
  ghost predicate Served(p: Pool, q: Pool, wanted: map<Address, int>) {
    && q.cum == p.cum && q.balance == p.balance && q.self == p.self && q.coordinator == p.coordinator
    && (forall a :: ServedAt(p, q, wanted, a))
    && WeightMap(q) == WeightMap(p) + wanted
  }

  lemma ServedStep(p: Pool, w: Pool, q: Pool, a: Address, weight: uint256, rest: map<Address, int>)
    requires Weighs(p, w, a, weight) && Served(w, q, rest)
    ensures Served(p, q, map[a := weight as int] + rest)
  {
    var wanted := map[a := weight as int] + rest;
    SettledStays(w, a);
    hide WeightMap, Claimable, Info;
    forall b ensures ServedAt(p, q, wanted, b) {
      assert ServedAt(w, q, rest, b);
      if b != a {
        SameRecord(p, w, b);
      }
    }
    hide ServedAt;
    assert WeightMap(p)[a := weight as int] + rest == WeightMap(p) + wanted;
  }

  lemma SameRecord(p: Pool, q: Pool, a: Address)
    requires Info(q, a) == Info(p, a) && q.cum == p.cum
    ensures Claimable(q, a) == Claimable(p, a)
  {}

  lemma {:induction false} EveryoneIsServed(p: Pool, agents: seq<Address>, weights: seq<uint256>)
    requires |agents| == |weights| && SettleAll(p, agents, weights).Some?
    ensures Served(p, SettleAll(p, agents, weights).value, Wanted(agents, weights))
    decreases |agents|
  {
    if agents == [] {
      hide Claimable, Info;
      assert WeightMap(p) + map[] == WeightMap(p);
    } else {
      hide Settle, Reweigh, Served, Weighs;
      var w := Reweigh(Settle(p, agents[0]).value, agents[0], weights[0]).value;
      RoundWeighs(p, agents[0], weights[0]);
      EveryoneIsServed(w, agents[1..], weights[1..]);
      var q := SettleAll(w, agents[1..], weights[1..]).value;
      ServedStep(p, w, q, agents[0], weights[0], Wanted(agents[1..], weights[1..]));
    }
  }

  // ---- Total weight ----

  ghost function Gains(m: map<Address, int>, wanted: map<Address, int>): map<Address, int> {
    map a | a in wanted :: wanted[a] - Get(m, a)
  }

  lemma {:induction false} SumOfMerge(m: map<Address, int>, wanted: map<Address, int>)
    ensures Sum(m + wanted) == Sum(m) + Sum(Gains(m, wanted))
    decreases |wanted|
  {
    hide Sum, Gains, Get;
    if wanted == map[] {
      NoGain(m);
    } else {
      var a :| a in wanted;
      var rest := wanted - {a};
      MergeParts(m, wanted, a);
      SumOfMerge(m, rest);
      OneMoreGain(m + rest, m + wanted, Gains(m, rest), Gains(m, wanted), a, wanted[a]);
    }
  }

  lemma NoGain(m: map<Address, int>)
    ensures m + map[] == m && Sum(Gains(m, map[])) == 0
  {
    assert Gains(m, map[]) == map[];
  }

  lemma OneMoreGain(m: map<Address, int>, n: map<Address, int>, before: map<Address, int>, gains: map<Address, int>,
                    a: Address, v: int)
    requires n == m[a := v] && a in gains && gains[a] == v - Get(m, a) && gains - {a} == before
    ensures Sum(n) - Sum(m) == Sum(gains) - Sum(before)
  {
    hide Sum, Get;
    SumUpdate(m, a, v);
    SumRemove(gains, a);
  }

  lemma MergeParts(m: map<Address, int>, wanted: map<Address, int>, a: Address)
    requires a in wanted
    ensures m + wanted == (m + (wanted - {a}))[a := wanted[a]] && Get(m + (wanted - {a}), a) == Get(m, a)
    ensures a in Gains(m, wanted) && Gains(m, wanted)[a] == wanted[a] - Get(m, a)
    ensures Gains(m, wanted) - {a} == Gains(m, wanted - {a})
  {}

  // ---- A deposit with its settlement ----

  lemma TotalMoves(p: Pool, q: Pool, wanted: map<Address, int>)
    requires p.totalWeight == Sum(WeightMap(p)) && q.totalWeight == Sum(WeightMap(q))
    requires WeightMap(q) == WeightMap(p) + wanted
    ensures q.totalWeight == p.totalWeight + Sum(Gains(WeightMap(p), wanted))
  {
    SumOfMerge(WeightMap(p), wanted);
  }

  /** A successful deposit takes the value in, and then serves every listed agent: its claimable amount after the
    * deposit becomes pending, its snapshot the counter, its weight the last one listed for it. Agents not listed are
    * untouched, and the total weight moves by the sum of the differences. */
  lemma DepositServesEveryone(p: Pool, caller: Address, value: uint256, agents: seq<Address>, weights: seq<uint256>)
    requires Inv(p) && DepositAndSettle(p, caller, value, agents, weights).Some?
    ensures caller == p.coordinator && |agents| == |weights| && Distribute(p, value).Some?
    ensures
      var d := Distribute(p, value).value;
      var q := DepositAndSettle(p, caller, value, agents, weights).value;
      && q.balance == p.balance + value && q.cum == d.cum && q.self == p.self && q.coordinator == p.coordinator
      && (forall i :: 0 <= i < |agents| && agents[i] !in agents[i + 1..] ==>
        Claimable(d, agents[i]).Some?
        && Info(q, agents[i]) == Agent(weights[i], q.cum, Claimable(d, agents[i]).value))
      && (forall a :: a !in agents ==> Info(q, a) == Info(p, a))
      && q.totalWeight == p.totalWeight + Sum(Gains(WeightMap(p), Wanted(agents, weights)))
  {
    var d := Distribute(p, value).value;
    var q := DepositAndSettle(p, caller, value, agents, weights).value;
    DistributeEffect(p, value);
    DistributeKeeps(p, value);
    DepositAndSettleKeeps(p, caller, value, agents, weights);
    EveryoneIsServed(d, agents, weights);
    WantedAre(agents, weights);
    hide Distribute, DepositAndSettle, SettleAll, Wanted, Claimable;
    assert WeightMap(d) == WeightMap(p);
    WeightsTotal(p);
    WeightsTotal(q);
    hide Inv;
    TotalMoves(p, q, Wanted(agents, weights));
    forall i | 0 <= i < |agents| && agents[i] !in agents[i + 1..]
      ensures Claimable(d, agents[i]).Some?
        && Info(q, agents[i]) == Agent(weights[i], q.cum, Claimable(d, agents[i]).value)
    {
      WantedIsLast(agents, weights, i);
      assert ServedAt(d, q, Wanted(agents, weights), agents[i]);
    }
    forall a | a !in agents ensures Info(q, a) == Info(p, a) {
      assert ServedAt(d, q, Wanted(agents, weights), a);
    }
  }

  lemma WeightsTotal(p: Pool)
    requires Inv(p)
    ensures p.totalWeight == Sum(WeightMap(p))
  {
    hide Sum, Replayed, DustExact, Shares;
  }

  // ---- When a deposit succeeds ----

  lemma DistributeSucceedsIff(p: Pool, value: uint256)
    ensures Distribute(p, value).Some? <==>
      (p.totalWeight == 0 || value == 0
       || (value * SCALE < UINT256_LIMIT && p.cum + value * SCALE / p.totalWeight < UINT256_LIMIT))
  {
    if p.totalWeight > 0 && value > 0 {
      NaturalProduct(value, SCALE);
    }
  }

  lemma SettleSucceedsIff(p: Pool, a: Address)
    requires Info(p, a).snapshot <= p.cum
    ensures Settle(p, a).Some? <==> Claimable(p, a).Some?
  {
    if Info(p, a).snapshot == p.cum {
      SettledStays(p, a);
    }
  }

  /** The total weight once the first k agents of the list have been served. */
  ghost function TotalAt(p: Pool, agents: seq<Address>, weights: seq<uint256>, k: nat): int
    requires k <= |agents| == |weights|
  {
    Sum(WeightMap(p) + Wanted(agents[..k], weights[..k]))
  }

  ghost predicate FitsThroughout(p: Pool, agents: seq<Address>, weights: seq<uint256>)
    requires |agents| == |weights|
  {
    && (forall i :: 0 <= i < |agents| ==> Claimable(p, agents[i]).Some?)
    && (forall k :: 0 < k <= |agents| ==> TotalAt(p, agents, weights, k) < UINT256_LIMIT)
  }

  lemma TotalAtStep(p: Pool, w: Pool, agents: seq<Address>, weights: seq<uint256>, k: nat)
    requires 0 < k <= |agents| == |weights| && WeightMap(w) == WeightMap(p)[agents[0] := weights[0] as int]
    ensures TotalAt(p, agents, weights, k) == TotalAt(w, agents[1..], weights[1..], k - 1)
  {
    assert agents[..k][1..] == agents[1..][..k - 1] && weights[..k][1..] == weights[1..][..k - 1];
    var rest := Wanted(agents[1..][..k - 1], weights[1..][..k - 1]);
    hide WeightMap, Sum;
    assert Wanted(agents[..k], weights[..k]) == map[agents[0] := weights[0] as int] + rest;
    assert WeightMap(p) + (map[agents[0] := weights[0] as int] + rest) == WeightMap(w) + rest;
  }

  lemma FitsStep(p: Pool, w: Pool, agents: seq<Address>, weights: seq<uint256>)
    requires agents != [] && |agents| == |weights| && Weighs(p, w, agents[0], weights[0])
    requires TotalAt(p, agents, weights, 1) < UINT256_LIMIT
    ensures FitsThroughout(p, agents, weights) <==> FitsThroughout(w, agents[1..], weights[1..])
  {
    hide TotalAt, Claimable, WeightMap, Info;
    var rest, ws := agents[1..], weights[1..];
    forall k | 0 < k <= |agents| ensures TotalAt(p, agents, weights, k) == TotalAt(w, rest, ws, k - 1) {
      TotalAtStep(p, w, agents, weights, k);
    }
    forall b ensures Claimable(p, b).Some? <==> Claimable(w, b).Some? {
      SettledStays(w, agents[0]);
      if b != agents[0] {
        SameRecord(p, w, b);
      }
    }
    assert forall i :: 0 < i < |agents| ==> agents[i] == rest[i - 1];
    assert forall i :: 0 <= i < |rest| ==> rest[i] == agents[i + 1];
    if FitsThroughout(w, rest, ws) {
      forall k | 0 < k <= |agents| ensures TotalAt(p, agents, weights, k) < UINT256_LIMIT {
        if k > 1 {
          assert TotalAt(w, rest, ws, k - 1) < UINT256_LIMIT;
        }
      }
    }
    if FitsThroughout(p, agents, weights) {
      forall k | 0 < k <= |rest| ensures TotalAt(w, rest, ws, k) < UINT256_LIMIT {
        assert TotalAt(p, agents, weights, k + 1) < UINT256_LIMIT;
      }
    }
  }

  /** A reweighing fails exactly when the new total does not fit. */
  lemma ReweighSucceedsIff(p: Pool, a: Address, weight: uint256)
    requires WeightsAgree(p)
    ensures Reweigh(p, a, weight).Some? <==> Sum(WeightMap(p)[a := weight as int]) < UINT256_LIMIT
  {
    SumUpdate(WeightMap(p), a, weight);
    assert forall b :: b in WeightMap(p) ==> 0 <= WeightMap(p)[b];
    SumBoundsEntry(WeightMap(p), a);
    hide Sum;
  }

  lemma RoundSucceedsIff(p: Pool, a: Address, weight: uint256)
    requires Ledger(p)
    ensures Settle(p, a).Some? && Reweigh(Settle(p, a).value, a, weight).Some?
      <==> Claimable(p, a).Some? && Sum(WeightMap(p)[a := weight as int]) < UINT256_LIMIT
  {
    SettleSucceedsIff(p, a);
    if Settle(p, a).Some? {
      var s := Settle(p, a).value;
      SettleLedger(p, a);
      ReweighSucceedsIff(s, a, weight);
      assert WeightMap(s) == WeightMap(p);
    }
  }

  /** The settlement loop fails only if an agent's claimable amount or the total weight overflows on the way. */
  lemma {:induction false} SettleAllSucceedsIff(p: Pool, agents: seq<Address>, weights: seq<uint256>)
    requires Inv(p) && |agents| == |weights|
    ensures SettleAll(p, agents, weights).Some? <==> FitsThroughout(p, agents, weights)
    decreases |agents|
  {
    if agents != [] {
      var a, x := agents[0], weights[0];
      hide Inv, Settle, Reweigh, FitsThroughout, Claimable, Weighs;
      InvIsLedger(p);
      RoundSucceedsIff(p, a, x);
      FirstFits(p, agents, weights);
      if Settle(p, a).Some? && Reweigh(Settle(p, a).value, a, x).Some? {
        var w := Reweigh(Settle(p, a).value, a, x).value;
        SettleKeeps(p, a);
        SettleMakesPending(p, a, a);
        ReweighKeeps(Settle(p, a).value, a, x);
        RoundWeighs(p, a, x);
        SettleAllSucceedsIff(w, agents[1..], weights[1..]);
        FitsStep(p, w, agents, weights);
      }
    } else {
      hide Inv;
    }
  }

  lemma InvIsLedger(p: Pool)
    requires Inv(p)
    ensures Ledger(p)
  {
    hide Ledger, Shares;
  }

  lemma FirstFits(p: Pool, agents: seq<Address>, weights: seq<uint256>)
    requires agents != [] && |agents| == |weights|
    ensures TotalAt(p, agents, weights, 1) == Sum(WeightMap(p)[agents[0] := weights[0] as int])
    ensures FitsThroughout(p, agents, weights) ==>
      Claimable(p, agents[0]).Some? && TotalAt(p, agents, weights, 1) < UINT256_LIMIT
  {
    hide Sum, WeightMap, Claimable;
    assert agents[..1][1..] == [] && weights[..1][1..] == [];
    var first := map[agents[0] := weights[0] as int];
    assert Wanted([], []) == map[];
    assert Wanted(agents[..1], weights[..1]) == first + map[] == first;
    assert WeightMap(p) + first == WeightMap(p)[agents[0] := weights[0] as int];
    if FitsThroughout(p, agents, weights) {
      assert Claimable(p, agents[0]).Some?;
    }
  }

  /** A deposit succeeds if and only if the coordinator makes it, its lists are equally long, and nothing overflows:
    * neither the counter, nor any listed agent's claimable amount, nor the total weight after any round. */
  lemma DepositSucceedsIff(p: Pool, caller: Address, value: uint256, agents: seq<Address>, weights: seq<uint256>)
    requires Inv(p)
    ensures DepositAndSettle(p, caller, value, agents, weights).Some? <==>
      && caller == p.coordinator && |agents| == |weights| && Distribute(p, value).Some?
      && FitsThroughout(Distribute(p, value).value, agents, weights)
  {
    hide Distribute, Inv, FitsThroughout, SettleAll;
    if caller == p.coordinator && |agents| == |weights| && Distribute(p, value).Some? {
      var d := Distribute(p, value).value;
      assert DepositAndSettle(p, caller, value, agents, weights) == SettleAll(d, agents, weights);
      DistributeKeeps(p, value);
      SettleAllSucceedsIff(d, agents, weights);
    }
  }

  // ---- The claim loop ----

  /** The agent is listed where its recipient takes the money. */
  predicate Accepted(claimees: seq<Address>, accepts: seq<bool>, a: Address)
    requires |claimees| == |accepts|
  {
    exists i :: 0 <= i < |claimees| && claimees[i] == a && accepts[i]
  }

  lemma TakesStep(claimees: seq<Address>, accepts: seq<bool>, a: Address)
    requires claimees != [] && |claimees| == |accepts|
    ensures Accepted(claimees, accepts, a)
      <==> (claimees[0] == a && accepts[0]) || Accepted(claimees[1..], accepts[1..], a)
  {
    var cs, os := claimees[1..], accepts[1..];
    assert forall i :: 0 < i < |claimees| ==> claimees[i] == cs[i - 1] && accepts[i] == os[i - 1];
    assert forall i :: 0 <= i < |cs| ==> cs[i] == claimees[i + 1] && os[i] == accepts[i + 1];
  }

  ghost predicate AllClaimable(p: Pool, claimees: seq<Address>) {
    forall i :: 0 <= i < |claimees| ==> Claimable(p, claimees[i]).Some?
  }

  /** What one round of the loop changes for every agent. */
  ghost predicate Pays(p: Pool, q: Pool, claimee: Address, accept: bool, a: Address) {
    var paid := if a == claimee && accept && Claimable(p, a).Some? then Claimable(p, a).value else 0;
    && PaidTo(q.history, a) == PaidTo(p.history, a) + paid
    && Claimable(q, a) == (if Claimable(p, a).Some? then Some(Claimable(p, a).value - paid) else None)
  }

  lemma RoundPays(p: Pool, claimee: Address, accept: bool, a: Address)
    requires Inv(p) && Claimable(p, claimee).Some?
    ensures ClaimOne(p, claimee, accept).Some? && Inv(ClaimOne(p, claimee, accept).value)
    ensures Pays(p, ClaimOne(p, claimee, accept).value, claimee, accept, a)
  {
    hide Inv, Claimable, ClaimOne, PaidTo;
    ClaimNeverLacksFunds(p, claimee, accept);
    ClaimOneKeeps(p, claimee, accept);
    ClaimPaysClaimable(p, claimee, accept, a);
  }

  lemma {:induction false} BatchSucceedsIff(p: Pool, claimees: seq<Address>, accepts: seq<bool>)
    requires Inv(p) && |claimees| == |accepts|
    ensures ClaimAll(p, claimees, accepts).Some? <==> AllClaimable(p, claimees)
    decreases |claimees|
  {
    if claimees != [] {
      hide Inv, Claimable, ClaimOne, PaidTo;
      var c, rest := claimees[0], claimees[1..];
      assert AllClaimable(p, claimees) <==> Claimable(p, c).Some? && AllClaimable(p, rest) by {
        assert forall i :: 0 <= i < |rest| ==> rest[i] == claimees[i + 1];
        assert forall i :: 0 < i < |claimees| ==> claimees[i] == rest[i - 1];
      }
      ClaimNeverLacksFunds(p, c, accepts[0]);
      if Claimable(p, c).Some? {
        var w := ClaimOne(p, c, accepts[0]).value;
        forall b ensures Claimable(w, b).Some? <==> Claimable(p, b).Some? {
          RoundPays(p, c, accepts[0], b);
        }
        RoundPays(p, c, accepts[0], c);
        BatchSucceedsIff(w, rest, accepts[1..]);
      }
    } else {
      hide Inv;
    }
  }

  /** A batch of claims fails if and only if a listed amount overflows. Otherwise it pays every listed agent what is
    * claimable, once, if its recipient takes it in any of its rounds, and leaves all other amounts as they were. */
  lemma {:induction false} BatchPaysEveryone(p: Pool, claimees: seq<Address>, accepts: seq<bool>, a: Address)
    requires Inv(p) && |claimees| == |accepts|
    ensures ClaimAll(p, claimees, accepts).Some? <==> AllClaimable(p, claimees)
    ensures ClaimAll(p, claimees, accepts).Some? ==>
      Pays(p, ClaimAll(p, claimees, accepts).value, a, Accepted(claimees, accepts, a), a)
    decreases |claimees|
  {
    BatchSucceedsIff(p, claimees, accepts);
    hide Inv, Claimable, ClaimOne, PaidTo, Accepted;
    if claimees == [] {
      NothingPaid(p, a);
    } else if ClaimAll(p, claimees, accepts).Some? {
      hide AllClaimable, Pays;
      ClaimNeverLacksFunds(p, claimees[0], accepts[0]);
      TakesStep(claimees, accepts, a);
      RoundPays(p, claimees[0], accepts[0], a);
      var w := ClaimOne(p, claimees[0], accepts[0]).value;
      BatchPaysEveryone(w, claimees[1..], accepts[1..], a);
      PaysOnce(p, w, ClaimAll(w, claimees[1..], accepts[1..]).value, claimees[0], accepts[0],
               Accepted(claimees[1..], accepts[1..], a), a);
    }
  }

  /** What has been paid in one round is not there to be paid in a later one. */
  lemma PaysOnce(p: Pool, w: Pool, q: Pool, claimee: Address, accept: bool, later: bool, a: Address)
    requires Pays(p, w, claimee, accept, a) && Pays(w, q, a, later, a)
    ensures Pays(p, q, a, (claimee == a && accept) || later, a)
  {
    hide PaidTo, Claimable;
  }

  lemma NothingPaid(p: Pool, a: Address)
    ensures !Accepted([], [], a) && Pays(p, p, a, false, a)
  {
    hide PaidTo, Claimable;
  }

  // ---- Where the money goes, and whose word counts ----

  /** The value a transaction brings. */
  function ValueOf(tx: Tx): nat {
    match tx
    case TxDeposit(_, value, _, _) => value
    case TxDepositAndClaim(_, value, _, _, _, _) => value
    case TxReceive(value) => value
    case _ => 0
  }

  /** Wei sent to other addresses. */
  ghost function PaidOut(h: seq<Event>, self: Address): int
  {
    if h == [] then 0
    else
      match h[|h| - 1]
      case Paid(a, amount) => PaidOut(Prev(h), self) + if a == self then 0 else amount
      case _ => PaidOut(Prev(h), self)
  }

  /** From p to q some value has come in, and what has left was paid out; nobody has taken over. */
  ghost predicate Brings(p: Pool, q: Pool, value: int) {
    && q.self == p.self && q.coordinator == p.coordinator
    && q.balance + PaidOut(q.history, p.self) == p.balance + PaidOut(p.history, p.self) + value
  }

  /** A step that neither moves the office nor pays anybody brings what it adds to the balance. */
  lemma UnpaidBrings(p: Pool, q: Pool, e: Event)
    requires !e.Paid? && q.self == p.self && q.coordinator == p.coordinator && q.history == p.history + [e]
    ensures Brings(p, q, q.balance - p.balance)
  {
    Appended(p.history, e);
  }

  lemma SettleBrings(p: Pool, a: Address)
    requires Settle(p, a).Some?
    ensures Brings(p, Settle(p, a).value, 0)
  {
    hide PaidOut, Accrued;
    if Settle(p, a).value != p {
      UnpaidBrings(p, Settle(p, a).value, Settled(a));
    }
  }

  lemma ReweighBrings(p: Pool, a: Address, weight: uint256)
    requires Reweigh(p, a, weight).Some?
    ensures Brings(p, Reweigh(p, a, weight).value, 0)
  {
    hide PaidOut;
    UnpaidBrings(p, Reweigh(p, a, weight).value, Weighed(a, weight));
  }

  lemma DistributeBrings(p: Pool, value: uint256)
    requires Distribute(p, value).Some?
    ensures Brings(p, Distribute(p, value).value, value)
  {
    hide PaidOut;
    UnpaidBrings(p, Distribute(p, value).value, Deposited(value));
  }

  lemma PayBrings(p: Pool, a: Address)
    requires Info(p, a).pending <= p.balance
    ensures Brings(p, Pay(p, a), 0)
  {
    Appended(p.history, Paid(a, Info(p, a).pending));
  }

  lemma {:induction false} SettleAllBrings(p: Pool, agents: seq<Address>, weights: seq<uint256>)
    requires |agents| == |weights| && SettleAll(p, agents, weights).Some?
    ensures Brings(p, SettleAll(p, agents, weights).value, 0)
    decreases |agents|
  {
    if agents != [] {
      hide Settle, Reweigh, PaidOut;
      var s := Settle(p, agents[0]).value;
      SettleBrings(p, agents[0]);
      ReweighBrings(s, agents[0], weights[0]);
      SettleAllBrings(Reweigh(s, agents[0], weights[0]).value, agents[1..], weights[1..]);
    }
  }

  lemma ClaimOneBrings(p: Pool, a: Address, accept: bool)
    requires ClaimOne(p, a, accept).Some?
    ensures Brings(p, ClaimOne(p, a, accept).value, 0)
  {
    hide Settle, Pay, PaidOut, Info;
    var s := Settle(p, a).value;
    SettleBrings(p, a);
    if Info(s, a).pending <= s.balance {
      PayBrings(s, a);
    }
  }

  lemma {:induction false} ClaimAllBrings(p: Pool, claimees: seq<Address>, accepts: seq<bool>)
    requires |claimees| == |accepts| && ClaimAll(p, claimees, accepts).Some?
    ensures Brings(p, ClaimAll(p, claimees, accepts).value, 0)
    decreases |claimees|
  {
    if claimees != [] {
      hide ClaimOne, PaidOut;
      ClaimOneBrings(p, claimees[0], accepts[0]);
      ClaimAllBrings(ClaimOne(p, claimees[0], accepts[0]).value, claimees[1..], accepts[1..]);
    }
  }

  lemma DepositBrings(p: Pool, caller: Address, value: uint256, agents: seq<Address>, weights: seq<uint256>)
    requires DepositAndSettle(p, caller, value, agents, weights).Some?
    ensures Brings(p, DepositAndSettle(p, caller, value, agents, weights).value, value)
  {
    hide Distribute, PaidOut, SettleAll;
    DistributeBrings(p, value);
    SettleAllBrings(Distribute(p, value).value, agents, weights);
  }

  /** A transaction that takes effect adds its value to what the pool holds or has paid out. */
  lemma TransactionBrings(p: Pool, tx: Tx)
    requires Attempt(p, tx).Some? && !tx.TxSetCoordinator?
    ensures Brings(p, Attempt(p, tx).value, ValueOf(tx))
  {
    hide PaidOut, DepositAndSettle, ClaimAll, Pay;
    match tx
    case TxReceive(value) => UnpaidBrings(p, Receive(p, value), Received(value));
    case TxClaim(caller, _) =>
      if Info(p, caller).pending <= p.balance {
        PayBrings(p, caller);
      }
    case TxClaimFor(a, _, _) =>
      if Info(p, a).pending <= p.balance {
        PayBrings(p, a);
      }
    case TxDeposit(caller, value, agents, weights) => DepositBrings(p, caller, value, agents, weights);
    case TxDepositAndClaim(caller, value, agents, weights, claimees, accepts) =>
      DepositBrings(p, caller, value, agents, weights);
      ClaimAllBrings(DepositAndSettle(p, caller, value, agents, weights).value, claimees, accepts);
    case TxBatchClaim(claimees, accepts) => ClaimAllBrings(p, claimees, accepts);
  }

  /** The value of the transactions of a run that took effect. */
  ghost function Brought(p: Pool, txs: seq<Tx>): int
    decreases |txs|
  {
    if txs == [] then 0
    else (if Attempt(p, txs[0]).Some? then ValueOf(txs[0]) else 0) + Brought(Exec(p, txs[0]), txs[1..])
  }

  /** Who may deposit after some transactions: the office passes from its holder to a successor that is not zero. */
  function Authority(c: Address, txs: seq<Tx>): Address
    decreases |txs|
  {
    if txs == [] then c
    else
      match txs[0]
      case TxSetCoordinator(caller, next) =>
        Authority(if caller == c && next != ZERO_ADDRESS then next else c, txs[1..])
      case _ => Authority(c, txs[1..])
  }

  /** Over any run every wei that came with a transaction that took effect is in the pool or was paid to some other
    * address, and the coordinator is who the office has passed to. */
  lemma {:induction false} MoneyAndOffice(p: Pool, txs: seq<Tx>)
    ensures
      var q := Run(p, txs);
      && q.self == p.self && q.coordinator == Authority(p.coordinator, txs)
      && q.balance + PaidOut(q.history, p.self) == p.balance + PaidOut(p.history, p.self) + Brought(p, txs)
    decreases |txs|
  {
    if txs != [] {
      if Attempt(p, txs[0]).Some? && !txs[0].TxSetCoordinator? {
        TransactionBrings(p, txs[0]);
        hide Attempt;
      }
      hide PaidOut;
      MoneyAndOffice(Exec(p, txs[0]), txs[1..]);
    }
  }
}
