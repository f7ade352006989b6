/** Whoever executes a transaction sees the state only through the answers to the operations it asks for. */
module Interpreter {
  import opened Primitives
  import opened StateDBSpec

  datatype Returned =
    | Nothing
    | Seen(account: Option<Account>)               // all the account getters can tell
    | Balance(amount: uint256)
    | Code(code: Bytes)
    | Value(value: Hash)
    | Destroyed(amount: uint256, really: bool)
    | Id(id: nat)
    | Panic

  /** What an operation returns. */
  function ReturnedBy(d: DB, op: Op): Returned {
    var c, w := d.core, d.world;
    match op
    case OpTouch(a) => Seen(AccountOf(c, w, a))
    case OpGetState(a, k) => Value(SlotOf(c, w, a, k))
    case OpGetCommitted(a, k) => Value(CommittedValue(d, a, k))
    case OpSubBalance(a, _) => Balance(BalanceOf(c, w, a))
    case OpAddBalance(a, _) => Balance(BalanceOf(c, w, a))
    case OpSetCode(a, _) => Code(match AccountOf(c, w, a) case Some(v) => v.code case None => [])
    case OpSelfDestruct(a) => Balance(CachedBalance(c, a))
    case OpSelfDestruct6780(a) => Destroyed(CachedBalance(c, a), a in c.accounts && c.accounts[a].isNew)
    case OpSetState(a, k, _) => Value(OrZero(Lookup(c.storage, a, k)))
    case OpSubRefund(gas) => if gas > c.refund then Panic else Nothing
    case OpSnapshot => Id(|d.snapshots|)
    case _ => Nothing
  }

  function CachedBalance(c: Core, a: Address): uint256 {
    if a in c.accounts then c.accounts[a].balance else 0
  }

  /** With it comes all that may be asked at any time without changing anything. */
  datatype Answer = Answer(
    returned: Returned, refund: uint64, accessedAddresses: map<Address, bool>, accessedSlots: Flags, transient: Slots)

  function AnswerTo(d: DB, op: Op): Answer {
    var c := Step(d, op).core;
    Answer(ReturnedBy(d, op), c.refund, c.accessedAddresses, c.accessedSlots, c.transient)
  }

  /** What to ask next, given the answers so far; None is the end. */
  type Strategy = seq<Answer> -> Option<Op>

  /** The operations asked for within a number of steps; a panic ends the execution. */
  function Asked(d: DB, next: Strategy, heard: seq<Answer>, steps: nat): seq<Op>
    decreases steps
  {
    if steps == 0 then []
    else
      match next(heard)
      case None => []
      case Some(op) =>
        [op] + if ReturnedBy(d, op).Panic? then [] else Asked(Step(d, op), next, heard + [AnswerTo(d, op)], steps - 1)
  }

  /** And the answers they got. */
  function Heard(d: DB, ops: seq<Op>): seq<Answer>
    decreases |ops|
  {
    if ops == [] then [] else [AnswerTo(d, ops[0])] + Heard(Step(d, ops[0]), ops[1..])
  }

  predicate NeverPanics(d: DB, ops: seq<Op>)
    decreases |ops|
  {
    ops == [] || (!ReturnedBy(d, ops[0]).Panic? && NeverPanics(Step(d, ops[0]), ops[1..]))
  }

  /** An answer is about the state that the operations before it have left. */
  lemma {:induction false} HeardInTurn(d: DB, ops: seq<Op>)
    ensures |Heard(d, ops)| == |ops|
    ensures forall i :: 0 <= i < |ops| ==> Heard(d, ops)[i] == AnswerTo(Run(d, ops[..i]), ops[i])
    decreases |ops|
  {
    hide Step, AnswerTo;
    if ops != [] {
      var rest := ops[1..];
      HeardInTurn(Step(d, ops[0]), rest);
      forall i | 0 <= i < |ops| ensures Heard(d, ops)[i] == AnswerTo(Run(d, ops[..i]), ops[i]) {
        if i > 0 {
          assert ops[..i][1..] == rest[..i - 1];
        }
      }
    }
  }

  predicate InTurn(next: Strategy, heard: seq<Answer>, answers: seq<Answer>, ops: seq<Op>)
    requires |answers| == |ops|
  {
    forall i :: 0 <= i < |ops| ==> next(heard + answers[..i]) == Some(ops[i])
  }

  predicate Ends(d: DB, next: Strategy, heard: seq<Answer>, steps: nat, ops: seq<Op>) {
    |ops| == steps || !NeverPanics(d, ops) || next(heard + Heard(d, ops)) == None
  }

  lemma InTurnStep(next: Strategy, heard: seq<Answer>, a: Answer, answers: seq<Answer>, op: Op, ops: seq<Op>)
    requires |answers| == |ops| && next(heard) == Some(op) && InTurn(next, heard + [a], answers, ops)
    ensures InTurn(next, heard, [a] + answers, [op] + ops)
  {
    var all := [a] + answers;
    assert heard + all[..0] == heard;
    forall i | 0 <= i < |ops| ensures next(heard + all[..i + 1]) == Some(ops[i]) {
      assert heard + all[..i + 1] == heard + [a] + answers[..i];
    }
  }

  /** Every operation is what the strategy asks for after the answers to those before it. Operations end with the
    * steps, with the strategy, or with a panic, and not before. */
  lemma {:induction false} AskedInTurn(d: DB, next: Strategy, heard: seq<Answer>, steps: nat)
    ensures
      var ops := Asked(d, next, heard, steps);
      && |ops| <= steps && |Heard(d, ops)| == |ops| && InTurn(next, heard, Heard(d, ops), ops)
      && (ops != [] ==> NeverPanics(d, ops[..|ops| - 1]))
      && Ends(d, next, heard, steps, ops)
    decreases steps
  {
    hide Step, AnswerTo, ReturnedBy, InTurn;
    if steps > 0 && next(heard).Some? {
      var op := next(heard).value;
      var a := AnswerTo(d, op);
      if ReturnedBy(d, op).Panic? {
        assert Asked(d, next, heard, steps) == [op] && [op][..0] == [];
        assert Heard(d, [op]) == [a] + [] && InTurn(next, heard + [a], [], []) by { NothingInTurn(next, heard + [a]); }
        InTurnStep(next, heard, a, [], op, []);
      } else {
        var e := Step(d, op);
        var rest := Asked(e, next, heard + [a], steps - 1);
        AskedInTurn(e, next, heard + [a], steps - 1);
        InTurnStep(next, heard, a, Heard(e, rest), op, rest);
        AskedGoesOn(d, next, heard, steps, op, rest);
      }
    } else {
      NothingInTurn(next, heard);
      assert heard + [] == heard;
    }
  }

  lemma NothingInTurn(next: Strategy, heard: seq<Answer>)
    ensures InTurn(next, heard, [], [])
  {}

  lemma AskedGoesOn(d: DB, next: Strategy, heard: seq<Answer>, steps: nat, op: Op, rest: seq<Op>)
    requires steps > 0 && !ReturnedBy(d, op).Panic?
    requires Ends(Step(d, op), next, heard + [AnswerTo(d, op)], steps - 1, rest)
    requires rest != [] ==> NeverPanics(Step(d, op), rest[..|rest| - 1])
    ensures
      var ops := [op] + rest;
      && Ends(d, next, heard, steps, ops) && NeverPanics(d, ops[..|ops| - 1])
      && Heard(d, ops) == [AnswerTo(d, op)] + Heard(Step(d, op), rest)
  {
    hide Step, AnswerTo, ReturnedBy;
    var ops := [op] + rest;
    assert ops[1..] == rest;
    assert heard + Heard(d, ops) == heard + [AnswerTo(d, op)] + Heard(Step(d, op), rest);
    if rest != [] {
      assert ops[..|ops| - 1] == [op] + rest[..|rest| - 1];
    } else {
      assert ops[..|ops| - 1] == [];
    }
  }
}
