/** Exactly when a trie lookup comes to an end, on any store at all. */
module TrieHalting {
  import opened Primitives
  import opened MptCodec
  import opened Trie

  /** A node and how much of the key has been followed when it is loaded. */
  type State = (Bytes, nat)

  /** The nodes that lead on are loaded in states of s only. */
  ghost predicate StaysIn(ns: Nodes, node: Bytes, key: Bytes, offset: nat, fuel: nat, s: set<State>)
    requires offset <= |key|
    decreases fuel
  {
    fuel > 0 ==>
      match Visit(ns, node, key, offset)
      case Stop(_) => true
      case Go(n, o) => (node, offset) in s && StaysIn(ns, n, key, o, fuel - 1, s)
  }

  /** fuel is the number of nodes the lookup loads. */
  ghost predicate Takes(ns: Nodes, node: Bytes, key: Bytes, offset: nat, fuel: nat)
    requires offset <= |key|
  {
    fuel > 0 && Walk(ns, node, key, offset, fuel).Some? && Walk(ns, node, key, offset, fuel - 1).None?
  }

  lemma {:induction false} TakesSome(ns: Nodes, node: Bytes, key: Bytes, offset: nat, fuel: nat) returns (n: nat)
    requires offset <= |key| && Walk(ns, node, key, offset, fuel).Some?
    ensures n <= fuel && Takes(ns, node, key, offset, n)
    decreases fuel
  {
    hide Visit;
    if Walk(ns, node, key, offset, fuel - 1).Some? {
      n := TakesSome(ns, node, key, offset, fuel - 1);
    } else {
      n := fuel;
    }
  }

  /** A lookup that will end does not come back to a state from which it takes longer. */
  lemma {:induction false} NeverBack(ns: Nodes, node: Bytes, key: Bytes, offset: nat, fuel: nat, s: set<State>,
                                     gone: State)
    requires offset <= |key| && gone.1 <= |key|
    requires Walk(ns, node, key, offset, fuel).Some? && Walk(ns, gone.0, key, gone.1, fuel).None?
    requires StaysIn(ns, node, key, offset, fuel, s)
    ensures StaysIn(ns, node, key, offset, fuel, s - {gone})
    decreases fuel
  {
    hide Visit;
    match Visit(ns, node, key, offset)
    case Stop(_) =>
    case Go(n, o) =>
      if Walk(ns, gone.0, key, gone.1, fuel - 1).Some? {
        MoreFuel(ns, gone.0, key, gone.1, fuel - 1, fuel);
      }
      NeverBack(ns, n, key, o, fuel - 1, s, gone);
  }

  /** So it loads at most one node for each state, and one more that ends it. */
  lemma {:induction false} OneLoadPerState(ns: Nodes, node: Bytes, key: Bytes, offset: nat, fuel: nat, s: set<State>)
    requires offset <= |key| && Takes(ns, node, key, offset, fuel)
    requires StaysIn(ns, node, key, offset, fuel, s)
    ensures fuel <= |s| + 1
    decreases fuel
  {
    hide Visit;
    match Visit(ns, node, key, offset)
    case Stop(_) =>
    case Go(n, o) =>
      NeverBack(ns, n, key, o, fuel - 1, s, (node, offset));
      OneLoadPerState(ns, n, key, o, fuel - 1, s - {(node, offset)});
  }

  // ---- Counting the states ----

  function Layer(hashes: set<Bytes>, offset: nat): set<State> {
    set h | h in hashes :: (h, offset)
  }

  function States(hashes: set<Bytes>, offsets: nat): set<State> {
    if offsets == 0 then {} else States(hashes, offsets - 1) + Layer(hashes, offsets - 1)
  }

  lemma {:induction false} LayerSize(hashes: set<Bytes>, offset: nat)
    ensures |Layer(hashes, offset)| == |hashes|
  {
    if hashes != {} {
      var h :| h in hashes;
      LayerSize(hashes - {h}, offset);
      assert Layer(hashes, offset) == Layer(hashes - {h}, offset) + {(h, offset)};
    }
  }

  lemma {:induction false} StatesSize(hashes: set<Bytes>, offsets: nat)
    ensures |States(hashes, offsets)| <= |hashes| * offsets
    decreases offsets
  {
    if offsets > 0 {
      StatesSize(hashes, offsets - 1);
      LayerSize(hashes, offsets - 1);
      UnionSize(States(hashes, offsets - 1), Layer(hashes, offsets - 1));
      OneMore(|hashes|, offsets);
    }
  }

  lemma {:induction false} InStates(hashes: set<Bytes>, offsets: nat, h: Bytes, o: nat)
    requires h in hashes && o < offsets
    ensures (h, o) in States(hashes, offsets)
    decreases offsets
  {
    if o < offsets - 1 {
      InStates(hashes, offsets - 1, h, o);
    }
  }

  lemma UnionSize<T>(a: set<T>, b: set<T>)
    ensures |a + b| <= |a| + |b|
  {
    assert a + b == a + (b - a);
  }

  lemma OneMore(n: nat, k: nat)
    requires k > 0
    ensures n * k == n * (k - 1) + n
  {}

  lemma {:induction false} StaysInStates(ns: Nodes, node: Bytes, key: Bytes, offset: nat, fuel: nat)
    requires offset <= |key|
    ensures StaysIn(ns, node, key, offset, fuel, States(ns.Keys, |key| + 1))
    decreases fuel
  {
    hide States;
    if fuel > 0 {
      match Visit(ns, node, key, offset)
      case Stop(_) =>
      case Go(n, o) =>
        InStates(ns.Keys, |key| + 1, node, offset);
        StaysInStates(ns, n, key, o, fuel - 1);
    }
  }

  /** The most nodes a lookup that ends can load. */
  function MostLoads(ns: Nodes, key: Bytes): nat {
    |ns.Keys| * (|key| + 1) + 1
  }

  lemma LoadsAreBounded(ns: Nodes, node: Bytes, key: Bytes, fuel: nat)
    requires Walk(ns, node, key, 0, fuel).Some?
    ensures Walk(ns, node, key, 0, MostLoads(ns, key)).Some?
  {
    hide Walk, StaysIn;
    var n := TakesSome(ns, node, key, 0, fuel);
    StaysInStates(ns, node, key, 0, n);
    OneLoadPerState(ns, node, key, 0, n, States(ns.Keys, |key| + 1));
    StatesSize(ns.Keys, |key| + 1);
    MoreFuel(ns, node, key, 0, n, MostLoads(ns, key));
  }

  /** So whoever follows a lookup that far knows whether it will ever end. */
  lemma EndsWithinMostLoads(ns: Nodes, root: Bytes, key: Bytes)
    ensures Halts(ns, root, key) <==> NoTrie(root) || Walk(ns, root, key, 0, MostLoads(ns, key)).Some?
  {
    hide Walk, MostLoads;
    if Halts(ns, root, key) && !NoTrie(root) {
      var fuel: nat :| Walk(ns, root, key, 0, fuel).Some?;
      LoadsAreBounded(ns, root, key, fuel);
    }
  }

  // ---- Cycles of extensions without a path ----

  /** The child of an extension node that has no path. */
  function Pathless(ns: Nodes, h: Bytes): Option<Bytes> {
    if h !in ns then None
    else
      match DecodeNode(ns[h])
      case Ok(Extension(path, child)) => if path == [] then Some(child) else None
      case _ => None
  }

  function Follow(ns: Nodes, h: Bytes, n: nat): Option<Bytes>
    decreases n
  {
    if n == 0 then Some(h)
    else match Pathless(ns, h) case Some(child) => Follow(ns, child, n - 1) case None => None
  }

  /** The node leads back to itself through extensions without paths. */
  ghost predicate OnCycle(ns: Nodes, h: Bytes) {
    exists n: nat :: n > 0 && Follow(ns, h, n) == Some(h)
  }

  ghost predicate Acyclic(ns: Nodes) {
    forall h :: !OnCycle(ns, h)
  }

  lemma {:induction false} FollowOn(ns: Nodes, h: Bytes, n: nat)
    requires Follow(ns, h, n).Some?
    ensures Follow(ns, h, n + 1) == Pathless(ns, Follow(ns, h, n).value)
    decreases n
  {
    hide Pathless;
    if n > 0 {
      FollowOn(ns, Pathless(ns, h).value, n - 1);
    } else if Pathless(ns, h).Some? {
      assert Follow(ns, Pathless(ns, h).value, 0) == Pathless(ns, h);
    }
  }

  lemma CycleGoesOn(ns: Nodes, h: Bytes)
    requires OnCycle(ns, h)
    ensures Pathless(ns, h).Some? && OnCycle(ns, Pathless(ns, h).value)
  {
    hide Pathless;
    var n: nat :| n > 0 && Follow(ns, h, n) == Some(h);
    var child := Pathless(ns, h).value;
    assert Follow(ns, child, n - 1) == Some(h);
    FollowOn(ns, child, n - 1);
  }

  /** A lookup at such an extension goes to its child and gets no further in the key; a lookup that gets no
    * further is at one. */
  lemma StandsStillIff(ns: Nodes, node: Bytes, key: Bytes, offset: nat)
    requires offset <= |key|
    ensures Pathless(ns, node).Some? ==> Visit(ns, node, key, offset) == Go(Pathless(ns, node).value, offset)
    ensures Visit(ns, node, key, offset).Go? && Visit(ns, node, key, offset).offset == offset
      ==> Pathless(ns, node) == Some(Visit(ns, node, key, offset).node)
  {
    hide DecodeNode;
  }

  /** From a cycle no lookup gets away. */
  lemma {:induction false} CycleNeverEnds(ns: Nodes, node: Bytes, key: Bytes, offset: nat, fuel: nat)
    requires offset <= |key| && OnCycle(ns, node)
    ensures Walk(ns, node, key, offset, fuel).None?
    decreases fuel
  {
    hide Visit, OnCycle, Pathless;
    if fuel > 0 {
      CycleGoesOn(ns, node);
      StandsStillIff(ns, node, key, offset);
      CycleNeverEnds(ns, Pathless(ns, node).value, key, offset, fuel - 1);
    }
  }

  // ---- The nodes a lookup gets to ----

  /** Where a lookup stands after n loads, if it has not ended. */
  function After(ns: Nodes, node: Bytes, key: Bytes, offset: nat, n: nat): Option<State>
    requires offset <= |key|
    decreases n
  {
    if n == 0 then Some((node, offset))
    else match Visit(ns, node, key, offset) case Stop(_) => None case Go(m, o) => After(ns, m, key, o, n - 1)
  }

  /** The lookup gets to no node that lies on a cycle. */
  ghost predicate MeetsNoCycle(ns: Nodes, node: Bytes, key: Bytes, offset: nat)
    requires offset <= |key|
  {
    forall n: nat :: match After(ns, node, key, offset, n) case Some(s) => !OnCycle(ns, s.0) case None => true
  }

  lemma MeetsNoneLater(ns: Nodes, node: Bytes, key: Bytes, offset: nat)
    requires offset <= |key| && MeetsNoCycle(ns, node, key, offset)
    ensures !OnCycle(ns, node)
    ensures Visit(ns, node, key, offset).Go?
      ==> MeetsNoCycle(ns, Visit(ns, node, key, offset).node, key, Visit(ns, node, key, offset).offset)
  {
    hide Visit, OnCycle;
    assert After(ns, node, key, offset, 0) == Some((node, offset));
    if Visit(ns, node, key, offset).Go? {
      var go := Visit(ns, node, key, offset);
      forall n: nat
        ensures match After(ns, go.node, key, go.offset, n) case Some(s) => !OnCycle(ns, s.0) case None => true
      {
        assert After(ns, node, key, offset, n + 1) == After(ns, go.node, key, go.offset, n);
      }
    }
  }

  /** Every node seen at this point of the key leads to the present one through extensions without paths. */
  ghost predicate LeadHere(ns: Nodes, seen: set<Bytes>, node: Bytes) {
    seen <= ns.Keys && forall h :: h in seen ==> exists n: nat :: n > 0 && Follow(ns, h, n) == Some(node)
  }

  lemma LeadOn(ns: Nodes, seen: set<Bytes>, node: Bytes)
    requires LeadHere(ns, seen, node) && Pathless(ns, node).Some?
    ensures LeadHere(ns, seen + {node}, Pathless(ns, node).value)
  {
    var child := Pathless(ns, node).value;
    hide Pathless;
    forall h | h in seen + {node} ensures exists n: nat :: n > 0 && Follow(ns, h, n) == Some(child) {
      if h in seen {
        var n: nat :| n > 0 && Follow(ns, h, n) == Some(node);
        FollowOn(ns, h, n);
        assert Follow(ns, h, n + 1) == Some(child);
      } else {
        assert Follow(ns, child, 0) == Some(child);
        assert Follow(ns, h, 1) == Some(child);
      }
    }
    assert node in ns by {
      PathlessIsStored(ns, node);
    }
  }

  lemma PathlessIsStored(ns: Nodes, h: Bytes)
    requires Pathless(ns, h).Some?
    ensures h in ns
  {}

  /** A lookup that meets no cycle ends: at each point of the key it runs out of unseen nodes. */
  lemma {:induction false} EndsWithoutCycle(ns: Nodes, node: Bytes, key: Bytes, offset: nat, seen: set<Bytes>)
    returns (fuel: nat)
    requires offset <= |key| && MeetsNoCycle(ns, node, key, offset) && LeadHere(ns, seen, node)
    ensures Walk(ns, node, key, offset, fuel).Some?
    decreases |key| - offset, |ns.Keys - seen|
  {
    hide Visit, MeetsNoCycle, LeadHere;
    MeetsNoneLater(ns, node, key, offset);
    match Visit(ns, node, key, offset)
    case Stop(_) => fuel := 1;
    case Go(m, o) =>
      var rest: nat;
      VisitMovesOn(ns, node, key, offset);
      if o > offset {
        NothingSeen(ns, m);
        rest := EndsWithoutCycle(ns, m, key, o, {});
      } else {
        StillUnseen(ns, node, key, offset, seen);
        rest := EndsWithoutCycle(ns, m, key, o, seen + {node});
      }
      fuel := rest + 1;
  }

  lemma NothingSeen(ns: Nodes, node: Bytes)
    ensures LeadHere(ns, {}, node)
  {}

  lemma VisitMovesOn(ns: Nodes, node: Bytes, key: Bytes, offset: nat)
    requires offset <= |key| && Visit(ns, node, key, offset).Go?
    ensures offset <= Visit(ns, node, key, offset).offset <= |key|
  {}

  /** Where a lookup gets no further in the key and is not on a cycle, the node has not been seen before. */
  lemma StillUnseen(ns: Nodes, node: Bytes, key: Bytes, offset: nat, seen: set<Bytes>)
    requires offset <= |key| && LeadHere(ns, seen, node) && !OnCycle(ns, node)
    requires Visit(ns, node, key, offset).Go? && Visit(ns, node, key, offset).offset == offset
    ensures LeadHere(ns, seen + {node}, Visit(ns, node, key, offset).node)
    ensures |ns.Keys - (seen + {node})| < |ns.Keys - seen|
  {
    hide Visit, Pathless;
    StandsStillIff(ns, node, key, offset);
    assert node !in seen;
    LeadOn(ns, seen, node);
    PathlessIsStored(ns, node);
    hide LeadHere, OnCycle;
    FewerUnseen(ns.Keys, seen, node);
  }

  lemma FewerUnseen(all: set<Bytes>, seen: set<Bytes>, node: Bytes)
    requires node in all && node !in seen
    ensures |all - (seen + {node})| < |all - seen|
  {
    assert all - (seen + {node}) < all - seen;
    SmallerSet(all - (seen + {node}), all - seen);
  }

  lemma SmallerSet(s: set<Bytes>, t: set<Bytes>)
    requires s < t
    ensures |s| < |t|
  {
    assert t == s + (t - s) && t - s != {};
  }

  lemma {:induction false} AfterNeverEnds(ns: Nodes, node: Bytes, key: Bytes, offset: nat, n: nat, fuel: nat)
    requires offset <= |key| && After(ns, node, key, offset, n).Some?
    requires OnCycle(ns, After(ns, node, key, offset, n).value.0)
    ensures Walk(ns, node, key, offset, fuel).None?
    decreases n
  {
    hide Visit, OnCycle;
    if n == 0 {
      CycleNeverEnds(ns, node, key, offset, fuel);
    } else if fuel > 0 {
      var go := Visit(ns, node, key, offset);
      AfterNeverEnds(ns, go.node, key, go.offset, n - 1, fuel - 1);
    }
  }

  // ---- When lookups end ----

  ghost predicate Ends(ns: Nodes, node: Bytes, key: Bytes, offset: nat)
    requires offset <= |key|
  {
    exists fuel: nat :: Walk(ns, node, key, offset, fuel).Some?
  }

  /** A lookup ends if and only if it gets to no node on a cycle of extensions without paths. */
  lemma LookupEndsIff(ns: Nodes, root: Bytes, key: Bytes)
    ensures Halts(ns, root, key) <==> NoTrie(root) || MeetsNoCycle(ns, root, key, 0)
  {
    hide Walk, OnCycle, After;
    if MeetsNoCycle(ns, root, key, 0) {
      var fuel := EndsWithoutCycle(ns, root, key, 0, {});
    } else {
      var n: nat :| After(ns, root, key, 0, n).Some? && OnCycle(ns, After(ns, root, key, 0, n).value.0);
      forall fuel: nat ensures Walk(ns, root, key, 0, fuel).None? {
        AfterNeverEnds(ns, root, key, 0, n, fuel);
      }
    }
  }

  /** Every lookup on a store, from any node and at any point of any key, ends if and only if no node lies on a
    * cycle of extensions without paths. */
  lemma AllEndIff(ns: Nodes)
    ensures Acyclic(ns) <==>
      forall node, key: Bytes, offset: nat :: offset <= |key| ==> Ends(ns, node, key, offset)
  {
    hide Walk, OnCycle;
    if Acyclic(ns) {
      forall node, key: Bytes, offset: nat | offset <= |key| ensures Ends(ns, node, key, offset) {
        var fuel := EndsWithoutCycle(ns, node, key, offset, {});
      }
    } else {
      var h :| OnCycle(ns, h);
      var key: Bytes := [];
      forall fuel: nat ensures Walk(ns, h, key, 0, fuel).None? {
        CycleNeverEnds(ns, h, key, 0, fuel);
      }
      assert !Ends(ns, h, key, 0);
    }
  }

  /** Extensions that all have paths make no cycle. */
  lemma PathsMakeAcyclic(ns: Nodes)
    requires PathsNonEmpty(ns)
    ensures Acyclic(ns)
  {
    forall h ensures !OnCycle(ns, h) {
      if OnCycle(ns, h) {
        CycleGoesOn(ns, h);
      }
    }
  }
}
