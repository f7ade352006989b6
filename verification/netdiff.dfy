/** Collapsing a write log into one change per slot. */
module NetDiff {
  import opened Primitives
  import opened StateDBSpec

  function IndexOf(m: seq<Change>, a: Address, k: Hash): (r: Option<nat>)
    ensures r.Some? ==> r.value < |m| && m[r.value].address == a && m[r.value].slot == k
    ensures r.None? ==> forall i :: 0 <= i < |m| ==> !(m[i].address == a && m[i].slot == k)
  {
    if m == [] then None
    else if m[|m| - 1].address == a && m[|m| - 1].slot == k then Some(|m| - 1)
    else IndexOf(m[..|m| - 1], a, k)
  }

  /** One record per slot in the order of first writes, keeping the first old and the last new value. */
  function Merge(cs: seq<Change>): seq<Change> {
    if cs == [] then []
    else
      var m, c := Merge(cs[..|cs| - 1]), cs[|cs| - 1];
      match IndexOf(m, c.address, c.slot)
      case Some(i) => m[i := m[i].(newValue := c.newValue)]
      case None => m + [c]
  }

  function DropNoOps(m: seq<Change>): seq<Change> {
    if m == [] then []
    else
      var c := m[|m| - 1];
      DropNoOps(m[..|m| - 1]) + if c.oldValue != c.newValue then [c] else []
  }

  function Net(cs: seq<Change>): seq<Change> {
    DropNoOps(Merge(cs))
  }

  // ---- What a log says about a slot ----

  /** The value last written, or a default if nothing was. */
  function LastWrite(cs: seq<Change>, a: Address, k: Hash, default: Hash): Hash {
    if cs == [] then default
    else if cs[|cs| - 1].address == a && cs[|cs| - 1].slot == k then cs[|cs| - 1].newValue
    else LastWrite(cs[..|cs| - 1], a, k, default)
  }

  /** The position of the first write to a slot, or the length of the log. */
  function FirstWrite(cs: seq<Change>, a: Address, k: Hash): (r: nat)
    ensures r <= |cs|
  {
    if cs == [] then 0
    else
      var before := FirstWrite(cs[..|cs| - 1], a, k);
      if before < |cs| - 1 then before
      else if cs[|cs| - 1].address == a && cs[|cs| - 1].slot == k then |cs| - 1
      else |cs|
  }

  /** Every write records the value the slot had before it: the write before, or the original value. */
  ghost predicate Chained(cs: seq<Change>, orig: (Address, Hash) -> Hash) {
    forall i :: 0 <= i < |cs| ==>
      cs[i].oldValue == LastWrite(cs[..i], cs[i].address, cs[i].slot, orig(cs[i].address, cs[i].slot))
  }

  // ---- The records of a merged log ----

  /** m lists the written slots once each, in the order of their first writes. */
  ghost predicate ListsSlots(m: seq<Change>, cs: seq<Change>) {
    && (forall i :: 0 <= i < |m| ==> FirstWrite(cs, m[i].address, m[i].slot) < |cs|)
    && (forall i, j :: 0 <= i < j < |m| ==>
      FirstWrite(cs, m[i].address, m[i].slot) < FirstWrite(cs, m[j].address, m[j].slot))
  }

  /** A record from a slot's original value to the one last written. */
  ghost predicate Spanned(c: Change, cs: seq<Change>, orig: (Address, Hash) -> Hash) {
    && c.oldValue == orig(c.address, c.slot)
    && c.newValue == LastWrite(cs, c.address, c.slot, c.oldValue)
  }

  ghost predicate Spans(m: seq<Change>, cs: seq<Change>, orig: (Address, Hash) -> Hash) {
    forall i :: 0 <= i < |m| ==> Spanned(m[i], cs, orig)
  }

  ghost predicate ListsAll(m: seq<Change>, cs: seq<Change>) {
    forall a, k :: FirstWrite(cs, a, k) < |cs| ==> IndexOf(m, a, k).Some?
  }

  lemma FirstWriteStep(cs: seq<Change>, c: Change, a: Address, k: Hash)
    ensures FirstWrite(cs + [c], a, k) ==
      if FirstWrite(cs, a, k) < |cs| then FirstWrite(cs, a, k)
      else if c.address == a && c.slot == k then |cs| else |cs| + 1
    ensures forall d ::
      LastWrite(cs + [c], a, k, d) == (if c.address == a && c.slot == k then c.newValue else LastWrite(cs, a, k, d))
  {
    assert (cs + [c])[..|cs|] == cs;
  }

  lemma {:induction false} NoWriteIsDefault(cs: seq<Change>, a: Address, k: Hash, default: Hash)
    requires FirstWrite(cs, a, k) == |cs|
    ensures LastWrite(cs, a, k, default) == default
    decreases |cs|
  {
    if cs != [] {
      NoWriteIsDefault(cs[..|cs| - 1], a, k, default);
    }
  }

  lemma IndexOfUpdated(m: seq<Change>, i: nat, v: Hash, a: Address, k: Hash)
    requires i < |m|
    ensures IndexOf(m[i := m[i].(newValue := v)], a, k).Some? <==> IndexOf(m, a, k).Some?
  {
    var n := m[i := m[i].(newValue := v)];
    if IndexOf(m, a, k).Some? {
      assert n[IndexOf(m, a, k).value].address == a;
    }
    if IndexOf(n, a, k).Some? {
      assert m[IndexOf(n, a, k).value].address == a;
    }
  }

  lemma UpdateListsSlots(cs: seq<Change>, c: Change, m: seq<Change>, n: seq<Change>)
    requires ListsSlots(m, cs) && |n| == |m|
    requires forall i :: 0 <= i < |m| ==> n[i].address == m[i].address && n[i].slot == m[i].slot
    ensures ListsSlots(n, cs + [c])
  {
    hide FirstWrite, LastWrite;
    forall i | 0 <= i < |n|
      ensures FirstWrite(cs + [c], n[i].address, n[i].slot) == FirstWrite(cs, m[i].address, m[i].slot) < |cs|
    {
      FirstWriteStep(cs, c, m[i].address, m[i].slot);
    }
  }

  lemma UpdateStep(cs: seq<Change>, c: Change, m: seq<Change>, i: nat, orig: (Address, Hash) -> Hash)
    requires ListsSlots(m, cs) && Spans(m, cs, orig) && ListsAll(m, cs)
    requires i < |m| && m[i].address == c.address && m[i].slot == c.slot
    ensures
      var n := m[i := m[i].(newValue := c.newValue)];
      ListsSlots(n, cs + [c]) && Spans(n, cs + [c], orig) && ListsAll(n, cs + [c])
  {
    hide LastWrite, FirstWrite, IndexOf;
    var n := m[i := m[i].(newValue := c.newValue)];
    MergedOnce(m, cs);
    UpdateListsSlots(cs, c, m, n);
    forall j | 0 <= j < |n| ensures Spanned(n[j], cs + [c], orig) {
      assert Spanned(m[j], cs, orig);
      FirstWriteStep(cs, c, m[j].address, m[j].slot);
    }
    forall a, k | FirstWrite(cs + [c], a, k) < |cs + [c]| ensures IndexOf(n, a, k).Some? {
      FirstWriteStep(cs, c, a, k);
      IndexOfUpdated(m, i, c.newValue, a, k);
      FirstWriteStep(cs, c, m[i].address, m[i].slot);
    }
  }

  lemma AppendStep(cs: seq<Change>, c: Change, m: seq<Change>, orig: (Address, Hash) -> Hash)
    requires ListsSlots(m, cs) && Spans(m, cs, orig) && ListsAll(m, cs)
    requires IndexOf(m, c.address, c.slot).None? && c.oldValue == orig(c.address, c.slot)
    ensures ListsSlots(m + [c], cs + [c]) && Spans(m + [c], cs + [c], orig) && ListsAll(m + [c], cs + [c])
  {
    hide LastWrite, FirstWrite, IndexOf;
    UpdateListsSlots(cs, c, m, m);
    FirstWriteStep(cs, c, c.address, c.slot);
    assert FirstWrite(cs + [c], c.address, c.slot) == |cs|;
    forall i | 0 <= i < |m| ensures FirstWrite(cs + [c], m[i].address, m[i].slot) < |cs| {
      FirstWriteStep(cs, c, m[i].address, m[i].slot);
    }
    forall j | 0 <= j < |m| + 1 ensures Spanned((m + [c])[j], cs + [c], orig) {
      if j < |m| {
        assert Spanned(m[j], cs, orig);
        FirstWriteStep(cs, c, m[j].address, m[j].slot);
        IndexOfMissing(m, c.address, c.slot);
      }
    }
    forall a, k | FirstWrite(cs + [c], a, k) < |cs + [c]| ensures IndexOf(m + [c], a, k).Some? {
      FirstWriteStep(cs, c, a, k);
      IndexOfGrows(m, c);
    }
  }

  lemma IndexOfMissing(m: seq<Change>, a: Address, k: Hash)
    requires IndexOf(m, a, k).None?
    ensures forall i :: 0 <= i < |m| ==> !(m[i].address == a && m[i].slot == k)
  {}

  /** A slot the merged log does not list has not been written. */
  lemma UnlistedIsUnwritten(cs: seq<Change>, m: seq<Change>, c: Change, orig: (Address, Hash) -> Hash)
    requires ListsAll(m, cs) && IndexOf(m, c.address, c.slot).None?
    requires c.oldValue == LastWrite(cs, c.address, c.slot, orig(c.address, c.slot))
    ensures c.oldValue == orig(c.address, c.slot)
  {
    hide IndexOf;
    NoWriteIsDefault(cs, c.address, c.slot, orig(c.address, c.slot));
  }

  lemma MergeStep(cs: seq<Change>, c: Change, m: seq<Change>, orig: (Address, Hash) -> Hash)
    requires ListsSlots(m, cs) && Spans(m, cs, orig) && ListsAll(m, cs)
    requires c.oldValue == LastWrite(cs, c.address, c.slot, orig(c.address, c.slot))
    ensures
      var n :=
        match IndexOf(m, c.address, c.slot)
        case Some(i) => m[i := m[i].(newValue := c.newValue)]
        case None => m + [c];
      ListsSlots(n, cs + [c]) && Spans(n, cs + [c], orig) && ListsAll(n, cs + [c])
  {
    hide ListsSlots, Spans, ListsAll, LastWrite;
    match IndexOf(m, c.address, c.slot)
    case Some(i) => UpdateStep(cs, c, m, i, orig);
    case None =>
      UnlistedIsUnwritten(cs, m, c, orig);
      AppendStep(cs, c, m, orig);
  }

  lemma MergedOnce(m: seq<Change>, cs: seq<Change>)
    requires ListsSlots(m, cs)
    ensures forall i, j :: 0 <= i < j < |m| ==> !(m[i].address == m[j].address && m[i].slot == m[j].slot)
  {
    hide FirstWrite;
    forall i, j | 0 <= i < j < |m| ensures !(m[i].address == m[j].address && m[i].slot == m[j].slot) {
      assert FirstWrite(cs, m[i].address, m[i].slot) < FirstWrite(cs, m[j].address, m[j].slot);
    }
  }

  lemma {:induction false} MergeIsFaithful(cs: seq<Change>, orig: (Address, Hash) -> Hash)
    requires Chained(cs, orig)
    ensures ListsSlots(Merge(cs), cs) && Spans(Merge(cs), cs, orig) && ListsAll(Merge(cs), cs)
    decreases |cs|
  {
    if cs != [] {
      var init, c := cs[..|cs| - 1], cs[|cs| - 1];
      assert cs == init + [c];
      assert forall i :: 0 <= i < |init| ==> init[..i] == cs[..i];
      hide LastWrite, FirstWrite, IndexOf;
      MergeIsFaithful(init, orig);
      MergeStep(init, c, Merge(init), orig);
    }
  }

  // ---- Dropping the records that change nothing ----

  lemma {:induction false} DropIsSelection(m: seq<Change>)
    ensures
      var n := DropNoOps(m);
      && (forall i :: 0 <= i < |n| ==> n[i].oldValue != n[i].newValue && n[i] in m)
      && (forall c :: c in m && c.oldValue != c.newValue ==> c in n)
    decreases |m|
  {
    if m != [] {
      var init := m[..|m| - 1];
      assert m == init + [m[|m| - 1]];
      DropIsSelection(init);
    }
  }

  lemma ListsSlotsPlus(n: seq<Change>, c: Change, cs: seq<Change>)
    requires ListsSlots(n, cs) && FirstWrite(cs, c.address, c.slot) < |cs|
    requires forall i :: 0 <= i < |n| ==> FirstWrite(cs, n[i].address, n[i].slot) < FirstWrite(cs, c.address, c.slot)
    ensures ListsSlots(n + [c], cs)
  {
    hide FirstWrite;
  }

  lemma ListsSlotsInit(m: seq<Change>, cs: seq<Change>, n: seq<Change>)
    requires m != [] && ListsSlots(m, cs)
    requires forall i :: 0 <= i < |n| ==> n[i] in m[..|m| - 1]
    ensures ListsSlots(m[..|m| - 1], cs) && FirstWrite(cs, m[|m| - 1].address, m[|m| - 1].slot) < |cs|
    ensures forall i :: 0 <= i < |n| ==>
      FirstWrite(cs, n[i].address, n[i].slot) < FirstWrite(cs, m[|m| - 1].address, m[|m| - 1].slot)
  {
    hide FirstWrite;
    forall i | 0 <= i < |n|
      ensures FirstWrite(cs, n[i].address, n[i].slot) < FirstWrite(cs, m[|m| - 1].address, m[|m| - 1].slot)
    {
      assert n[i] in m[..|m| - 1];
      var j :| 0 <= j < |m| - 1 && m[j] == n[i];
    }
  }

  lemma {:induction false} DropKeepsOrder(m: seq<Change>, cs: seq<Change>)
    requires ListsSlots(m, cs)
    ensures ListsSlots(DropNoOps(m), cs)
    decreases |m|
  {
    if m != [] {
      hide FirstWrite, ListsSlots;
      var init := m[..|m| - 1];
      DropIsSelection(init);
      ListsSlotsInit(m, cs, DropNoOps(init));
      DropKeepsOrder(init, cs);
      ListsSlotsPlus(DropNoOps(init), m[|m| - 1], cs);
      assert DropNoOps(init) + [] == DropNoOps(init);
    }
  }

  /** r is exactly the difference between original and current values of the slots: one record for each
    * slot that differs and none for any other, from the original value to the current one, in the
    * order in which the slots were first written. */
  ghost predicate IsDifference(r: seq<Change>, cs: seq<Change>, orig: (Address, Hash) -> Hash,
                               now: (Address, Hash) -> Hash)
  {
    && (forall i :: 0 <= i < |r| ==>
      && r[i].oldValue == orig(r[i].address, r[i].slot)
      && r[i].newValue == now(r[i].address, r[i].slot)
      && r[i].oldValue != r[i].newValue)
    && (forall i, j :: 0 <= i < j < |r| ==> !(r[i].address == r[j].address && r[i].slot == r[j].slot))
    && (forall a, k :: orig(a, k) != now(a, k) ==> Change(a, k, orig(a, k), now(a, k)) in r)
    && (forall i, j :: 0 <= i < j < |r| ==>
      FirstWrite(cs, r[i].address, r[i].slot) < FirstWrite(cs, r[j].address, r[j].slot))
  }

  lemma NetIsDifference(cs: seq<Change>, orig: (Address, Hash) -> Hash, now: (Address, Hash) -> Hash)
    requires Chained(cs, orig)
    requires forall a, k :: now(a, k) == LastWrite(cs, a, k, orig(a, k))
    ensures IsDifference(Net(cs), cs, orig, now)
  {
    hide FirstWrite, LastWrite, Merge, DropNoOps, IndexOf, Chained;
    var m, r := Merge(cs), Net(cs);
    MergeIsFaithful(cs, orig);
    DropIsSelection(m);
    DropKeepsOrder(m, cs);
    MergedOnce(r, cs);
    forall i | 0 <= i < |r| ensures Spanned(r[i], cs, orig) {
      assert r[i] in m;
      var j :| 0 <= j < |m| && m[j] == r[i];
    }
    forall a, k | orig(a, k) != now(a, k) ensures Change(a, k, orig(a, k), now(a, k)) in r {
      if FirstWrite(cs, a, k) == |cs| {
        NoWriteIsDefault(cs, a, k, orig(a, k));
      }
      var i := IndexOf(m, a, k).value;
      assert Spanned(m[i], cs, orig);
      assert m[i] == Change(a, k, orig(a, k), now(a, k));
    }
  }

  // ---- The loops ----

  /** Collapses the log with a map from slots to positions in the result, then drops what did not change. */
  method Collapse(changes: seq<Change>) returns (filtered: seq<Change>)
    ensures filtered == Net(changes)
  {
    hide IndexOf;
    var seen: map<(Address, Hash), nat> := map[];
    var result: seq<Change> := [];
    for n := 0 to |changes|
      invariant result == Merge(changes[..n])
      invariant forall a, k :: IndexOf(result, a, k) == if (a, k) in seen then Some(seen[(a, k)]) else None
    {
      var c := changes[n];
      assert changes[..n + 1][..n] == changes[..n];
      if (c.address, c.slot) in seen {
        var idx := seen[(c.address, c.slot)];
        ghost var before := result;
        result := result[idx := result[idx].(newValue := c.newValue)];
        IndexOfKeeps(before, idx, c.newValue);
      } else {
        seen := seen[(c.address, c.slot) := |result|];
        IndexOfGrows(result, c);
        result := result + [c];
      }
    }
    assert changes[..|changes|] == changes;
    filtered := [];
    for n := 0 to |result|
      invariant filtered == DropNoOps(result[..n])
    {
      assert result[..n + 1][..n] == result[..n];
      if result[n].oldValue != result[n].newValue {
        filtered := filtered + [result[n]];
      }
    }
    assert result[..|result|] == result;
  }

  lemma {:induction false} IndexOfKeeps(m: seq<Change>, i: nat, v: Hash)
    requires i < |m|
    ensures forall a, k :: IndexOf(m[i := m[i].(newValue := v)], a, k) == IndexOf(m, a, k)
    decreases |m|
  {
    var n := m[i := m[i].(newValue := v)];
    var z := |m| - 1;
    if i < z {
      IndexOfKeeps(m[..z], i, v);
      assert n[..z] == m[..z][i := m[..z][i].(newValue := v)];
    } else {
      assert n[..z] == m[..z];
    }
  }

  lemma IndexOfGrows(m: seq<Change>, c: Change)
    ensures forall a, k ::
      IndexOf(m + [c], a, k) == (if c.address == a && c.slot == k then Some(|m|) else IndexOf(m, a, k))
  {
    assert (m + [c])[..|m|] == m;
  }
}
