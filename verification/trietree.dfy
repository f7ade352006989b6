/** A trie as a tree of keys and values: laid out in a store node by node, its lookups are map lookups. */
module TrieTree {
  import opened Primitives
  import opened MptCodec
  import opened Trie
  import Protowire

  datatype Tree =
    | TLeaf(key: Bytes, value: Bytes)
    | TExtension(path: Bytes, child: Tree)
    | TBranch(kids: Kids)

  /** The children of a branch, in the order they are serialized. */
  datatype Kids = NoKids | Kid(index: byte, tree: Tree, rest: Kids)

  /** The map a tree stands for. */
  function Entries(t: Tree): map<Bytes, Bytes> {
    match t
    case TLeaf(k, v) => map[k := v]
    case TExtension(_, c) => Entries(c)
    case TBranch(kids) => KidEntries(kids)
  }

  function KidEntries(kids: Kids): map<Bytes, Bytes> {
    match kids
    case NoKids => map[]
    case Kid(_, t, rest) => KidEntries(rest) + Entries(t)
  }

  function Find(kids: Kids, i: byte): Option<Tree> {
    match kids
    case NoKids => None
    case Kid(j, t, rest) => if i == j then Some(t) else Find(rest, i)
  }

  /** Every leaf holds a full key that begins with the path to it; siblings differ in their index. */
  predicate WellFormed(t: Tree, prefix: Bytes) {
    match t
    case TLeaf(k, _) => prefix <= k
    case TExtension(path, c) => WellFormed(c, prefix + path)
    case TBranch(kids) => KidsWellFormed(kids, prefix)
  }

  predicate KidsWellFormed(kids: Kids, prefix: Bytes) {
    match kids
    case NoKids => true
    case Kid(i, t, rest) => WellFormed(t, prefix + [i]) && Find(rest, i).None? && KidsWellFormed(rest, prefix)
  }

  // ---- Layout in the store ----

  function Serialize(t: Tree, hash: Bytes -> Bytes): Bytes {
    match t
    case TLeaf(k, v) => EncodeLeaf(k, v)
    case TExtension(path, c) => EncodeExtension(path, hash(Serialize(c, hash)))
    case TBranch(kids) => EncodeBranch(KidHashes(kids, hash))
  }

  function KidHashes(kids: Kids, hash: Bytes -> Bytes): seq<(byte, Bytes)> {
    match kids
    case NoKids => []
    case Kid(i, t, rest) => KidHashes(rest, hash) + [(i, hash(Serialize(t, hash)))]
  }

  function Root(t: Tree, hash: Bytes -> Bytes): Bytes {
    hash(Serialize(t, hash))
  }

  /** Every node of the tree stands under its hash and is short enough to have been written. */
  predicate Stored(ns: Nodes, t: Tree, hash: Bytes -> Bytes) {
    && Root(t, hash) in ns && ns[Root(t, hash)] == Serialize(t, hash) && |Serialize(t, hash)| < UINT64_LIMIT
    && match t
       case TLeaf(_, _) => true
       case TExtension(_, c) => Stored(ns, c, hash)
       case TBranch(kids) => KidsStored(ns, kids, hash)
  }

  predicate KidsStored(ns: Nodes, kids: Kids, hash: Bytes -> Bytes) {
    match kids
    case NoKids => true
    case Kid(_, t, rest) => Stored(ns, t, hash) && KidsStored(ns, rest, hash)
  }

  function Height(t: Tree): nat {
    match t
    case TLeaf(_, _) => 1
    case TExtension(_, c) => 1 + Height(c)
    case TBranch(kids) => 1 + KidsHeight(kids)
  }

  function KidsHeight(kids: Kids): nat {
    match kids
    case NoKids => 0
    case Kid(_, t, rest) => if Height(t) > KidsHeight(rest) then Height(t) else KidsHeight(rest)
  }

  // ---- Trees and their maps ----

  lemma {:induction false} EntriesHavePrefix(t: Tree, prefix: Bytes)
    requires WellFormed(t, prefix)
    ensures forall k :: k in Entries(t) ==> prefix <= k
    decreases t
  {
    match t
    case TLeaf(_, _) =>
    case TExtension(path, c) => EntriesHavePrefix(c, prefix + path);
    case TBranch(kids) => KidEntriesHavePrefix(kids, prefix);
  }

  lemma {:induction false} KidEntriesHavePrefix(kids: Kids, prefix: Bytes)
    requires KidsWellFormed(kids, prefix)
    ensures forall k :: k in KidEntries(kids) ==> prefix <= k && |prefix| < |k|
    decreases kids
  {
    match kids
    case NoKids =>
    case Kid(i, t, rest) =>
      EntriesHavePrefix(t, prefix + [i]);
      KidEntriesHavePrefix(rest, prefix);
  }

  /** In a branch, the byte after the prefix says which child a key can be in. */
  lemma {:induction false} KeyIsInItsKid(kids: Kids, prefix: Bytes, key: Bytes)
    requires KidsWellFormed(kids, prefix) && prefix <= key && |prefix| < |key|
    ensures
      match Find(kids, key[|prefix|])
      case None => key !in KidEntries(kids)
      case Some(t) =>
        && WellFormed(t, prefix + [key[|prefix|]])
        && (key in KidEntries(kids) <==> key in Entries(t))
        && (key in Entries(t) ==> KidEntries(kids)[key] == Entries(t)[key])
    decreases kids
  {
    match kids
    case NoKids =>
    case Kid(i, t, rest) =>
      EntriesHavePrefix(t, prefix + [i]);
      KeyIsInItsKid(rest, prefix, key);
      if i != key[|prefix|] {
        assert (prefix + [i])[|prefix|] == i;
        assert !(prefix + [i] <= key);
      }
  }

  // ---- Lookups ----

  lemma {:induction false} KidHashOf(ns: Nodes, kids: Kids, hash: Bytes -> Bytes, i: byte)
    requires KidsStored(ns, kids, hash)
    ensures
      var m := AsMap(KidHashes(kids, hash));
      match Find(kids, i)
      case None => i !in m
      case Some(t) => i in m && m[i] == Root(t, hash) && Stored(ns, t, hash) && Height(t) <= KidsHeight(kids)
    decreases kids
  {
    match kids
    case NoKids =>
    case Kid(j, t, rest) =>
      hide Serialize, EntryFields, Stored;
      AsMapExtends(KidHashes(rest, hash), (j, Root(t, hash)));
      KidHashOf(ns, rest, hash, i);
  }

  /** A stored node decodes to the node that was serialized. */
  lemma StoredDecodes(ns: Nodes, t: Tree, hash: Bytes -> Bytes)
    requires Stored(ns, t, hash)
    ensures DecodeNode(ns[Root(t, hash)]) ==
      match t
      case TLeaf(k, v) => Ok(Leaf(k, Some(v)))
      case TExtension(path, c) => Ok(Extension(path, Root(c, hash)))
      case TBranch(kids) => Ok(Branch(AsMap(KidHashes(kids, hash))))
  {
    hide DecodeNode, LeafBody, ExtensionBody, BranchBody, Protowire.EncodeField, AsMap;
    match t
    case TLeaf(k, v) =>
      LeafFits(k, v);
      LeafRoundTrip(k, v);
    case TExtension(path, c) =>
      ExtensionFits(path, Root(c, hash));
      ExtensionRoundTrip(path, Root(c, hash));
    case TBranch(kids) =>
      BranchFits(KidHashes(kids, hash));
      BranchRoundTrip(KidHashes(kids, hash));
  }

  /** What the map of a tree says about a key. */
  function Answer(t: Tree, key: Bytes): Result<Option<Bytes>> {
    if key in Entries(t) then Ok(Some(Entries(t)[key])) else Err(KeyNotFound)
  }

  lemma LeafVisit(ns: Nodes, node: Bytes, k: Bytes, v: Bytes, prefix: Bytes, key: Bytes)
    requires node in ns && DecodeNode(ns[node]) == Ok(Leaf(k, Some(v))) && prefix <= k && prefix <= key
    ensures Visit(ns, node, key, |prefix|) == Stop(Answer(TLeaf(k, v), key))
  {
    hide DecodeNode;
    assert k == prefix + k[|prefix|..] && key == prefix + key[|prefix|..];
  }

  lemma ExtensionVisit(ns: Nodes, node: Bytes, path: Bytes, child: Bytes, prefix: Bytes, key: Bytes)
    requires node in ns && DecodeNode(ns[node]) == Ok(Extension(path, child)) && prefix <= key
    ensures Visit(ns, node, key, |prefix|) ==
      if prefix + path <= key then Go(child, |prefix + path|) else Stop(Err(KeyNotFound))
  {
    hide DecodeNode;
    if |prefix| + |path| <= |key| {
      assert key[..|prefix| + |path|] == prefix + key[|prefix|..|prefix| + |path|];
    }
  }

  lemma BranchVisit(ns: Nodes, node: Bytes, children: map<byte, Bytes>, prefix: Bytes, key: Bytes)
    requires node in ns && DecodeNode(ns[node]) == Ok(Branch(children)) && prefix <= key
    ensures Visit(ns, node, key, |prefix|) ==
      if |prefix| < |key| && key[|prefix|] in children then Go(children[key[|prefix|]], |prefix| + 1)
      else Stop(Err(KeyNotFound))
  {
    hide DecodeNode;
  }

  /** In a tree laid out in the store, following a key from a node answers what the node's map answers. */
  lemma {:induction false} WalkIsMapLookup(ns: Nodes, t: Tree, hash: Bytes -> Bytes, prefix: Bytes, key: Bytes)
    requires Stored(ns, t, hash) && WellFormed(t, prefix) && prefix <= key
    ensures Walk(ns, Root(t, hash), key, |prefix|, Height(t)) == Some(Answer(t, key))
    decreases t
  {
    hide DecodeNode, Serialize, KidHashes, AsMap, Visit;
    StoredDecodes(ns, t, hash);
    match t
    case TLeaf(k, v) =>
      LeafVisit(ns, Root(t, hash), k, v, prefix, key);
    case TExtension(path, c) =>
      ExtensionVisit(ns, Root(t, hash), path, Root(c, hash), prefix, key);
      EntriesHavePrefix(c, prefix + path);
      if prefix + path <= key {
        WalkIsMapLookup(ns, c, hash, prefix + path, key);
        assert Answer(t, key) == Answer(c, key) && Height(t) == Height(c) + 1;
      } else {
        assert key !in Entries(c);
      }
    case TBranch(kids) =>
      BranchVisit(ns, Root(t, hash), AsMap(KidHashes(kids, hash)), prefix, key);
      KidEntriesHavePrefix(kids, prefix);
      if |prefix| < |key| {
        var i := key[|prefix|];
        KidHashOf(ns, kids, hash, i);
        KeyIsInItsKid(kids, prefix, key);
        if Find(kids, i).Some? {
          var kid := Find(kids, i).value;
          FindIsSmaller(kids, i);
          WalkIsMapLookup(ns, kid, hash, prefix + [i], key);
          MoreFuel(ns, Root(kid, hash), key, |prefix| + 1, Height(kid), KidsHeight(kids));
        }
      }
  }

  lemma {:induction false} FindIsSmaller(kids: Kids, i: byte)
    requires Find(kids, i).Some?
    ensures Find(kids, i).value < kids
    decreases kids
  {
    if kids.index != i {
      FindIsSmaller(kids.rest, i);
    }
  }

  /** The lookup answers exactly what the map holds, and that the key is not there exactly when it is not. */
  lemma LookupIsMapLookup(ns: Nodes, t: Tree, hash: Bytes -> Bytes, key: Bytes)
    requires Stored(ns, t, hash) && WellFormed(t, []) && !NoTrie(Root(t, hash))
    ensures Halts(ns, Root(t, hash), key)
    ensures Lookup(ns, Root(t, hash), key) ==
      if key in Entries(t) then Ok(Some(Entries(t)[key])) else Err(KeyNotFound)
  {
    hide Walk, Stored, WellFormed, Serialize, Lookup, Entries;
    WalkIsMapLookup(ns, t, hash, [], key);
    LookupIs(ns, Root(t, hash), key, Height(t));
  }

  // ---- Every map has a trie ----

  function Below(m: map<Bytes, Bytes>, at: nat, i: int): map<Bytes, Bytes> {
    map k | k in m && at < |k| && k[at] as int == i :: m[k]
  }

  ghost predicate Under(m: map<Bytes, Bytes>, prefix: Bytes, n: nat) {
    forall k :: k in m ==> prefix <= k && |k| == |prefix| + n
  }

  /** Branch on one byte after another until a single key is left. */
  ghost function Build(m: map<Bytes, Bytes>, prefix: Bytes, n: nat): Tree
    requires m != map[] && Under(m, prefix, n)
    decreases n, 300
  {
    if n == 0 || |m| == 1 then
      var k :| k in m;
      TLeaf(k, m[k])
    else TBranch(BuildKids(m, prefix, n, 256))
  }

  ghost function BuildKids(m: map<Bytes, Bytes>, prefix: Bytes, n: nat, upto: nat): Kids
    requires Under(m, prefix, n) && n > 0 && upto <= 256
    decreases n, upto
  {
    if upto == 0 then NoKids
    else
      var sub := Below(m, |prefix|, upto - 1);
      var rest := BuildKids(m, prefix, n, upto - 1);
      if sub == map[] then rest else Kid((upto - 1) as byte, Build(sub, prefix + [(upto - 1) as byte], n - 1), rest)
  }

  lemma {:induction false} BuildIsFaithful(m: map<Bytes, Bytes>, prefix: Bytes, n: nat)
    requires m != map[] && Under(m, prefix, n)
    ensures WellFormed(Build(m, prefix, n), prefix) && Entries(Build(m, prefix, n)) == m
    decreases n, 300
  {
    if n == 0 || |m| == 1 {
      var t := Build(m, prefix, n);
      forall k | k in m ensures k == t.key {
        if n == 0 {
          assert k == prefix && t.key == prefix;
        } else {
          assert |m.Keys - {t.key}| == 0;
        }
      }
    } else {
      BuildKidsIsFaithful(m, prefix, n, 256);
    }
  }

  lemma {:induction false} BuildKidsIsFaithful(m: map<Bytes, Bytes>, prefix: Bytes, n: nat, upto: nat)
    requires Under(m, prefix, n) && n > 0 && upto <= 256
    ensures
      var kids := BuildKids(m, prefix, n, upto);
      && KidsWellFormed(kids, prefix)
      && (forall i: byte :: i as int >= upto ==> Find(kids, i).None?)
      && KidEntries(kids) == UpTo(m, |prefix|, upto)
    decreases n, upto
  {
    if upto > 0 {
      BuildKidsIsFaithful(m, prefix, n, upto - 1);
      var sub := Below(m, |prefix|, upto - 1);
      BelowSplits(m, prefix, n, upto);
      if sub != map[] {
        BuildIsFaithful(sub, prefix + [(upto - 1) as byte], n - 1);
      }
      hide Below, Build;
    }
  }

  ghost function UpTo(m: map<Bytes, Bytes>, at: nat, upto: int): map<Bytes, Bytes> {
    map k | k in m && at < |k| && (k[at] as int) < upto :: m[k]
  }

  lemma BelowSplits(m: map<Bytes, Bytes>, prefix: Bytes, n: nat, upto: nat)
    requires Under(m, prefix, n) && 0 < n && 0 < upto <= 256
    ensures UpTo(m, |prefix|, upto) == UpTo(m, |prefix|, upto - 1) + Below(m, |prefix|, upto - 1)
    ensures Under(Below(m, |prefix|, upto - 1), prefix + [(upto - 1) as byte], n - 1)
  {}

  // ---- Every map has a store ----

  /** The serialized nodes of a tree. */
  function Serials(t: Tree, hash: Bytes -> Bytes): set<Bytes> {
    {Serialize(t, hash)} +
    match t
    case TLeaf(_, _) => {}
    case TExtension(_, c) => Serials(c, hash)
    case TBranch(kids) => KidSerials(kids, hash)
  }

  function KidSerials(kids: Kids, hash: Bytes -> Bytes): set<Bytes> {
    match kids
    case NoKids => {}
    case Kid(_, t, rest) => Serials(t, hash) + KidSerials(rest, hash)
  }

  /** The hash tells the nodes apart, and each is short enough to be written. */
  ghost predicate CanStand(nodes: set<Bytes>, hash: Bytes -> Bytes) {
    && (forall s, t :: s in nodes && t in nodes && hash(s) == hash(t) ==> s == t)
    && (forall s :: s in nodes ==> |s| < UINT64_LIMIT)
  }

  /** A bucket with the nodes under their hashes. */
  ghost function Shelved(nodes: set<Bytes>, hash: Bytes -> Bytes): Nodes
    requires CanStand(nodes, hash)
  {
    map s | s in nodes :: hash(s) := s
  }

  lemma {:induction false} ShelvedIsStored(nodes: set<Bytes>, t: Tree, hash: Bytes -> Bytes)
    requires CanStand(nodes, hash) && Serials(t, hash) <= nodes
    ensures Stored(Shelved(nodes, hash), t, hash)
    decreases t
  {
    hide Serialize;
    assert Serialize(t, hash) in nodes;
    match t
    case TLeaf(_, _) =>
    case TExtension(_, c) => ShelvedIsStored(nodes, c, hash);
    case TBranch(kids) => KidsShelvedAreStored(nodes, kids, hash);
  }

  lemma {:induction false} KidsShelvedAreStored(nodes: set<Bytes>, kids: Kids, hash: Bytes -> Bytes)
    requires CanStand(nodes, hash) && KidSerials(kids, hash) <= nodes
    ensures KidsStored(Shelved(nodes, hash), kids, hash)
    decreases kids
  {
    match kids
    case NoKids =>
    case Kid(_, t, rest) =>
      hide Serials, Stored, CanStand;
      ShelvedIsStored(nodes, t, hash);
      KidsShelvedAreStored(nodes, rest, hash);
  }

  /** Every map of equal-length keys, the empty one included, can be kept in a store in such a way that
    * lookups answer what the map holds and that other keys are not there. */
  lemma MapHasStore(m: map<Bytes, Bytes>, n: nat, hash: Bytes -> Bytes) returns (ns: Nodes, root: Bytes)
    requires Under(m, [], n)
    requires m != map[] ==>
      CanStand(Serials(Build(m, [], n), hash), hash) && !NoTrie(Root(Build(m, [], n), hash))
    ensures forall key ::
      Halts(ns, root, key) && Lookup(ns, root, key) == if key in m then Ok(Some(m[key])) else Err(KeyNotFound)
  {
    if m == map[] {
      return map[], EMPTY_TRIE_ROOT;
    }
    var t := Build(m, [], n);
    BuildIsFaithful(m, [], n);
    hide Build, Serials, Root, Halts, Lookup, Stored, NoTrie;
    ns, root := Shelved(Serials(t, hash), hash), Root(t, hash);
    ShelvedIsStored(Serials(t, hash), t, hash);
    forall key ensures Halts(ns, root, key)
      && Lookup(ns, root, key) == if key in m then Ok(Some(m[key])) else Err(KeyNotFound)
    {
      LookupIsMapLookup(ns, t, hash, key);
    }
  }
}
