/** Lookup in a Merkle trie whose nodes are kept under their hashes. */
module Trie {
  import opened Primitives
  import opened MptCodec

  /** The hash of an empty trie. */
  const EMPTY_TRIE_ROOT: Bytes :=
    [0x61, 0x8e, 0x1c, 0xe1, 0xff, 0xfb, 0x18, 0x25, 0x15, 0x9f,
     0x9a, 0xa2, 0xc2, 0xe9, 0x37, 0x24, 0x02, 0xfb, 0xd0, 0xab]

  /** The Contract bucket: serialized nodes by hash. */
  type Nodes = map<Bytes, Bytes>

  /** What looking at one node leads to. */
  datatype Next = Stop(result: Result<Option<Bytes>>) | Go(node: Bytes, offset: nat)

  function Visit(ns: Nodes, node: Bytes, key: Bytes, offset: nat): (next: Next)
    requires offset <= |key|
    ensures next.Go? ==> offset <= next.offset <= |key| && node in ns
  {
    if node !in ns then Stop(Err(NodeNotFound))
    else
      match DecodeNode(ns[node])
      case Err(e) => Stop(Err(e))
      case Ok(Branch(children)) =>
        if offset >= |key| || key[offset] !in children then Stop(Err(KeyNotFound))
        else Go(children[key[offset]], offset + 1)
      case Ok(Extension(path, child)) =>
        if offset + |path| > |key| || path != key[offset..offset + |path|] then Stop(Err(KeyNotFound))
        else Go(child, offset + |path|)
      case Ok(Leaf(k, v)) =>
        if offset > |k| || k[offset..] != key[offset..] then Stop(Err(KeyNotFound)) else Stop(Ok(v))
  }

  /** The lookup with a bound on the number of nodes it may load; None when the bound is too small. */
  function Walk(ns: Nodes, node: Bytes, key: Bytes, offset: nat, fuel: nat): Option<Result<Option<Bytes>>>
    requires offset <= |key|
    decreases fuel
  {
    if fuel == 0 then None
    else
      match Visit(ns, node, key, offset)
      case Stop(r) => Some(r)
      case Go(n, o) => Walk(ns, n, key, o, fuel - 1)
  }

  predicate NoTrie(root: Bytes) {
    root == [] || root == EMPTY_TRIE_ROOT
  }

  ghost predicate Halts(ns: Nodes, root: Bytes, key: Bytes) {
    NoTrie(root) || exists fuel: nat :: Walk(ns, root, key, 0, fuel).Some?
  }

  /** What a lookup that comes to an end answers. */
  ghost function Lookup(ns: Nodes, root: Bytes, key: Bytes): Result<Option<Bytes>>
    requires Halts(ns, root, key)
  {
    if NoTrie(root) then Err(KeyNotFound)
    else
      var fuel: nat :| Walk(ns, root, key, 0, fuel).Some?;
      Walk(ns, root, key, 0, fuel).value
  }

  lemma {:induction false} MoreFuel(ns: Nodes, node: Bytes, key: Bytes, offset: nat, fuel: nat, more: nat)
    requires offset <= |key| && fuel <= more && Walk(ns, node, key, offset, fuel).Some?
    ensures Walk(ns, node, key, offset, more) == Walk(ns, node, key, offset, fuel)
    decreases fuel
  {
    hide Visit;
    match Visit(ns, node, key, offset)
    case Stop(_) =>
    case Go(n, o) => MoreFuel(ns, n, key, o, fuel - 1, more - 1);
  }

  /** The answer does not depend on the bound it was found with. */
  lemma LookupIs(ns: Nodes, root: Bytes, key: Bytes, fuel: nat)
    requires !NoTrie(root) && Walk(ns, root, key, 0, fuel).Some?
    ensures Halts(ns, root, key) && Walk(ns, root, key, 0, fuel) == Some(Lookup(ns, root, key))
  {
    hide Visit, Walk;
    var other: nat :|
      Walk(ns, root, key, 0, other).Some? && Lookup(ns, root, key) == Walk(ns, root, key, 0, other).value;
    if fuel <= other {
      MoreFuel(ns, root, key, 0, fuel, other);
    } else {
      MoreFuel(ns, root, key, 0, other, fuel);
    }
  }

  // ---- When lookups end ----

  /** Every extension node has a path to follow. */
  ghost predicate PathsNonEmpty(ns: Nodes) {
    forall h :: h in ns ==> match DecodeNode(ns[h]) case Ok(Extension(path, _)) => path != [] case _ => true
  }

  lemma GoAdvances(ns: Nodes, node: Bytes, key: Bytes, offset: nat)
    requires PathsNonEmpty(ns) && offset <= |key| && Visit(ns, node, key, offset).Go?
    ensures Visit(ns, node, key, offset).offset > offset
  {
    hide DecodeNode;
  }

  /** With paths to follow, a lookup loads at most one node for every byte of the key still ahead, and one more. */
  lemma {:induction false} WalkIsShort(ns: Nodes, node: Bytes, key: Bytes, offset: nat)
    requires PathsNonEmpty(ns) && offset <= |key|
    ensures Walk(ns, node, key, offset, |key| - offset + 1).Some?
    decreases |key| - offset
  {
    hide Visit, PathsNonEmpty;
    match Visit(ns, node, key, offset)
    case Stop(_) =>
    case Go(n, o) =>
      GoAdvances(ns, node, key, offset);
      WalkIsShort(ns, n, key, o);
      MoreFuel(ns, n, key, o, |key| - o + 1, |key| - offset);
  }

  /** An extension node with an empty path that leads to itself is never left. */
  lemma SelfLoopDiverges(ns: Nodes, root: Bytes, key: Bytes)
    requires !NoTrie(root) && root in ns && DecodeNode(ns[root]) == Ok(Extension([], root))
    ensures !Halts(ns, root, key)
  {
    hide DecodeNode;
    forall fuel: nat ensures Walk(ns, root, key, 0, fuel).None? {
      SelfLoopWalks(ns, root, key, fuel);
    }
  }

  lemma {:induction false} SelfLoopWalks(ns: Nodes, root: Bytes, key: Bytes, fuel: nat)
    requires root in ns && DecodeNode(ns[root]) == Ok(Extension([], root))
    ensures Walk(ns, root, key, 0, fuel).None?
  {
    hide DecodeNode;
    if fuel > 0 {
      assert key[0..0] == [];
      SelfLoopWalks(ns, root, key, fuel - 1);
    }
  }

  // ---- The lookup loop ----

  /** Follows the key from the root. The count of loaded nodes is kept for the bound only. */
  method TrieGet(ns: Nodes, rootHash: Bytes, key: Bytes) returns (r: Result<Option<Bytes>>, ghost loads: nat)
    requires Halts(ns, rootHash, key)
    ensures r == Lookup(ns, rootHash, key)
    ensures PathsNonEmpty(ns) ==> loads <= |key| + 1
  {
    hide DecodeNode, PathsNonEmpty;
    loads := 0;
    if |rootHash| == 0 || rootHash == EMPTY_TRIE_ROOT {
      return Err(KeyNotFound), 0;
    }
    ghost var all: nat :| Walk(ns, rootHash, key, 0, all).Some?;
    LookupIs(ns, rootHash, key, all);
    var nodeHash, offset := rootHash, 0;
    ghost var fuel := all;
    while true
      invariant 0 <= offset <= |key|
      invariant Walk(ns, nodeHash, key, offset, fuel) == Some(Lookup(ns, rootHash, key))
      invariant PathsNonEmpty(ns) ==> loads <= offset
      decreases fuel
    {
      loads := loads + 1;
      if nodeHash !in ns {
        return Err(NodeNotFound), loads;
      }
      var node := DecodeNodePb(ns[nodeHash]);
      if PathsNonEmpty(ns) && Visit(ns, nodeHash, key, offset).Go? {
        GoAdvances(ns, nodeHash, key, offset);
      }
      match node {
        case Err(e) =>
          return Err(e), loads;
        case Ok(Branch(branch)) =>
          if offset >= |key| {
            return Err(KeyNotFound), loads;
          }
          if key[offset] !in branch {
            return Err(KeyNotFound), loads;
          }
          nodeHash := branch[key[offset]];
          offset := offset + 1;
        case Ok(Extension(path, childHash)) =>
          if offset + |path| > |key| {
            return Err(KeyNotFound), loads;
          }
          if path != key[offset..offset + |path|] {
            return Err(KeyNotFound), loads;
          }
          nodeHash := childHash;
          offset := offset + |path|;
        case Ok(Leaf(leafKey, value)) =>
          if offset > |leafKey| || offset > |key| {
            return Err(KeyNotFound), loads;
          }
          if leafKey[offset..] != key[offset..] {
            return Err(KeyNotFound), loads;
          }
          return Ok(value), loads;
      }
      fuel := fuel - 1;
    }
  }
}
