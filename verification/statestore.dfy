/** The local key-value store: namespaces of byte keys, changed one block diff at a time. */
module StateStore {
  import opened Primitives
  import opened Account
  import opened Trie
  import TrieTree
  import BigEndian

  type Namespace = Bytes
  type Content = map<Namespace, map<Bytes, Bytes>>

  const NS_ACCOUNT: Namespace := [65, 99, 99, 111, 117, 110, 116]        // "Account"
  const NS_CODE: Namespace := [67, 111, 100, 101]                        // "Code"
  const NS_CONTRACT: Namespace := [67, 111, 110, 116, 114, 97, 99, 116]  // "Contract"
  const NS_META: Namespace := [95, 109, 101, 116, 97]                    // "_meta"
  const META_HEIGHT: Bytes := [104, 101, 105, 103, 104, 116]             // "height"

  const PUT: byte := 0
  const DELETE: byte := 1

  datatype Entry = Entry(writeType: byte, namespace: Namespace, key: Bytes, value: Bytes)

  // ---- What a store holds ----

  function Bucket(c: Content, ns: Namespace): map<Bytes, Bytes> {
    if ns in c then c[ns] else map[]
  }

  function Get(c: Content, ns: Namespace, key: Bytes): Option<Bytes> {
    var b := Bucket(c, ns);
    if key in b then Some(b[key]) else None
  }

  /** A missing namespace is created even for an entry of unknown type, which does nothing else. */
  function ApplyEntry(c: Content, e: Entry): Content {
    var b := Bucket(c, e.namespace);
    c[e.namespace :=
      if e.writeType == PUT then b[e.key := e.value] else if e.writeType == DELETE then b - {e.key} else b]
  }

  function ApplyEntries(c: Content, es: seq<Entry>): Content {
    if es == [] then c else ApplyEntry(ApplyEntries(c, es[..|es| - 1]), es[|es| - 1])
  }

  function HeightEntry(h: uint64): Entry {
    Entry(PUT, NS_META, META_HEIGHT, BigEndian.Encode(h, 8))
  }

  /** The content after the block diff of one height has been committed. */
  function Commit(c: Content, h: uint64, es: seq<Entry>): Content {
    ApplyEntry(ApplyEntries(c, es), HeightEntry(h))
  }

  /** The height a store recovers when it is opened: zero unless eight bytes are there. */
  function PersistedHeight(c: Content): uint64 {
    BigEndian.Capacities();
    match Get(c, NS_META, META_HEIGHT)
    case Some(v) => if |v| == 8 then BigEndian.Decode(v) else 0
    case None => 0
  }

  function WithBuckets(c: Content): Content {
    var empty: map<Bytes, Bytes> := map[];
    map[NS_ACCOUNT := empty, NS_CODE := empty, NS_CONTRACT := empty, NS_META := empty] + c
  }

  /** The namespaces a store has once it has been opened. */
  const NAMESPACES: set<Namespace> := {NS_ACCOUNT, NS_CODE, NS_CONTRACT, NS_META}

  /** Opening a store adds the namespaces that are missing, changes nothing that can be read, and finds the height
    * that is written there: eight bytes, or else zero. A store that has been opened before stays exactly as it is. */
  lemma OpeningReadsTheDisk(c: Content)
    ensures forall ns, key :: Get(WithBuckets(c), ns, key) == Get(c, ns, key)
    ensures WithBuckets(c).Keys == c.Keys + NAMESPACES
    ensures NAMESPACES <= c.Keys ==> WithBuckets(c) == c
    ensures
      match Get(c, NS_META, META_HEIGHT)
      case Some(v) =>
        if |v| == 8 then v == BigEndian.Encode(PersistedHeight(c), 8) else PersistedHeight(WithBuckets(c)) == 0
      case None => PersistedHeight(WithBuckets(c)) == 0
  {
    hide BigEndian.Encode, BigEndian.Decode;
    match Get(c, NS_META, META_HEIGHT)
    case Some(v) => BigEndian.EncodesBack(v);
    case None =>
  }

  lemma CommitPersistsHeight(c: Content, h: uint64, es: seq<Entry>)
    ensures PersistedHeight(Commit(c, h, es)) == h
  {
    BigEndian.Capacities();
    BigEndian.RoundTrip(h, 8);
  }

  // ---- Reading accounts and storage slots ----

  function AccountAt(c: Content, addr: Bytes): Result<Option<IoTXAccount>> {
    match Get(c, NS_ACCOUNT, addr)
    case None => Ok(None)
    case Some(data) => match DecodeAccount(data) case Err(e) => Err(e) case Ok(a) => Ok(Some(a))
  }

  /** The storage trie of an account that has one. */
  function StorageRoot(c: Content, addr: Bytes): Result<Option<Bytes>> {
    match AccountAt(c, addr)
    case Err(e) => Err(e)
    case Ok(None) => Ok(None)
    case Ok(Some(a)) => Ok(if a.root == [] then None else Some(a.root))
  }

  ghost predicate SlotHalts(c: Content, addr: Bytes, slot: Bytes) {
    match StorageRoot(c, addr) case Ok(Some(root)) => Halts(Bucket(c, NS_CONTRACT), root, slot) case _ => true
  }

  /** A slot that is not in the trie reads as absent; every other trie error is passed on. */
  ghost function SlotAt(c: Content, addr: Bytes, slot: Bytes): Result<Option<Bytes>>
    requires SlotHalts(c, addr, slot)
  {
    match StorageRoot(c, addr)
    case Err(e) => Err(e)
    case Ok(None) => Ok(None)
    case Ok(Some(root)) =>
      match Lookup(Bucket(c, NS_CONTRACT), root, slot)
      case Err(e) => if e == KeyNotFound then Ok(None) else Err(e)
      case Ok(v) => Ok(v)
  }

  // ---- The store ----

  class Store {
    var db: Content
    var height: uint64

    /** Between calls the height in memory is the height on disk. */
    ghost predicate Valid()
      reads this
    {
      NAMESPACES <= db.Keys && height == PersistedHeight(db)
    }

    constructor Open(stored: Content)
      ensures Valid() && db == WithBuckets(stored) && height == PersistedHeight(stored)
      ensures forall ns, key :: Get(db, ns, key) == Get(stored, ns, key)
      ensures db.Keys == stored.Keys + NAMESPACES
    {
      OpeningReadsTheDisk(stored);
      db := WithBuckets(stored);
      height := PersistedHeight(stored);
    }

    /** Applies one block's entries and its height in one transaction, which the database may fail
      * at any entry or at the end (fault); a failed transaction changes nothing. */
    method ApplyDiff(h: uint64, entries: seq<Entry>, fault: Option<nat>) returns (ok: bool)
      requires Valid()
      modifies this
      ensures Valid() && ok == fault.None?
      ensures ok ==> db == Commit(old(db), h, entries) && height == h
      ensures !ok ==> db == old(db) && height == old(height)
    {
      var tx := db;
      for i := 0 to |entries|
        invariant NAMESPACES <= tx.Keys && tx == ApplyEntries(db, entries[..i])
        invariant db == old(db) && height == old(height)
      {
        assert entries[..i + 1][..i] == entries[..i];
        var e := entries[i];
        if fault == Some(i) {
          return false;
        }
        if e.namespace !in tx {
          tx := tx[e.namespace := map[]];
        }
        if e.writeType == PUT {
          tx := tx[e.namespace := tx[e.namespace][e.key := e.value]];
        } else if e.writeType == DELETE {
          tx := tx[e.namespace := tx[e.namespace] - {e.key}];
        }
      }
      assert entries[..|entries|] == entries;
      if fault.Some? {
        return false;
      }
      db := tx[NS_META := tx[NS_META][META_HEIGHT := BigEndian.Encode(h, 8)]];
      height := h;
      CommitPersistsHeight(old(db), h, entries);
      return true;
    }

    method GetAccount(addr: Bytes) returns (r: Result<Option<IoTXAccount>>)
      ensures r == AccountAt(db, addr)
    {
      var data := Get(db, NS_ACCOUNT, addr);
      if data.None? {
        return Ok(None);
      }
      var acct := DecodeAccountLoop(data.value);
      return if acct.Err? then Err(acct.error) else Ok(Some(acct.value));
    }

    method GetStorageSlot(addr: Bytes, slot: Bytes) returns (r: Result<Option<Bytes>>)
      requires SlotHalts(db, addr, slot)
      ensures r == SlotAt(db, addr, slot)
    {
      var acct := GetAccount(addr);
      if acct.Err? {
        return Err(acct.error);
      }
      if acct.value.None? {
        return Ok(None);
      }
      var root := acct.value.value.root;
      if |root| == 0 {
        return Ok(None);
      }
      ghost var loads: nat;
      r, loads := TrieGet(Bucket(db, NS_CONTRACT), root, slot);
      if r == Err(KeyNotFound) {
        return Ok(None);
      }
    }
  }

  // ---- Diffs of trie nodes leave old tries readable ----

  /** A diff that only puts trie nodes, each under its own hash. */
  ghost predicate PutsNodes(es: seq<Entry>, hash: Bytes -> Bytes) {
    forall e :: e in es ==> e.writeType == PUT && e.namespace == NS_CONTRACT && e.key == hash(e.value)
  }

  ghost predicate SelfAddressed(ns: Nodes, hash: Bytes -> Bytes) {
    forall h :: h in ns ==> h == hash(ns[h])
  }

  /** No node of the diff collides with a different node that is already there. */
  ghost predicate NoCollision(ns: Nodes, es: seq<Entry>, hash: Bytes -> Bytes) {
    forall h, e :: h in ns && e in es && hash(e.value) == hash(ns[h]) ==> e.value == ns[h]
  }

  ghost predicate Extends(more: Nodes, ns: Nodes) {
    forall h :: h in ns ==> h in more && more[h] == ns[h]
  }

  lemma {:induction false} NodesOnlyAdd(c: Content, es: seq<Entry>, hash: Bytes -> Bytes)
    requires PutsNodes(es, hash)
    requires SelfAddressed(Bucket(c, NS_CONTRACT), hash) && NoCollision(Bucket(c, NS_CONTRACT), es, hash)
    ensures Extends(Bucket(ApplyEntries(c, es), NS_CONTRACT), Bucket(c, NS_CONTRACT))
    ensures SelfAddressed(Bucket(ApplyEntries(c, es), NS_CONTRACT), hash)
    ensures forall ns :: ns != NS_CONTRACT ==> Bucket(ApplyEntries(c, es), ns) == Bucket(c, ns)
    decreases |es|
  {
    if es != [] {
      var last := es[|es| - 1];
      assert last in es;
      NodesOnlyAdd(c, es[..|es| - 1], hash);
    }
  }

  lemma {:induction false} WalkSurvives(ns: Nodes, more: Nodes, node: Bytes, key: Bytes, offset: nat, fuel: nat)
    requires Extends(more, ns) && offset <= |key|
    requires Walk(ns, node, key, offset, fuel).Some? && Walk(ns, node, key, offset, fuel).value != Err(NodeNotFound)
    ensures Walk(more, node, key, offset, fuel) == Walk(ns, node, key, offset, fuel)
    decreases fuel
  {
    hide MptCodec.DecodeNode;
    if Visit(ns, node, key, offset).Go? {
      var go := Visit(ns, node, key, offset);
      WalkSurvives(ns, more, go.node, key, go.offset, fuel - 1);
    }
  }

  /** After a diff that only adds trie nodes, every slot of every account reads as before, unless
    * reading it had been stopped by a missing node. */
  lemma TrieNodesArePersistent(c: Content, h: uint64, es: seq<Entry>, hash: Bytes -> Bytes, addr: Bytes, slot: Bytes)
    requires PutsNodes(es, hash)
    requires SelfAddressed(Bucket(c, NS_CONTRACT), hash) && NoCollision(Bucket(c, NS_CONTRACT), es, hash)
    requires SlotHalts(c, addr, slot) && SlotAt(c, addr, slot) != Err(NodeNotFound)
    ensures SlotHalts(Commit(c, h, es), addr, slot)
    ensures SlotAt(Commit(c, h, es), addr, slot) == SlotAt(c, addr, slot)
  {
    hide DecodeAccount, Walk, ApplyEntries, BigEndian.Encode, Lookup;
    NodesOnlyAdd(c, es, hash);
    var after := Commit(c, h, es);
    var ns, more := Bucket(c, NS_CONTRACT), Bucket(after, NS_CONTRACT);
    assert Extends(more, ns);
    assert StorageRoot(after, addr) == StorageRoot(c, addr);
    match StorageRoot(c, addr)
    case Ok(Some(root)) => LookupSurvives(ns, more, root, slot);
    case _ =>
  }

  lemma LookupSurvives(ns: Nodes, more: Nodes, root: Bytes, key: Bytes)
    requires Extends(more, ns) && Halts(ns, root, key) && Lookup(ns, root, key) != Err(NodeNotFound)
    ensures Halts(more, root, key) && Lookup(more, root, key) == Lookup(ns, root, key)
  {
    hide Walk;
    if !NoTrie(root) {
      hide Lookup;
      var fuel: nat :| Walk(ns, root, key, 0, fuel).Some?;
      LookupIs(ns, root, key, fuel);
      WalkSurvives(ns, more, root, key, 0, fuel);
      LookupIs(more, root, key, fuel);
    }
  }

  /** With fewer nodes a lookup goes the same way until it meets one that is missing, and says so. */
  lemma {:induction false} WalkThinned(ns: Nodes, less: Nodes, node: Bytes, key: Bytes, offset: nat, fuel: nat)
    requires Extends(ns, less) && offset <= |key| && Walk(ns, node, key, offset, fuel).Some?
    ensures Walk(less, node, key, offset, fuel).Some?
    ensures Walk(less, node, key, offset, fuel) in {Walk(ns, node, key, offset, fuel), Some(Err(NodeNotFound))}
    ensures node !in less ==> Walk(less, node, key, offset, fuel) == Some(Err(NodeNotFound))
    decreases fuel
  {
    hide MptCodec.DecodeNode;
    if node in less && Visit(ns, node, key, offset).Go? {
      var go := Visit(ns, node, key, offset);
      WalkThinned(ns, less, go.node, key, go.offset, fuel - 1);
    }
  }

  /** A store that lacks trie nodes never misleads: a slot reads as in the full store or fails for a missing node, and
    * fails if its root is missing. */
  lemma MissingNodesShow(ns: Nodes, less: Nodes, root: Bytes, key: Bytes)
    requires Extends(ns, less) && Halts(ns, root, key)
    ensures Halts(less, root, key)
    ensures Lookup(less, root, key) in {Lookup(ns, root, key), Err(NodeNotFound)}
    ensures !NoTrie(root) && root !in less ==> Lookup(less, root, key) == Err(NodeNotFound)
  {
    hide Walk;
    if !NoTrie(root) {
      hide Lookup;
      var fuel: nat :| Walk(ns, root, key, 0, fuel).Some?;
      LookupIs(ns, root, key, fuel);
      WalkThinned(ns, less, root, key, 0, fuel);
      LookupIs(less, root, key, fuel);
    }
  }

  /** The same for slots of accounts: an account without a record or without a trie has none, a record that cannot be
    * read and a missing node are errors and are told apart from an absent slot. */
  lemma MissingSlotsShow(c: Content, less: Content, addr: Bytes, slot: Bytes)
    requires SlotHalts(c, addr, slot) && Bucket(less, NS_ACCOUNT) == Bucket(c, NS_ACCOUNT)
    requires Extends(Bucket(c, NS_CONTRACT), Bucket(less, NS_CONTRACT))
    ensures SlotHalts(less, addr, slot)
    ensures SlotAt(less, addr, slot) in {SlotAt(c, addr, slot), Err(NodeNotFound)}
    ensures
      match Get(c, NS_ACCOUNT, addr)
      case None => SlotAt(c, addr, slot) == Ok(None)
      case Some(data) =>
        match DecodeAccount(data)
        case Err(e) => SlotAt(c, addr, slot) == Err(e)
        case Ok(a) =>
          && (a.root == [] ==> SlotAt(c, addr, slot) == Ok(None))
          && (!NoTrie(a.root) && a.root !in Bucket(less, NS_CONTRACT) ==> SlotAt(less, addr, slot) == Err(NodeNotFound))
  {
    hide DecodeAccount, Walk, Lookup, Halts;
    assert StorageRoot(less, addr) == StorageRoot(c, addr);
    match StorageRoot(c, addr)
    case Ok(Some(root)) => MissingNodesShow(Bucket(c, NS_CONTRACT), Bucket(less, NS_CONTRACT), root, slot);
    case _ =>
  }

  // ---- Slots of a represented account ----

  /** A slot of an account whose storage trie is laid out in the Contract namespace reads as the entry
    * of the map the trie stands for, through every decoder on the way. */
  lemma SlotIsMapEntry(c: Content, addr: Bytes, a: IoTXAccount, t: TrieTree.Tree, hash: Bytes -> Bytes, slot: Bytes)
    requires AccountAt(c, addr) == Ok(Some(a))
    requires a.root == TrieTree.Root(t, hash) && !NoTrie(a.root)
    requires TrieTree.Stored(Bucket(c, NS_CONTRACT), t, hash) && TrieTree.WellFormed(t, [])
    ensures SlotHalts(c, addr, slot)
    ensures SlotAt(c, addr, slot)
         == Ok(if slot in TrieTree.Entries(t) then Some(TrieTree.Entries(t)[slot]) else None)
  {
    hide DecodeAccount, Halts, Lookup, TrieTree.Root, TrieTree.Stored, TrieTree.Entries;
    TrieTree.LookupIsMapLookup(Bucket(c, NS_CONTRACT), t, hash, slot);
  }
}
