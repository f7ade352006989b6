# IOSwarm agent: a verified model

This project models the state machinery with which an IOSwarm agent executes transactions
independently of the coordinator that sends them, and the on-chain pool that pays agents for it.
Everything below is proved with Dafny 4.11; `dafny verify dfyconfig.toml` checks the whole project.

- **State database** (`statedbspec`, `statedbobjects`, `statedb`, `statedbruns`, `statedboverlay`,
  `statedbreads`, `journal`, `interpreter`, `statedbagreement`, `netdiff`, `conservation`,
  `evm`). `StateDB.MemStateDB` is a class with the fields of the original: account objects on the heap, storage and committed storage, the write log,
  logs, snapshots, refund counter, access lists, transient storage and the local store. A ghost field
  says which value the fields stand for; every method is proved to take that value where the
  operation of the same name (`StateDBSpec.Step`) takes it, and `Valid` keeps live account objects
  apart from each other and from those of every snapshot. What the original promises is proved about
  runs of these operations: exact storage reports, caches that cannot be told from a plain overlay,
  nested snapshots and value conservation. Where the first values come from is proved down to the
  bytes of task and store, and logs, refund, transient storage and access lists are proved to be what
  a journal of the operations that no revert has taken back says. An interpreter is any function from the answers it has heard
  to the next operation; it is proved that over two sources of state that agree on what is touched, a
  task alone and a task with a local store behind it for one, it asks the same operations, hears the
  same answers and reports the same. `EVM.Execute` ties the two together: it drives the class through
  whatever operations an interpreter asks for.
- **Merkle trie** (`protowire`, `mptcodec`, `messages`, `trie`, `trietree`, `triehalting`, `account`). Protobuf
  parsing is written from the Protocol Buffers Encoding guide, sections "Base 128 Varints" and
  "Message Structure". The decoding loops are methods proved against position-based parsers; lookups
  are proved against finite maps laid out as trees, through the bytes, and for stores of any kind it
  is proved exactly when a lookup ends. What the decoders accept is described a second time, without
  reference to them: varints, decimal numbers, and messages of any fields in any order.
- **Store, snapshots, replication** (`bigendian`, `statestore`, `snapshot`, `snapshotload`,
  `replication`, `statesync`). The store is a class over nested maps with a height on disk and one in
  memory; snapshot loading is all or nothing on every byte string; following the chain of diffs is a
  transition system with disconnects, failed applies and restarts, and a client class that runs it.
- **Reward pool** (`mapsums`, `rewardpool`, `rewardproofs`, `rewardsettlement`, `rewardcontract`). The
  contract is known from its bytecode: entry points and checked arithmetic as functions, a class that updates storage in
  place, and proofs over every run, against a reference that credits every agent on every deposit.
  The bytecode at `deploy.go:23` departs from what its repository says of it: at 0xbb7, in the routine
  behind `claim` and `claimFor`, the return address of the first subtraction is 0x866, in the middle
  of `claimable`, where 0xbc0, a jump destination nothing names, continues the settlement. With
  weight above zero the routine therefore ends as the view does, on the wrong stack: `claim()` jumps
  to its own selector and fails, and `claimFor(a)` adds the accrued reward to the storage slot of the
  agent's record, stops and has stored nothing. `README.md:368` and `reward_e2e_test.go:482-491`
  expect claims of such agents to pay. The model follows the bytecode; the loops of `batchClaimFor` and
  `depositSettleAndClaim` jump where they should and pay every agent.

Where a property one might expect of the code is false, the model keeps the code and the project
proves when it holds: writing a slot that was never read (`WriteIsReportedIff`, `WriteSurvivesIff`,
`UnreadWriteAtTheStart`), destroying an account only the store knows (`DestroyTakesEffectIff`),
lookups that never end (`SelfLoopDiverges`, `LookupEndsIff`, `AllEndIff`), transfers the sender
cannot pay (`TransferConservesIff`), snapshots cut short when the store is already ahead
(`PrefixIsRefusedIff`), unknown fields in an otherwise empty account record
(`UnknownFieldIsIgnored`), diffs applied at heights other than the one reached and the next
(`MessageIsSafeIff`, `OutOfOrderMisleads`), single claims of agents with weight
(`SingleClaimPaysIff`, `WeightedClaimComesToNothing`), and reward shares that fall short without any
settlement (`ShortfallWithoutSettlement`; the exact shortfall is `ShortfallIsExact`, and there is
none exactly when `ShareIsExactIff` and `UnsettledShareIsExactIff` say so). The comment on
`committedStorage` says its values are never modified, and the one on `SetLocalStore` lists reads
only; the code fills both storage maps on a load, which is what is modelled. `statestore.go`
describes keys of the Contract namespace as address and slot; the lookup reads trie nodes under
their hashes there, which is what is modelled.

## Model

| member | source | states |
|---|---|---|
| StateDB.MemStateDB.constructor | statedb.go:82-165 | the accounts, code and slots a task brings, in whatever order its maps are walked, with no store behind them; each account an object of its own |
| StateDB.MemStateDB.SetLocalStore | statedb.go:172-174 | from then on the store's content, whatever it is, answers for accounts and slots that are not cached |
| StateDB.MemStateDB.FetchAccount | statedb.go:178-203 | a fresh object with the decoded record and its code, or null on any error or absence |
| StateDB.MemStateDB.LoadAccountFromStore | statedb.go:178-205 | caches exactly what the store has, null and no change otherwise |
| StateDB.MemStateDB.GetOrCreateAccount | statedb.go:207-218 | the cached object, else the store's, else a new empty one, never shared with a snapshot |
| StateDB.MemStateDB.CreateAccount | statedb.go:222-224 | the account exists afterwards, unchanged if it did before |
| StateDB.MemStateDB.CreateContract | statedb.go:226-229 | the account exists and is new |
| StateDB.MemStateDB.IsNewAccount | statedb.go:231-241 | the flag of the account any reader sees, true for one that does not exist; stored accounts are not new |
| StateDB.MemStateDB.SubBalance | statedb.go:243-253 | clamps at zero; returns the balance any reader saw before |
| StateDB.MemStateDB.AddBalance | statedb.go:255-260 | wraps at 256 bits; returns the balance any reader saw before |
| StateDB.MemStateDB.GetBalance | statedb.go:262-270 | the cached, else the stored, else zero balance; changes nothing but the cache |
| StateDB.MemStateDB.GetNonce | statedb.go:272-280 | likewise for the nonce |
| StateDB.MemStateDB.SetNonce | statedb.go:282-284 | sets the nonce of the account, created if need be |
| StateDB.MemStateDB.GetCodeHash | statedb.go:286-294 | likewise for the code hash, zero for an account that does not exist |
| StateDB.MemStateDB.GetCode | statedb.go:296-304 | likewise for the code |
| StateDB.MemStateDB.SetCode | statedb.go:306-316 | sets code and hash, returns the code before |
| StateDB.MemStateDB.AddRefund | statedb.go:322-324 | wraps at 64 bits |
| StateDB.MemStateDB.SubRefund | statedb.go:326-331 | panics exactly when the counter would go below zero |
| StateDB.MemStateDB.GetRefund | statedb.go:333-335 | the counter |
| StateDB.MemStateDB.GetCommittedState | statedb.go:337-348 | the committed value, else the store's, else zero; a load caches it as current too |
| StateDB.MemStateDB.GetState | statedb.go:350-361 | the current value, else the store's, else zero |
| StateDB.MemStateDB.FetchSlot | statedb.go:364-373 | what the store's trie lookup has for the slot, nothing on any error |
| StateDB.MemStateDB.LoadSlotFromStore | statedb.go:363-383 | fills both caches with what the store has and nothing else |
| StateDB.MemStateDB.SetState | statedb.go:385-399 | logs the cached value, or zero, as the old one without asking the store |
| StateDB.MemStateDB.GetTransientState | statedb.go:405-410 | the value or zero |
| StateDB.MemStateDB.SetTransientState | statedb.go:412-417 | changes this one value |
| StateDB.MemStateDB.SelfDestruct | statedb.go:419-427 | acts on cached accounts only; returns the balance before |
| StateDB.MemStateDB.HasSelfDestructed | statedb.go:429-434 | the mark of the account any reader sees, though only the cache is looked at |
| StateDB.MemStateDB.SelfDestruct6780 | statedb.go:436-447 | destroys exactly the new cached accounts, empties other cached ones |
| StateDB.MemStateDB.Exist | statedb.go:449-457 | true exactly when cached or in the store |
| StateDB.MemStateDB.Empty | statedb.go:459-468 | no nonce, balance or code, or no account at all |
| StateDB.MemStateDB.AddressInAccessList | statedb.go:470-472 | whether the address is listed |
| StateDB.MemStateDB.SlotInAccessList | statedb.go:474-480 | whether address and slot are listed |
| StateDB.MemStateDB.AddAddressToAccessList | statedb.go:482-484 | lists the address |
| StateDB.MemStateDB.AddSlotToAccessList | statedb.go:486-492 | lists address and slot |
| StateDB.MemStateDB.Prepare | statedb.go:494-512 | the loops leave exactly the parties, precompiles and the transaction's own list |
| StateDBObjects.NextEntry | statedb.go:506-511 | going through the entries in order gives what listing all addresses before all slots gives |
| StateDB.MemStateDB.Snapshot | statedb.go:514-569 | saves the whole state in objects that are fresh and never live; returns the next id |
| StateDBObjects.CopyAccounts | statedb.go:524-533 | equal values in new objects, one for each address |
| StateDB.MemStateDB.RevertToSnapshot | statedb.go:571-626 | brings back the saved state in fresh objects, drops that snapshot and later ones, ignores unknown ids |
| StateDB.MemStateDB.AddLog | statedb.go:628-634 | appends the log under the next index |
| StateDB.MemStateDB.GetStateChanges | statedb.go:657-689 | the net changes of the write log |
| StateDB.MemStateDB.GetLogs | statedb.go:692-694 | the logs |
| StateDBObjects.AcyclicIsReadable | mpt.go:86-94 | every slot of a store can be looked up if its extension nodes make no cycle without a path |
| StateDBReads.PartyIsSeen | statedb.go:93-131 | a party of the task has the balance its decimal string denotes modulo 2^256, none if negative, its nonce, no code unless listed, and the receiver's padded code hash |
| StateDBReads.UnreadableBalanceIsZero | statedb.go:97-100 | a balance that is no decimal number counts as zero |
| StateDBReads.CodeIsSeen | statedb.go:133-147 | code is seen where it is listed last, with its hash; an address listed for code only has nothing else |
| StateDBReads.BroughtSlotIsSeen | statedb.go:149-164 | a slot of the task reads as the value listed last, currently and as committed |
| StateDBReads.StoredAccountIsSeen | statedb.go:178-205 | over record bytes in the Account namespace the first read sees balance modulo 2^256, nonce, padded code hash, and the code stored under that hash in the Code namespace, none if it is missing |
| StateDBReads.AbsentIff | statedb.go:182-185 | an account the task does not bring is absent if and only if the store has no record of it or one that cannot be decoded |
| StateDBReads.TaskHidesStore | statedb.go:337-361 | what the task brings is what is read, whatever the store has |
| StateDBReads.StoredSlotIsSeen | statedb.go:364-383 | through record and node bytes, a first read sees the padded entry of the map the storage trie stands for, or zero |
| StateDBReads.SlotWithoutTrieIsZero | statestore.go:172-183 | a slot of an account without a readable record or without a trie reads as zero |
| StateDBReads.CreatedIsEmpty | statedb.go:207-218 | an account created on demand has no balance, nonce or code, the hash of no code, and is new |
| StateDBReads.HashIsPadded | statedb.go:126-128 | short hashes get zeros in front, long ones lose their front |
| NetDiff.Collapse | statedb.go:657-689 | the map-and-positions loop computes the record-by-record merge without no-ops |
| NetDiff.MergeIsFaithful | statedb.go:665-680 | on a chained log: one record per written slot, in order of first writes, from its original to its last value |
| NetDiff.NetIsDifference | statedb.go:657-689 | on a chained log the result is exactly the difference of original and current values |
| StateDBRuns.StepKeeps | statedb.go:337-399 | every operation keeps the invariant of log, caches and all snapshots if written slots were read or are unknown to the store |
| StateDBRuns.SetStateKeeps | statedb.go:385-399 | a write records the value before it, so the log stays chained |
| StateDBRuns.LoadSlotKeeps | statedb.go:364-383 | a load never overwrites a written slot |
| StateDBRuns.ReportedChangesAreExact | statedb.go:657-689 | after every such run the report is exactly the storage difference, and committed values have not moved |
| StateDBRuns.CoordinatorOnlyIsGuarded | statedb.go:364-367 | without a store no condition is needed |
| StateDBRuns.WriteIsReportedIff | statedb.go:385-399 | a write keeps the report exact if and only if the slot is cached or zero in the store |
| StateDBRuns.WriteSurvivesIff | statedb.go:337-399 | a write survives the next read of the committed value if and only if that is cached, or the store has none or the same value |
| StateDBRuns.UnreadWriteAtTheStart | statedb.go:337-399 | both failures happen in the first operations of any execution over a store with a non-zero value for a slot the task lacks |
| StateDBRuns.RevertRestores | statedb.go:514-626 | whatever happens after a snapshot, reverting to it restores everything saved; earlier ids stay, later ones are dead |
| StateDBRuns.RevertRestoresReads | statedb.go:571-626 | what is not rolled back cannot be seen by any read |
| StateDBOverlay.StepSimulates | statedb.go:178-218 | one operation on the caches is one operation on the plain overlay |
| StateDBOverlay.CachesRefineOverlay | statedb.go:178-468 | every getter returns the last unreverted write, else the task's, else the store's value, else nothing |
| StateDBOverlay.CoordinatorOnlyIsFaithful | statedb.go:178-181 | without a store no condition is needed |
| StateDBOverlay.DestroyTakesEffectIff | statedb.go:419-447 | destruction reaches an account if and only if it is cached or does not exist |
| StateDBJournal.JournalTells | statedb.go:322-694 | after any run logs, refund counter, transient storage and access lists are what a journal of the unreverted operations, kept by snapshot ids alone, says they are |
| StateDBJournal.StepFollows | statedb.go:514-634 | one operation on the state is one note in the journal; a revert takes back the notes since its snapshot |
| StateDBJournal.TransferTells | evm.go:225-236 | a transfer's log has the three topics zero, padded sender, padded recipient, in this order, and data that decodes to the amount |
| StateDBJournal.Prepared | statedb.go:494-512 | after the preparation exactly the sender, coinbase, destination, precompiles and listed entries are in the lists |
| StateDBJournal.PanicsIff | statedb.go:326-331 | an execution panics if and only if some operation takes more refund than the unreverted operations before it have left |
| StateDBJournal.EveryAnswerIsPlain | statedb.go:220-634 | after any faithful run an operation returns what the plain overlay and the journal say: account, slot, original value, balance, number of snapshots, panic |
| Interpreter.AskedInTurn | evm.go:180-186 | every operation is what the interpreter asks for after the answers so far; it stops exactly when the steps are used up, nothing is asked, or a panic ends it |
| Interpreter.HeardInTurn | evm.go:180-186 | an answer is about the state the operations before it have left |
| StateDBAgreement.SourcesDoNotMatter | statedb.go:169-205 | sources that agree on what is touched, and on nothing else, lead an interpreter to the same operations, answers, report, logs and final accounts and slots |
| StateDBAgreement.Lockstep | statedb.go:178-399 | from any two states that stand together, as long as the first execution stays in the footprint the second asks and hears the same |
| StateDBAgreement.SameAnswer | statedb.go:231-480 | two executions that stand together answer a faithful operation alike, cache-only answers included |
| StateDBAgreement.TogetherStep | statedb.go:178-399 | one operation within the footprint keeps two differently supplied executions together |
| StateDBAgreement.CarefulIsFaithful | statedb.go:337-447 | reading slots before writing them and looking at accounts before destroying them suffices in every state |
| Conservation.TransferConservesIff | evm.go:218-227 | a transfer, to oneself included, keeps the sum of balances exactly when the sender can pay |
| Conservation.CanTransferIffConserved | evm.go:218-227 | the check lets a transfer through if and only if making it keeps the sum of balances, transfers of nothing and of everything included |
| Conservation.StepConserves | evm.go:218-227 | every operation but balance setting keeps the sum in the present and in all snapshots |
| Conservation.ValueIsConserved | evm.go:218-236 | over every run of guarded transfers with snapshots, reverts and loads between them the sum stays |
| EVM.CanTransfer | evm.go:218-220 | whether the balance any reader sees suffices |
| EVM.IotexTransfer | evm.go:225-236 | moves the amount and adds the synthetic log |
| EVM.BigEndianBytes | evm.go:234 | the bytes decode to the amount and have no leading zero |
| EVM.TransferLogTells | evm.go:228-235 | the log determines sender, recipient and amount |
| EVM.Look | statedb.go:231-304 | all account getters together see the account, and looking again changes nothing |
| EVM.Perform | statedb.go:220-634 | each operation of the class is the operation of the run model and returns what the model answers |
| EVM.Drive | evm.go:180-186 | the class goes through exactly the operations the interpreter asks for, up to a panic |
| EVM.OutcomeIsKept | evm.go:188-208 | refused exactly on a refund overdraft; else the report has one log for every unreverted operation that makes one, in order, and no other |
| EVM.Execute | evm.go:71-215 | refuses without a sender or on a refund panic, else reports exactly the changes and logs of the run the interpreter asked for |
| EVM.AlikeIffSupplied | evm.go:64-95 | task alone and task with store agree on a footprint if and only if the task brings what the store knows of it |
| EVM.IndependentExecutionAgrees | evm.go:64-95 | a careful execution over the prefetched state and over the local store is reported alike if the task brought what the store knows of what is touched |
| Protowire.VarintRoundTrip | account.go:45-53 | base-128 varints of 64 bits read back as written |
| Protowire.FieldRoundTrip | account.go:37-97 | a written field reads back, whatever surrounds it |
| Protowire.DecodeEncoded | account.go:37-97 | decoding an encoded message handles exactly its fields in order |
| Protowire.DecodeByParts | account.go:37-97 | the loops' tag, value, rest is the position-based decoding |
| Protowire.IgnoredFieldIsTransparent | account.go:77-92 | a field that is passed over may stand at any field boundary |
| Messages.VarintIff | account.go:45-53 | a varint is read if and only if it ends within ten bytes and its groups make a 64-bit number, minimal or not |
| Messages.DecimalIff | account.go:63-70 | a balance is accepted if and only if it is an optional sign, zeros and digits, and is read as that number |
| Messages.AccountOfFields | account.go:29-100 | fields in any order, repeated, unknown or of the wrong type: the last nonce, root, code hash and non-empty balance count; refused exactly when empty or when some balance is no number |
| Messages.NodeOfFields | mpt.go:129-349 | the first node among any fields decides whatever bytes follow it, and in it the last field of each kind counts |
| Messages.BranchOfFields | mpt.go:180-212 | a branch is read if and only if every entry is; its child for a byte is that of the last entry whose index ends in it |
| Messages.EntryOfFields | mpt.go:216-255 | an entry has its last index cut to 32 bits and its last path |
| Messages.FirstNodeDecides | mpt.go:129-176 | the first field that carries a node decides, whatever comes before and after it |
| Account.DecodeAccountLoop | account.go:29-100 | the loop over tags and wire types computes the fold over fields, errors included |
| Account.DecimalRoundTrip | account.go:63-70 | decimal balances of any size and sign read back |
| Account.AccountRoundTrip | account.go:29-100 | decoding inverts encoding for all records |
| Account.UnknownFieldIsIgnored | account.go:37-97 | inserting an unused field at any boundary changes nothing if and only if the record was not empty |
| Account.HexVal | account.go:134-145 | the place of a digit among the digits of either case; nothing else is accepted |
| Account.AddressToHash160 | account.go:105-132 | accepts exactly 0x or 0X and forty digits; each byte is its two digits |
| MptCodec.SkipField | mpt.go:352-381 | the length of a value of any supported wire type |
| MptCodec.DecodeBranchNodePb | mpt.go:216-255 | the loop computes the fold over fields; the index is cut to 32 bits |
| MptCodec.DecodeBranchPb | mpt.go:180-212 | likewise; later entries for an index win |
| MptCodec.DecodeLeafPb | mpt.go:259-306 | likewise; an absent value is not an empty one |
| MptCodec.DecodeExtendPb | mpt.go:310-349 | likewise |
| MptCodec.DecodeNodePb | mpt.go:129-176 | the first node field decides, what follows it is not read |
| MptCodec.LeafRoundTrip | mpt.go:259-306 | decoding an encoded leaf gives its key and value |
| MptCodec.ExtensionRoundTrip | mpt.go:310-349 | decoding an encoded extension gives its path and child |
| MptCodec.BranchRoundTrip | mpt.go:180-255 | decoding an encoded branch gives its children, whatever order they were written in |
| MptCodec.EncodeLeafNode | mpt.go:386-399 | the appended bytes decode to the leaf |
| MptCodec.EncodeBranchNode | mpt.go:403-423 | the loop in any map order writes bytes that decode to the children |
| MptCodec.EncodeExtensionNode | mpt.go:426-439 | the appended bytes decode to the extension |
| Trie.TrieGet | mpt.go:50-109 | never out of range; the answer of the lookup; at most one load per key byte and one more when paths are not empty |
| Trie.WalkIsShort | mpt.go:55-108 | with non-empty paths a lookup ends within the remaining key length plus one loads |
| Trie.SelfLoopDiverges | mpt.go:86-94 | an extension without a path that leads to itself is never left |
| Trie.LookupIs | mpt.go:50-109 | the answer does not depend on the bound it was found with |
| TrieHalting.OneLoadPerState | mpt.go:55-108 | a lookup that ends loads no node twice at the same point of the key |
| TrieHalting.EndsWithinMostLoads | mpt.go:55-108 | a lookup that ends does so within (nodes x (key length + 1)) + 1 loads |
| TrieHalting.CycleNeverEnds | mpt.go:86-94 | from a node on a cycle of extensions without paths no lookup gets away |
| TrieHalting.EndsWithoutCycle | mpt.go:55-108 | a lookup that meets no such cycle ends |
| TrieHalting.LookupEndsIff | mpt.go:55-108 | a lookup ends if and only if it gets to no node on such a cycle |
| TrieHalting.PathsMakeAcyclic | mpt.go:86-94 | a store whose extension nodes all have paths has no such cycle |
| TrieHalting.AllEndIff | mpt.go:55-108 | every lookup on a store ends if and only if no node lies on such a cycle |
| TrieTree.StoredDecodes | mpt.go:129-176 | a stored node of a tree decodes to the node that was serialized |
| TrieTree.WalkIsMapLookup | mpt.go:58-108 | from any node of a stored tree the walk answers what its map answers |
| TrieTree.LookupIsMapLookup | mpt.go:50-109 | the value of the map, and key-not-found exactly for absent keys, through the byte decoders |
| TrieTree.BuildIsFaithful | mpt.go:14-23 | every non-empty map of equal-length keys has such a tree |
| TrieTree.ShelvedIsStored | mpt.go:14-23 | a tree whose nodes the hash tells apart stands in a store, each node under its hash |
| TrieTree.MapHasStore | mpt.go:50-109 | every map of equal-length keys, the empty one included, has a store whose lookups are the map |
| BigEndian.RoundTrip | statestore.go:119-122 | fixed-width integers read back |
| BigEndian.EncodesBack | snapshot.go:98-121 | and bytes that were read as an integer are what it is written as |
| BigEndian.FirstByteFirst | statestore.go:119-122 | the first byte weighs most |
| StateStore.Store.Open | statestore.go:42-77 | every key of every namespace reads as on disk, exactly the four namespaces are added; the height is the one on disk |
| StateStore.OpeningReadsTheDisk | statestore.go:54-66 | opening adds missing namespaces and changes nothing that can be read; a store opened before stays as it is; the height is the eight bytes on disk, or zero |
| StateStore.Store.ApplyDiff | statestore.go:91-127 | all entries and the height, or nothing, wherever the database fails |
| StateStore.CommitPersistsHeight | statestore.go:59-63 | a committed height is the one recovered |
| StateStore.Store.GetAccount | statestore.go:150-159 | the decoded record, absence, or the decoding error |
| StateStore.Store.GetStorageSlot | statestore.go:172-191 | absent for no account, no trie or no key; other errors are passed on |
| StateStore.TrieNodesArePersistent | statestore.go:91-127 | a diff of nodes under their own hashes leaves every slot of every account readable as before |
| StateStore.MissingNodesShow | mpt.go:58-62 | with fewer trie nodes a lookup answers the same or fails for a missing node |
| StateStore.MissingSlotsShow | statestore.go:150-191 | and so does a slot: unreadable records, missing nodes and absent slots are told apart |
| StateStore.SlotIsMapEntry | statestore.go:172-191 | the slot of any account record that decodes, with a stored tree for its root, is the entry of the tree's map |
| SnapshotLoad.ParsedIsWritten | snapshot.go:53-166 | a payload is accepted only if it begins with a written snapshot, and is taken for that one |
| SnapshotLoad.LoadSnapshot | snapshot.go:35-178 | all or nothing on every payload: on error store and height are untouched, else the content is overlaid with the entries in order and the height is the header's |
| SnapshotLoad.ReadEntries | snapshot.go:82-135 | the loop reads what the grammar says |
| SnapshotLoad.ReadTrailer | snapshot.go:141-166 | count as a signed 64-bit integer, then digest and end magic are checked in the source's order |
| SnapshotLoad.ImageRoundTrip | snapshot.go:24-34 | a written snapshot parses to its height and entries, whatever follows |
| SnapshotLoad.WriteIsInjective | snapshot_test.go:16-47 | different snapshots are written differently |
| SnapshotLoad.ParseExtends | snapshot.go:53-166 | bytes after a snapshot change nothing |
| SnapshotLoad.PrefixIsRefusedIff | snapshot.go:53-161 | a strict prefix is refused if and only if the store is behind or the header is cut |
| Replication.StepKeeps | statesync.go:81-137 | every event keeps disk, memory, phase and ready channel in step |
| Replication.ReplicationSafety | statesync.go:67-138 | in every run the disk is the replay up to its height, no height skipped or repeated, memory never ahead, the channel closed at most once |
| Replication.CanAlwaysCatchUp | statesync.go:67-79 | from every reachable state reconnecting reaches the head of the chain |
| Replication.RestartIsReopening | statestore.go:53-69 | in every run, a crash between commit and publication included, a restart opens the store exactly as it is on disk, at the height it replays |
| Replication.BootstrapEquivalence | snapshot.go:74-80 | a snapshot of height H and the diffs after it end where streaming from genesis ends |
| StateSync.Sync.StreamDiffs | statesync.go:81-138 | asks for the next height and applies whatever messages arrive, in order, until they end or one fails |
| StateSync.ContiguousIsReplay | statesync.go:110-120 | messages that are the chain's next diffs replay the chain |
| StateSync.AnyHeightIsRecorded | statesync.go:112-121 | a message of any height is committed and its height recorded |
| StateSync.OutOfOrderMisleads | statesync.go:118-121 | a message behind or beyond the next height makes some replica differ from the replay to that height |
| StateSync.MessageIsSafeIff | statesync.go:118-121 | after the replay to h the message of height m gives the replay to m, on all chains and contents, if and only if m is h or h+1 |
| StateSync.EffectIs | statestore.go:91-117 | a key holds what the last put or delete of it left |
| StateSync.SessionIsRun | statesync.go:81-138 | one connection is a run of the transition system: connect, fetches, and a disconnect or a failed apply |
| StateSync.Sync.SyncLoop | statesync.go:67-79 | any number of connections to a coordinator that serves its chain contiguously keep the replay and are a run of the transition system; ready exactly after a first applied diff |
| StateSync.Reopen | statestore.go:42-77 | starting anew over the last store's disk is a restart of the transition system |
| StateSync.LiveOn | statesync.go:67-79 | any number of starts and connections is a run of the transition system and ends with the replay of the chain |
| StateSync.Sync.constructor | statesync.go:28-36 | a client starts not ready, its channel open |
| StateSync.BootAndSync | snapshot.go:35-178 | an agent started from a snapshot reads like one that replayed the chain |
| RewardContract.RewardPool.constructor | deploy.go:20-23 | a new pool has its coordinator, who is not the zero address, and nothing else |
| RewardContract.RewardPool.Receive | deploy.go:23 | a plain transfer adds to the balance only |
| RewardContract.RewardPool.SetCoordinator | deploy.go:23 | only the coordinator, never to the zero address |
| RewardContract.RewardPool.DepositAndSettle | deploy.go:23 | the in-place loop is the specified settlement, or a revert that restores everything |
| RewardContract.RewardPool.DepositSettleAndClaim | deploy.go:23 | likewise with the claim loop behind it |
| RewardContract.RewardPool.BatchClaimFor | deploy.go:23 | skips empty claims, puts refused ones back |
| RewardContract.RewardPool.Collect | deploy.go:23 | pays what is pending, reverts when nothing is or the recipient refuses |
| RewardContract.RewardPool.Claim | deploy.go:23 | fails for a caller with weight, else collects |
| RewardContract.RewardPool.ClaimFor | deploy.go:23 | for an agent with weight computes the reward, adds it to a storage slot and stores nothing, else collects |
| RewardSettlement.DepositServesEveryone | deploy.go:23 | after a deposit every listed agent has the weight last listed for it, the counter as snapshot and its claimable amount pending; others are untouched; the total weight moves by the sum of the differences |
| RewardSettlement.DepositSucceedsIff | deploy.go:23 | a deposit succeeds if and only if the coordinator makes it, the lists are equally long and no counter, claimable amount or total overflows |
| RewardSettlement.DistributeSucceedsIff | deploy.go:23 | the counter moves unless its scaled deposit or its new value does not fit in 256 bits |
| RewardSettlement.SettleAllSucceedsIff | deploy.go:23 | the settlement loop fails only if a listed agent's claimable amount or the total weight after some round overflows |
| RewardSettlement.EveryoneIsServed | reward_e2e_test.go:515-517 | the settlement loop serves every agent of the list and no other |
| RewardSettlement.BatchPaysEveryone | deploy.go:23 | a batch of claims fails if and only if a listed amount overflows; else every listed agent gets what is claimable, once, if it takes it in any round, and all other amounts stay |
| RewardSettlement.MoneyAndOffice | deploy.go:23 | over any run every wei that came in is in the pool or was paid out, and the coordinator is who the office has passed to |
| RewardPoolProofs.RunKeeps | deploy.go:23 | every run keeps weights, counter, snapshots, excess, funds and shares what the history gives |
| RewardPoolProofs.Solvency | deploy.go:23 | the balance covers all liabilities and so all claimable amounts; total weight is the sum; snapshots are not ahead |
| RewardPoolProofs.DustIsExact | deploy.go:23 | what is beyond the liabilities is exactly the undistributable money with the remainders and what settlements dropped, less than a wei each |
| RewardPoolProofs.DistributeExcess | deploy.go:23 | a distributed deposit adds its remainder, below the total weight, any other its whole scaled value |
| RewardPoolProofs.SettleExcess | deploy.go:23 | a settlement adds exactly what it drops, less than one wei |
| RewardPoolProofs.ShortfallIsExact | deploy.go:23 | over every run rewards fall short of crediting every deposit exactly by the shares of remainders and by what settlements dropped, and by nothing else |
| RewardPoolProofs.RefinesNaiveCrediting | README.md:364-372 | so never more than exact crediting, and less by under a wei per settlement and the weight per inexact deposit |
| RewardPoolProofs.ShareIsExactIff | deploy.go:23 | an agent has its exact share if and only if no deposit while it had weight left a remainder and no settlement of it dropped anything |
| RewardPoolProofs.UnsettledShareIsExactIff | deploy.go:23 | an agent never settled has its exact share if and only if the total weight divided every deposit made while it had weight |
| RewardPoolProofs.ShortfallWithoutSettlement | deploy.go:23 | a whole wei can be lost to an agent that was never settled |
| RewardPoolProofs.ClaimNeverLacksFunds | deploy.go:23 | a round of the batch loops fails only on overflow and pays whenever something is claimable and taken: the pool has it |
| RewardPoolProofs.ClaimPaysClaimable | deploy.go:23 | a round of the batch loops pays the claimable amount and leaves none, or leaves what was, and moves nobody else |
| RewardPoolProofs.SingleClaimPaysIff | deploy.go:23 | claim and claimFor pay the claimable amount if and only if the agent has no weight, something is pending and it is taken; else they change nothing |
| RewardPoolProofs.WeightedClaimComesToNothing | deploy.go:23 | a run after which the view reports a wei, the pool has it, claim fails, claimFor succeeds without paying and a batch pays |
| RewardPoolProofs.SettleMakesPending | deploy.go:23 | settling makes pending exactly what the view reports |
| RewardPoolProofs.WeightlessIsFrozen | reward_e2e_test.go:801-805 | an agent without weight keeps its claimable amount until weighed or paid |

## Left out

- The EVM interpreter and gas schedule: `EVM.Execute` takes the interpreter as a function from answers to operations, and a number of steps for the gas.
- EVM.Execute: parsing of the transaction and the refusal of a missing one or of an oversized value, block context, gas used and return data are not modelled, and addresses and slots are reported raw, not in hex.
- StateDB.MemStateDB.constructor: addresses, slots and values arrive as bytes; hex parsing is not modelled.
- StateDB.MemStateDB.AddLog: logs are values, so changing a log through a shared pointer is not captured; transaction hash and index, which the agent never sets, are not kept.
- StateDB.MemStateDB.Snapshot: nested maps, code and slices are values, so the copying of those is not modelled as copying; accounts are objects and their copying is.
- StateDB.MemStateDB.GetState: the local store is fixed during one execution, and the lookup asked for ends; one that does not end hangs the original. The same goes for `GetCommittedState` and `EVM.Execute`.
- Store read errors other than absence are not modelled; the source treats them like absence when it fills the caches.
- SnapshotLoad.LoadSnapshot: gzip, files and SHA-256 are not modelled; the payload and the hash function are parameters.
- StateSync.BootAndSync: streams for any finite number of connections, as `SyncLoop`.
- StateStore.Store.ApplyDiff: BoltDB is a transactional map whose failures, its limits on keys and names among them, are the fault parameter.
- StateSync.Sync.SyncLoop: requires that the coordinator serves its chain contiguously from the requested height, taking zero for one, because the client checks neither this nor the digest of a diff; chains end before the last 64-bit height. The endless loop is cut to any finite number of connections, here and in `BootAndSync`; sleeping, cancelling and waiting on the channel are left out.
- Trie.TrieGet: requires that the lookup ends; `LookupEndsIff` says when it does.
- RewardContract.RewardPool.ClaimFor: reentrancy, events and gas are not modelled, and the storage slot of the agent's record, a hash, is a parameter; whether a recipient accepts a transfer is a parameter, and the same goes for the batch entry points.
- RewardPoolProofs.RefinesNaiveCrediting: bounds only; the exact shortfall is `ShortfallIsExact`.
- Real Keccak, RIPEMD-160 and SHA-256: abstract functions; where collisions matter their absence is a precondition.
- Verkle point cache, witness, access events, preimages and the empty `Finalise`, storage-root and code-size getters of the state database.
- Networking, task dispatch, level checks, command line, fund and reward tools, and the LLM proxy.
