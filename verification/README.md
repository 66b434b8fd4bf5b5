# Omniledger in Dafny

A model of the parts of Omniledger that carry its promises, with proofs of those promises:

- the **collection**, an authenticated binary trie that stands in for a key/value map
  (`omniledger/collection`): its manipulators, transactions, garbage collection, proofs, partially
  known copies ("verifiers") and user updates;
- the **ledger step** that folds client transactions over copies of a collection, the trial run of
  `tryHash`, and the order of a batch (`omniledger/service`);
- **darcs**: evolution chains, delegation and the language of policies (`omniledger/darc`).

## How it is laid out

The collection is modelled twice. `Trie` describes it as a value: a tree of node data, and what Add,
Set and Remove do to it, with labels as the terms that are hashed. `Mapping`, `Canonical`, `Shape`,
`EmptyKeys`, `Lazy`, `Scoped`, `Undo`, `Proofs`, `Scopes`, `Verifiers`, `Lockstep`, `Sessions` and
`Navigators` prove the properties of that value. `Effects` and `Meaning` say what calls and updates
come to on the finite map of stored pairs, without reference to trees.
`Store` and `Collections` describe it as the program has it: nodes linked both ways, changed in
place, whose slices of values may be shared; the class `Collection` has the program's methods with
its loops, and each is proved to leave the tree that the value model prescribes. In between,
`Layout` lays a tree out as a table from paths to nodes, and the modules whose names begin with
`Store` say of snapshots of the whole heap what every single step keeps; `StoreFlags` follows the
flags that a rollback would leave. `Upkeep` holds the invariant, `StoreTies` follows which leaves share their slice with a node that a rollback would
bring back. `Creation`, `Getters`, `Grafting`, `Updates`, `Followers` and `Runs` are the other
operations on collections.
`Ledger` and `Service` are the ledger step, as a fold over trees and as a method over collections, and
`LedgerMeaning` is the same step on maps;
`Sorting`, `Expression` and `Darcs` stand alone.

Where the program hashes, the model keeps the term that is hashed, so that equal labels come from
equal nodes and no label is the all-zero array. The hash of keys is an arbitrary function to paths of
256 bits; no two keys are assumed to have different paths, except where a statement says which keys
are in play and that their paths differ (`Apart`, `Separates`).

`dafny verify dfyconfig.toml` checks everything.

## Findings

Where the code does not do what it or its documentation promises, the model follows the code, and the
exact condition is proved.

- **Rollback may not restore** (`omniledger/collection/manipulators.go:265-280`, `:160-166`,
  `omniledger/collection/transaction.go:24-34`). A collapse moves a leaf up without copying its slice
  of values, and the node it came from gets no backup. A later Set on the key writes to both, and
  Rollback brings the old node back with the new values under the old label: on a new collection, Add
  two keys whose paths part at the second step, then in a transaction Remove one and Set the other
  (`Undo.RollbackLosesReached`). It restores at every point of a transaction exactly if no Set changes
  the values of such a key (`Undo.RestoresExactly`), and what it brings back otherwise is proved, too
  (`Runs.Abandon`).
- **Flags outlive a rollback** (`omniledger/collection/transaction.go:24-34`,
  `omniledger/collection/node.go:60-66`, `omniledger/collection/verifiers.go:10-12`,
  `omniledger/collection/update.go:120-122`). The root is never backed up, so once a call of the
  transaction has succeeded the root stays flagged, and Verify and Prepare panic until the next End
  (`Runs.Abandon`). That End clears every flag (`Collections.Collection.End`).
- **Set and Remove take the empty key** (`omniledger/collection/manipulators.go:19-21`, `:124-155`,
  `:218-245`). Only Add refuses it. Placeholders are leaves with the empty key; if the path of the
  empty key ends at one, Set succeeds and writes to it. The root label then changes while the map does
  not, exactly if the values are not those of a placeholder (`EmptyKeys.SetEmpty`,
  `EmptyKeys.EmptySpoilt`). Remove of the empty key changes nothing (`EmptyKeys.RemoveEmpty`).
- **Prepared updates go stale** (`omniledger/collection/update.go:154-156`,
  `omniledger/collection/manipulators.go:115-117`, `omniledger/collection/transaction.go:52-56`). Apply
  accepts an update if no transaction has ended since Prepare. A call outside a transaction collects,
  but leaves the transaction number: on a collection of empty scope an update prepared before it
  passes and gets no answer to any request (`Sessions.PreparedStale`). A scope that covers the keys
  avoids this (`Sessions.PreparedHolds`).
- **Changes of rejected transactions are returned** (`omniledger/service/service.go:597`).
  `createStateChanges` appends the changes of each instruction before the transaction is known to
  succeed. They are those of the accepted transactions exactly if every rejected one fails before any
  of its instructions asks for a change (`Ledger.StatesExact`); otherwise they need not replay
  (`Ledger.RejectedLeavesChanges`).
- **The two operators have equal precedence** (`omniledger/darc/expression/expression.go:6-9`,
  `:82-95`). The comment at the head of `expression.go` gives `|` the higher one. The two readings
  agree on all inputs exactly if no `&` comes before a `|` (`Expression.DocumentationHolds`,
  `Expression.DocumentationFails`).
- **A broken path crashes** (`omniledger/darc/darc.go:353-362`). Verifying a signed darc whose path
  begins with a darc that is no genesis darc but has a base ID dereferences nil. Whoever evaluates an
  expression that comes to such a darc crashes, even if the expression is satisfied without it
  (`Darcs.AcceptedChain`, `Darcs.EvalExprCrashes`, `Darcs.CrashBesideListed`).

## Model

| member | source | states |
|---|---|---|
| Mapping.EditMap | omniledger/collection/manipulators.go:18-295 | below any node of a fully known tree, Add, Set and Remove are insert-if-absent, update-if-present and delete-if-present of the map of stored pairs, and an error says why |
| Mapping.EditOk | omniledger/collection/manipulators.go:18-295 | on a tree that is not fully known, a call that succeeds has done the map operation |
| Effects.AddEffect | omniledger/collection/manipulators.go:18-120 | Add, value by value: it succeeds on a whole tree iff the key is new and not empty; the pair is then stored as encoded, field for field, and all others stay; garbage collection only removes |
| Effects.SetEffect | omniledger/collection/manipulators.go:124-193 | Set, value by value: it succeeds on a whole tree iff the key is stored; every field has the value given for it, or its old one if none was given, and all other pairs stay |
| Effects.RemoveEffect | omniledger/collection/manipulators.go:218-295 | Remove: it succeeds on a whole tree iff the key is stored, and then that pair and no other is gone |
| Lockstep.UnknownIff | omniledger/collection/manipulators.go:131-150 | a call meets an unknown subtree iff a node on the path of its key, or beside it, is not known |
| Lockstep.ProofIff | omniledger/collection/getters.go:61-104 | a proof is refused iff the key is empty or such a node is not known |
| Canonical.EditCanon | omniledger/collection/manipulators.go:258-288 | split and collapse leave no node other than the root that one of its children could replace |
| Canonical.ApplyFull | omniledger/collection/testctx.go:42-119 | every call keeps the tree invariant that the tests check (labels, aggregates, placement, placeholders, canonical shape), and is the map operation |
| Shape.ShapeOfRun | omniledger/collection/manipulators.go:64-98 | after any calls on a new collection, a node other than the root is internal iff at least two stored keys extend its path, the leaf of a key iff exactly that one does, a placeholder iff none does |
| Canonical.HistoryIndependence | omniledger/collection/manipulators.go:18-295 | two sequences of calls, with keys that are not empty, on new collections that end in the same map end in the same tree, labels included |
| EmptyKeys.SetEmpty | omniledger/collection/manipulators.go:124-193 | Set of the empty key succeeds iff its path ends at a placeholder; the map stays; the tree invariant of the tests stays, and so does the root label, iff the values written are those of a placeholder |
| EmptyKeys.RemoveEmpty | omniledger/collection/manipulators.go:218-295 | Remove of the empty key succeeds in the same case, and leaves the tree as it is |
| EmptyKeys.EmptySpoilt | omniledger/collection/manipulators.go:124-193 | one Set of the empty key on a new collection gives the empty map another root label |
| Canonical.LabelDetermines | omniledger/collection/singlenode.go:68-87 | equal root labels mean equal maps |
| Canonical.SettledHashed | omniledger/collection/singlenode.go:68-87 | what is hashed: key and values of a leaf, values of an internal node and the labels of its children, left before right |
| Lazy.FixSettles | omniledger/collection/transaction.go:134-149 | if every stale node is flagged and flags are closed toward the root, fix makes every label right and leaves no flag |
| Lazy.ApplyLazy | omniledger/collection/manipulators.go:101-113 | every call in a transaction keeps that every stale node is flagged and flags are closed toward the root, and is one fix behind the same call outside |
| Lazy.LazyIsEager | omniledger/collection/transaction.go:134-149 | calls in a transaction followed by fix give the tree, labels included, of the same calls each relabelling its path; garbage collection aside, as with a scope that holds everything |
| Scoped.ScopedLazyIsEager | omniledger/collection/transaction.go:44-58 | with garbage collection after End on one side and after every call on the other: the same calls succeed, both ends are views of the same whole tree, and the root labels agree, if the scope covers the keys of the calls |
| Undo.RestoresExactly | omniledger/collection/transaction.go:19-40 | a rollback after each prefix of a run of calls restores the tree iff no Set of the run changes values that a lifted leaf shares with a node that is brought back |
| Undo.RollbackLoses | omniledger/collection/manipulators.go:265-280 | for any two sibling leaves below the root's child: Remove one, Set the other to other values, roll back, and the tree is not the one of Begin |
| Undo.SiblingsReached | omniledger/collection/manipulators.go:64-98 | two keys whose paths part at the second step, added to a new collection, end up as such siblings |
| Undo.RollbackLosesReached | omniledger/collection/manipulators.go:265-280 | so after those two calls the transaction that removes one, sets the other to other values and is rolled back leaves another tree than that of Begin |
| Undo.LossExists | omniledger/collection/manipulators.go:265-280 | there are a hash, keys, values and a change to which that applies |
| Proofs.RecordIsStored | omniledger/collection/getters.go:28-56 | on a fully known tree a lookup answers as the map does, inside transactions too |
| Proofs.ProofSound | omniledger/collection/proof.go:109-212 | any consistent proof for a non-empty key that carries the root label of a well-formed tree matches iff the key is stored, returns exactly the stored values, and has at most 256 steps |
| Proofs.ProofComplete | omniledger/collection/getters.go:61-104 | on a fully known tree every non-empty key has a proof; it is consistent, carries the root label, and agrees with the lookup |
| Scopes.MatchScope | omniledger/collection/scope.go:14-58 | the scope matches a path iff it holds everything and has no masks, or some mask agrees bit by bit as far as it goes |
| Scopes.CollectExact | omniledger/collection/transaction.go:62-114 | a node is known after garbage collection iff it was known and is in scope, and then holds the same data |
| Scopes.CollectKeepsMasked | omniledger/collection/transaction.go:62-114 | for every key path inside a mask, the known nodes on the path and their siblings survive |
| Verifiers.VerifyView | omniledger/collection/verifiers.go:14-41 | grafting an accepted proof onto a view of a full tree never descends through a missing child, keeps it a view, only adds knowledge, and makes the whole path known |
| Lockstep.UpdateInStep | omniledger/collection/update.go:119-171 | with proofs from the full collection, a view accepts them all, gives the same replies and status, never meets an unknown subtree, and ends with the same root label; with an empty scope it knows nothing else once the update is applied |
| Lockstep.InStep | omniledger/collection/update.go:119-171 | the same over any number of updates; with an empty scope only the label is known at the end if the last update was applied |
| Lockstep.NewVerifierInStep | omniledger/collection/collection.go:51-67 | in particular for a new verifier, which an applied update leaves with its bare root |
| Sessions.AppliedOnce | omniledger/collection/update.go:153-171 | prepared updates applied one after the other outside a transaction: one that is applied bears exactly the number of those applied before it, so that none is applied twice |
| Sessions.PreparedStale | omniledger/collection/manipulators.go:115-117 | on a collection of empty scope, a successful call between Prepare and Apply leaves a bare root under the same transaction number: the update gets no answer to any request and changes nothing |
| Sessions.PreparedHolds | omniledger/collection/manipulators.go:115-117 | if the scope covers the declared keys, the view stays in step with the full collection through such a call and the update |
| Meaning.UpdateMeaning | omniledger/collection/update.go:119-171 | an update with any proofs, on any view of a whole collection: rejected iff a proof is inconsistent or carries another label; otherwise status and replies are those of running check and changes on the map, and after an applied update the tree is a view of the collection of the changed map |
| Meaning.PreparedMeaning | omniledger/collection/update.go:153-171 | the same for a prepared update, in an open transaction or outside: another transaction number is a panic that changes nothing, a refused check changes nothing, a panic leaves a transaction open unless it comes from a check outside one, an applied update has stored the changed map |
| Meaning.RepresentsOne | omniledger/collection/singlenode.go:68-87 | a tree is a view of the collection of one map only, and stores it if everything is known |
| Meaning.DeclaredKeys | omniledger/collection/update.go:51-60 | the keys of the proofs are declared, and no others |
| Navigators.StakeSelection | omniledger/collection/navigators.go:28-54 | with a total below 2^64, a query below the total lands on the one leaf, never a placeholder, whose in-order interval of stakes holds it; it fails iff the query is not below the total, and at the root |
| Navigators.StakeShare | omniledger/collection/field.go:126-154 | a leaf of stake s answers exactly s queries |
| Navigators.NavigateRefuses | omniledger/collection/field.go:68-70 | a field of data, or a query that is not 8 bytes long, does not get past an internal node |
| Fields.DecodeEncode | omniledger/collection/field.go:45-96 | Decode inverts Encode on every value that the field accepts |
| Fields.EncodeBytes | omniledger/collection/field.go:45-86 | data is stored as it is; byte i of an amount is its digit of weight 256^(7-i) |
| Fields.DecodeBytes | omniledger/collection/field.go:52-96 | reading fails iff an amount is not 8 bytes long, and writing what was read gives the same bytes |
| Fields.EmptyValues | omniledger/collection/field.go:57-104 | placeholders, and internal nodes as far as data go, hold nothing; a parent has no stake iff a child's is not 8 bytes long |
| Fields.ParentStake | omniledger/collection/field.go:98-122 | the stake of a parent is the sum of those of its children modulo 2^64, and a placeholder weighs nothing |
| ByteSlice.SetBit | omniledger/collection/byteslice.go:28-38 | the buffer becomes the assignment of one bit |
| ByteSlice.AssignBit | omniledger/collection/byteslice.go:21-38 | which sets that bit and leaves all others |
| ByteSlice.ByteValue | omniledger/collection/byteslice.go:21-26 | within a byte the first bit weighs 128, the last 1 |
| ByteSlice.Match | omniledger/collection/byteslice.go:40-58 | comparing by bytes and then by bits is comparing the first bits one by one |
| Store.Node.BackUp | omniledger/collection/node.go:42-58 | the backup holds the node's data and links, with a copy of its slice; a node that has one keeps it |
| Store.Node.Restore | omniledger/collection/node.go:60-66 | a node with a backup becomes it, slice included; a node without one stays as it is |
| Store.Node.Update | omniledger/collection/singlenode.go:20-47 | it succeeds iff the node, and an internal node's children, are known with well-formed values; then values and label are those of the children, and a failure keeps the label |
| Store.Node.Split | omniledger/collection/manipulators.go:75-97 | the leaf gets two children, one with its key, label and slice, the other a placeholder |
| Store.Node.Lift | omniledger/collection/manipulators.go:265-280 | the node takes label, key and slice of the child beside the placeholder, and loses both |
| Store.Node.Overwrite | omniledger/collection/manipulators.go:160-166 | the slice is written in place: each value is the one given for it, or stays if none is given |
| Collections.Collection.Insert | omniledger/collection/manipulators.go:31-113 | the loops of Add on linked nodes: the tree is that of the value model, an error changes nothing, a rollback would still bring back the same, and the account of shared slices is kept |
| Collections.Collection.Change | omniledger/collection/manipulators.go:129-186 | the same for Set, with exactly what the write does to what a rollback would bring back |
| Collections.Collection.Delete | omniledger/collection/manipulators.go:218-295 | the same for Remove with its collapse |
| Collections.Collection.Add | omniledger/collection/manipulators.go:18-120 | Add as called: error and tree are those of the value model, followed by garbage collection outside a transaction; the stored pairs change as `Effects.AddDone` says, field for field |
| Collections.Collection.Set | omniledger/collection/manipulators.go:124-193 | Set as called, with Same for values that stay; the stored pairs change as `Effects.SetDone` says, field for field |
| Collections.Collection.SetField | omniledger/collection/manipulators.go:197-212 | the value of that field, and no other, is the new one; an index below zero is no field |
| Collections.Collection.Remove | omniledger/collection/manipulators.go:218-295 | Remove as called; exactly that pair is gone |
| Collections.Collection.Begin | omniledger/collection/transaction.go:9-15 | the tree stays, a rollback would bring it back, and no leaf shares its slice |
| Collections.Collection.Rollback | omniledger/collection/transaction.go:19-40 | the tree is the one a rollback was to bring back, with links in order and no backup left; the flags that remain are closed toward the root, and a root without a backup keeps its flag |
| Collections.Collection.End | omniledger/collection/transaction.go:44-58 | the tree is fixed and, if wished, collected; no backup and no flag is left, whatever an earlier rollback has left, and every label is right (part of the invariant outside transactions) |
| Collections.Collection.Confirm | omniledger/collection/transaction.go:118-132 | the walk through flagged and backed-up nodes reaches every node with a backup |
| Collections.Collection.Fix | omniledger/collection/transaction.go:134-149 | the walk through flagged nodes is Fix of the value model |
| Collections.Collection.Collect | omniledger/collection/transaction.go:62-114 | the walk is Collect of the value model, and keeps the invariant |
| StoreFlags.MarkFlags | omniledger/collection/manipulators.go:101-113 | flagging the node above the one flagged last keeps the flags that a rollback would leave closed toward the root, but for that node |
| StoreFlags.LiftFlags | omniledger/collection/manipulators.go:258-280 | a collapse, which backs up the node instead, closes them |
| StoreEnd.RollbackFlags | omniledger/collection/transaction.go:19-40 | so those that a rollback does leave are closed |
| StoreTies.BeginTied | omniledger/collection/transaction.go:9-15 | at Begin every leaf sits in the node that a rollback would bring back |
| StoreTies.AddAccounts | omniledger/collection/manipulators.go:64-98 | an Add that succeeds changes the account of shared slices as `Undo.Retie` says: the leaf that makes room has been backed up, and nothing else |
| StoreTies.RemoveAccounts | omniledger/collection/manipulators.go:258-288 | the same for Remove: a leaf that is lifted shares its slice from then on unless it has one of its own |
| StoreTies.SetAccounts | omniledger/collection/manipulators.go:152-171 | the same for Set, which changes what a rollback brings back exactly at the leaf of a key that shares its slice |
| Runs.Abandon | omniledger/collection/transaction.go:9-40 | Begin, any calls, Rollback: the tree that is left, exactly; it is that of Begin if no call harms; no backup remains; the root is flagged iff it was or some call succeeded, and all flags are closed toward it |
| Creation.New | omniledger/collection/collection.go:25-48 | the tree of a new collection |
| Creation.NewVerifier | omniledger/collection/collection.go:51-67 | a verifier knows the label of an empty collection and nothing else |
| Creation.Clone | omniledger/collection/collection.go:70-108 | the clone has the same tree, without flags, and shares no node or slice; the original is untouched |
| Getters.Record | omniledger/collection/getters.go:28-56 | the loop is the lookup of the value model |
| Getters.Prove | omniledger/collection/getters.go:61-104 | the loop builds the proof of the value model |
| Getters.NavigateTo | omniledger/collection/navigators.go:28-54 | the loop, which rewrites the query in place, is the descent of the value model |
| Getters.Steer | omniledger/collection/field.go:126-154 | one turn: the query is rewritten exactly when the turn is to the right |
| Grafting.VerifyProof | omniledger/collection/verifiers.go:9-42 | the loop grafts as the value model does and accepts iff root label and consistency check; known nodes stay, and the tree stays a view of the full one |
| Updates.Prepare | omniledger/collection/update.go:119-138 | all proofs are verified until one is rejected; what is prepared bears the transaction number and the declared paths |
| Updates.RunProgram | omniledger/collection/update.go:51-115 | requests go through a proxy that answers for declared keys and panics for others |
| Updates.MakeChange | omniledger/collection/update.go:158-171 | the check, then the changes: in the open transaction if there is one, else in one of their own, whose end collects and moves the transaction number on; the status is what check and changes come to on the map |
| Updates.ApplyPreparedUpdate | omniledger/collection/update.go:153-171 | an update prepared under another transaction number is a panic that changes nothing; otherwise check and changes, with the status they come to on the map |
| Updates.ApplyUserUpdate | omniledger/collection/update.go:119-180 | the whole update on linked nodes is the update of the value model: rejected iff a proof is bad, otherwise with the status and the replies that check and changes come to on the map, and the tree is a view of the collection of the resulting map |
| Followers.UpdateBoth | omniledger/collection/update.go:119-180 | a full collection and a verifier as objects: the one sends proofs, both apply the update; the statuses are the same, no proof is rejected, and the root labels are equal |
| Followers.FollowAll | omniledger/collection/update.go:119-180 | the same for any number of updates, up to the first that panics |
| Ledger.Atomic | omniledger/service/service.go:560-603 | the accepted transactions are an in-order subsequence, and running those alone accepts them all and ends in the same tree |
| Ledger.AcceptedIff | omniledger/service/service.go:565-601 | a transaction is accepted iff no instruction fails on the collection it meets |
| LedgerMeaning.EnterMeaning | omniledger/service/struct.go:74-85 | one change, on the map: creating asks for a new key that is not empty, updating and removing for a stored one; the object is then its value and its contract, in this order, or gone |
| LedgerMeaning.KindMeaning | omniledger/service/transaction.go:147-171 | the contract of an instruction is the one it names, or the second value of its object |
| LedgerMeaning.FoldMeaning | omniledger/service/service.go:560-603 | the whole step on the map: the same transactions are accepted, the same changes returned, and the pairs stored are those that the changes of the accepted transactions make of the pairs before |
| Ledger.StatesExact | omniledger/service/service.go:597-602 | the returned changes are those of the accepted transactions iff every rejected one fails before an instruction that asks for a change |
| Ledger.StatesReplay | omniledger/service/service.go:597-602 | and then they replay to the returned collection |
| Ledger.RejectedLeavesChanges | omniledger/service/service.go:597-602 | a batch whose returned changes do not |
| Service.StoreInColl | omniledger/service/struct.go:74-85 | one change is one call; it succeeds, and stores, as the change does on the map; an unknown action is an error |
| Service.CreateStateChanges | omniledger/service/service.go:560-603 | the loops over clones compute the fold, and so the step on the map, and leave the input collection untouched |
| Service.TryHash | omniledger/service/struct.go:148-166 | whether all additions succeed or one fails part-way, the collection has its tree back; it succeeds iff the keys are non-empty, new and distinct |
| Sorting.XorTransactions | omniledger/service/transaction.go:415-424 | the buffer is the salt |
| Sorting.SaltBits | omniledger/service/transaction.go:415-424 | a bit of the salt is set iff it is set in an odd number of the hashes |
| Sorting.SaltPermutation | omniledger/service/transaction.go:415-424 | which does not depend on the order of the batch |
| Sorting.SortWithSalt | omniledger/service/transaction.go:364-376 | in place: a permutation in which no transaction stands after one whose hash, salt first, precedes its own |
| Sorting.LessIs | omniledger/service/transaction.go:369-373 | a proper prefix precedes, otherwise the smaller byte at the first difference |
| Sorting.OrderUnique | omniledger/service/transaction.go:364-376 | with different salted hashes there is one such arrangement |
| Sorting.SortTransactions | omniledger/service/transaction.go:378-412 | it succeeds iff every transaction can be encoded and decoded again; then the slice holds the decoded encodings, ordered by salted hash; otherwise it is left as it was |
| Sorting.SortsSame | omniledger/service/transaction.go:378-412 | if what has been encoded decodes to itself, these are the transactions of before |
| Sorting.OrderIndependent | omniledger/service/transaction.go:378-412 | two permutations of a batch are sorted into the same slice |
| Expression.SumNode | omniledger/darc/expression/expression.go:128-146 | the loop folds from the left |
| Expression.ValueOfPrint | omniledger/darc/expression/expression.go:48-75 | a tree printed with all its parentheses is read back with its Boolean meaning, whatever follows |
| Expression.EvaluateChain | omniledger/darc/expression/expression.go:48-95 | a chain without parentheses is a fold from the left with both operators at equal precedence |
| Expression.EvaluatePrint | omniledger/darc/expression/expression.go:82-95 | evaluating a printed tree gives its meaning |
| Expression.IdScanned | omniledger/darc/expression/expression.go:120-125 | the scanner takes a string for an identity iff it is one or more of a-z and 0-9, a colon, and one or more of a-f and 0-9 |
| Expression.KeyIdentity | omniledger/darc/expression/expression.go:13 | ed25519:deadbeef is an identity, and evaluates to what the check says of it |
| Expression.EvaluateSpaced | omniledger/darc/expression/expression.go:82-95 | the same with any blanks, or none, before every token; anything but blanks after the expression is an error |
| Expression.NamesOfTree | omniledger/darc/expression/expression.go:148-157 | the identities asked about are all those of the tree |
| Expression.InitExprText | omniledger/darc/expression/expression.go:108-118 | the identities are joined by the sign between single spaces |
| Expression.InitExprMeaning | omniledger/darc/expression/expression.go:110-118 | over valid ids, joining with & means all, joining with the bar means some; an empty list is an error |
| Expression.DocumentationHolds | omniledger/darc/expression/expression.go:6-9 | the documented precedence gives the same value on all inputs iff no & comes before a bar |
| Expression.DocumentationFails | omniledger/darc/expression/expression.go:6-9 | an expression on which they differ |
| Expression.JudgeIs | omniledger/darc/expression/expression.go:148-157 | asking while parsing crashes iff asking about one of the names does, whatever the value of the rest; otherwise it evaluates |
| Darcs.VerifyDarc | omniledger/darc/darc.go:337-367 | the loop over the path is the check of the chain |
| Darcs.PathFound | omniledger/darc/darc.go:371-399 | a darc without its path is given the part older than itself of the path of the latest darc with its base, iff the path digest fits |
| Darcs.AcceptedChain | omniledger/darc/darc.go:337-367 | a darc of version above 0 is accepted iff signed, with a path from a genesis darc along which every darc evolves; it crashes iff the path begins with another darc that has a base ID, or an evaluation crashes before anything is rejected |
| Darcs.AcceptedExactly | omniledger/darc/darc.go:337-367 | it is accepted iff signed, with a path from a genesis darc such that each darc after it has its number as version, the ID of the genesis darc as base, signers that satisfy the `_evolve` expression before, and signatures on base, action, ID and signers |
| Darcs.AcceptedFacts | omniledger/darc/darc.go:504-550 | then versions count up from 0, the darc's version is the length of the path, all base IDs are that of the first, and the signers of each step satisfy the `_evolve` expression before |
| Darcs.ChainFacts | omniledger/darc/darc.go:504-550 | and every signature checks |
| Darcs.SolutionExists | omniledger/darc/darc.go:566-604 | on an acyclic graph the recursive equation of delegated evaluation has a solution |
| Darcs.SolutionUnique | omniledger/darc/darc.go:566-604 | and only one |
| Darcs.EvalExprMeaning | omniledger/darc/darc.go:566-604 | evalExpr accepts, rejects or crashes as that solution says |
| Darcs.SignDelegates | omniledger/darc/darc.go:566-604 | on behalf of a darc that verifies, those may sign who satisfy its `_sign` expression, whatever its `_evolve` expression says |
| Darcs.SignRefused | omniledger/darc/darc.go:566-604 | nobody may for a darc that is not known, does not verify, or has no such expression |
| Darcs.DarcNames | omniledger/darc/darc.go:566-569 | the identity of a darc is one that begins with these four letters |
| Darcs.SignOrEvolve | omniledger/darc/darc.go:566-604 | a darc for which one identity signs and another evolves |
| Darcs.EvalExprMonotone | omniledger/darc/darc.go:566-604 | more signers never turn acceptance into rejection or a crash |
| Darcs.EvalExprCrashes | omniledger/darc/darc.go:566-604 | it crashes iff it comes to verifying a broken darc, along known darcs that verify |
| Darcs.CrashBesideListed | omniledger/darc/darc.go:566-604 | a:a or darc:00 crashes with a:a listed, if the darc is broken |
| Darcs.DigestsCoincide | omniledger/darc/darc.go:832-867 | signers sign the digest that verification recomputes |
| Darcs.EvolveRoundTrip | omniledger/darc/darc.go:256-317 | EvolveFrom, MakeEvolveRequest and MsgToDarc give a request that names base, action, darc and signers, and a darc with the rules and the description of the draft, the given path and signers, whose verification comes to the `_evolve` expression of the latest darc for the signers |
| Darcs.EvolveTwice | omniledger/darc/darc.go:256-317 | and the next evolution has to satisfy the `_evolve` expression of the draft |
| Darcs.Untampered | omniledger/darc/darc.go:882-914 | a darc is read back only if version, description, rules, base and path are those that were signed for |

## Left out

- Collections.Collection.Rollback: does not promise the invariant when the tree brought back has a stale label, which is when a Set has harmed it (see Findings).
- Collections.Collection.Add: takes from its caller that no stored key has the path of the new one; two such keys make the program index past the end of the path.
- Collections.Collection.Collect: garbage collection called by a user in the middle of a transaction is not modelled.
- Getters.Prove: not in the middle of a transaction, where a node that waits to be relabelled may still show the slice of a leaf it was; the model does not follow that slice.
- Getters.NavigateTo: not in the middle of a transaction, for the same reason.
- Grafting.VerifyProof: not in the middle of a transaction, and only for collections whose root label is that of some full collection; what a proof under a label of nothing grafts is not described.
- Updates.Prepare: not in the middle of a transaction, since it verifies proofs; an update prepared before Begin is applied inside the transaction, too (`Updates.ApplyPreparedUpdate`).
- Updates.ApplyUserUpdate: an update is a bounded program of requests.
- Runs.Abandon: keys are not empty; Set and Remove of the empty key are covered by the contracts of single calls only.
- Sorting.SortWithSalt: sort.Slice is modelled by insertion; any sort meets the contract.
- Darcs.VerifyDarc: darcs are values, so that the path found by findPath is not written back, and nil darcs in a path do not occur.
- Panics (wrong number or type of values, Begin and End out of turn, Verify on a flagged root) are preconditions.
- SHA-256 and protobuf: hashes are the terms that are hashed; that the bytes fed to SHA-256 determine the term is not proved, and for GetID it is an idealisation.
- Proofs are values, as after Serialize and Deserialize; the live slice that dumpNode shares is not modelled.
- The transaction id is unbounded; it has 64 bits in the program.
- GetRoot and TreeRootHash return the root's key, which is always empty; the root label is used instead.
- Contracts look up keys and then decide, with a bound on the lookups; they do not write to the collection.
- Signatures are arbitrary functions of signer, digest and bytes; the goparsec library is modelled by the grammar that is built with it.
- Bolt persistence, network, service wiring, genesis handling, queue and timers, record accessors, String methods, clients and the Java library.
