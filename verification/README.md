# Transactions on a versioned store, and the data structures around it

This project models the client-side transactions that the Python bindings of RAMCloud build on a plain
versioned key-value store, the ID allocator and the bank program that go with them, and seven pieces of
the graph-generator library that ships with the traces. Every statement is for all inputs, all runs or
all reachable states.

**The protocol** (`RamCloud`, `Protocol`, `Invariant`, `Preservation`, `Steps`, `Refinement`, `Theorems`,
`Outcomes`, `Requests`, `Anomalies`, `Runs`, `Counterexamples`, `Recovery`, `SoloCommit`). A coordinator masks the objects of a
transaction one after the other in sorted order, creates an intent object under the transaction's ID (the
commit point), writes the results back and deletes the intent. Any other client that meets a mask may help a committed
transaction or put a tombstone in the way of an uncommitted one and roll it back. The model is a
transition system: each client is a program counter with locals, one step is one raw operation guarded by
reject rules, any client may take the next step, and a client may stop for good between any two steps.
An object is the log of all versions it ever had and a flag, so version numbers survive deletes and
`exactly(v)` rejects only newer versions, as in the code. What users see is the *logical store*: an object
masked by a committed transaction has the value that transaction gives it. The main result,
`RunRefines`, says that every run is, step by step, a run of the sequential specification in which a
transaction happens in one step, single writes and deletes happen only where their reject rules allow it,
and all masking, unmasking, helping and clean-up is invisible. `ReturnsAtItsEvent` adds that an operation
returns in the step of its event and that what its caller is told, success or refusal, is true of the
store in that step; a transaction has its event once, between the call and its return
(`CommittedExactlyOnce`), or never (`NeverCommits`). `ReturnsWhatWasAsked` says the same in terms of the call:
its own object, data and reject rules are the ones answered. Whatever a coordinator returns with, it leaves no
mask behind (`NoMaskLeftBehind`). A client that is left alone ends within a bound, whatever others left
behind: `SoloRecovery` for single operations, `SoloCommits` for transactions. To the specification there are two exceptions, both
events of their own (`Revived` and `Misled`), and both are findings:

- `_unmask_object` writes an object back under a rule that rejects newer versions but not a missing
  object. If the mask was taken off by someone else and the object then deleted, the stale write brings
  the deleted object back. `DeletedObjectComesBack` is a run of two clients that ends so;
  `UnmaskRevivesExactlyWhenGone` says exactly when an unmasking step is visible, and
  `NothingRevivedWithoutDeletes` that runs without deletes are free of it.
- An operation can be refused, with an error other than the one for a missing object, where there is no
  object but a mask: a `create` because the object exists (`CreateRefusedForNothing`), and a write, a
  transaction or a read under a version rule because of a version that only the mask took
  (`WriteRefusedForNothing`, `RejectedForNothing`, `ReadRefusedForNothing`). `MisledExactlyWhenHidden` says
  exactly when, over all steps of all operations: under the mask there is nothing and its transaction is
  not committed, or it is committed and removes the object or only checks one that does not exist
  (`HiddenIsAbsent`); an operation that goes to the server directly is then always misled, one that reads
  first if and only if the number the mask took violates its version rules. `AbsentRefusedDirectly` and
  `AbsentRefusedAtRead` are the same for an operation that does not ask for an object: where there is none,
  it is refused if and only if that is the case. Under the mask of a committed write a refusal is right.

A refusal for the version of an object that does exist is about its number in the store, which masks use
up too: `RefusedThoughUnchanged` is a run in which the object is still what the caller saw, and
`NewerForMaskOnly` says exactly when a newer version is a mask alone.

Two more places where the code does less than its documentation says:

- `mt_commit` returns the masked version plus one also for an operation that only checks its rules, on an
  object that does not exist. That version names nothing, and can later name the mask of another
  transaction: `ReportedVersionNamesMask`. `ReportedVersionsAreTrue` covers all other reported versions,
  and `ReportedVersionExactly` says that a reported version is there after the write-back if and only if
  the operation left an object.
- A transaction can be committed and complete while its caller gets an inconsistency error, because a
  late tombstone took the place of its deleted intent: `CommittedButReportedBroken`, and
  `DeleteRefusedByLateTombstone` for exactly when.

**Around the protocol.** `Header` is the byte layout of object headers; `pack` and `unpack` are documented
as inverses, which holds in one direction always and in the other exactly for the blobs that
`UnpackPack` describes; `NotPackedBack` has two others. `OidRes` is the allocator, with its 64-bit counter:
batches are disjoint if and only if the counter has not wrapped around (`ZeroTwice` is a run in which it
has), which is also what makes a transaction's ID new when `Protocol` lets it begin. `Bank` (with
`Decimal`) is the program that moves money between accounts: in every reachable state, with any number of processes and crashes, the logical sum of
all accounts is zero and every cached balance is the true content of the account at the cached version.

**The library.** `BlobStore` (with `Bytes` and `BlockLengths`) is a store of blobs in one file, down to
the bytes: blocks tile the file, free lists run inside the free blocks. `Likelihood` keeps a sum over the
edges of a graph, and its derivatives, up to date while a random walk swaps nodes. `KroneckerPower` has
the entries of a Kronecker power digit by digit and as an explicit matrix. `Expression` is a
recursive-descent parser and its printer on tokens; `Grammar` says, in symbols, what it means that tokens are a
way to write an expression, and whatever the parser returns for any input is written in the tokens it has
read. Each parsing method also takes ghost parameters that say which expression is printed at the current
position, so the same proof covers the round trip. `EmptyGraph` shows that the formula `Likelihood` starts
from is a sum over all pairs of nodes. `Permutation` is the next arrangement in lexicographic order, `FrugalInt` a variable-length integer
code, `PairHash` two versions of one hash function. A failed assertion of the original is a result
(`ok == false`, `Thrown`, `NotActive`), not a precondition. In `PairHash` the two versions agree exactly
when the pairing number is below 2^63 - 1, so always for codes that are not negative; `HashWithoutDivision`
gives the condition and `NegativeCodesDiffer` a pair of codes with two different hashes.

In many places a definition is hidden behind a quantifier over a type with one value (`Hiding`), with a
lemma that gives it back (`PrintIs`, `U32Is`, `ImageIs`): a proof then sees the definition only where it
calls the lemma.

## Which step is which code

| program point or function of `Protocol` and `OidRes` | source |
|---|---|
| `DoReadObject`, `Missing` | `_read_rr` and its callers, bindings/ramcloud/python/txramcloud.py:315-442, 565-599 |
| `DoAct` | the guarded write or delete after a clean read, bindings/ramcloud/python/txramcloud.py:380-391, 422-429, 442-452, 592-606 |
| `DoDirect` | bindings/ramcloud/python/txramcloud.py:393-398, 454-463 |
| `DoReadTx`, `DoPutTombstone` | `_clean`, `_write_tombstone`, bindings/ramcloud/python/txramcloud.py:253-313 |
| `DoUnmaskRead`, `DoUnmaskWrite` | `_unmask_object`, bindings/ramcloud/python/txramcloud.py:467-526 |
| `DoApplyRead`, `DoApplyWrite` | `_apply_op`, `_apply_mt`, bindings/ramcloud/python/txramcloud.py:711-779 |
| `DoDeleteIntent`, `DoDeleteTombstone` | `_delete_mt`, `_delete_tombstone`, bindings/ramcloud/python/txramcloud.py:680-709 |
| `DoPutIntent`, `AfterHelp`, `NewVersions`, `Raise` | `_write_mt`, `_mask_objects`, `mt_commit`, bindings/ramcloud/python/txramcloud.py:641-678, 800-861 |
| `RamCloud.Check`, `Read`, `Write`, `Delete` | reject rules, bindings/ramcloud/python/ramcloud.py:24-46, 218-233, 256-322 |
| `OidRes.Call`, `Step`, `Reserve`, `Pack` | `OIDRes.next` and `pack`, bindings/ramcloud/python/oidres.py:37-45, 162-196 |

## Model

| member | source | states |
|---|---|---|
| RamCloud.ExactlyIsExact | bindings/ramcloud/python/ramcloud.py:43-46 | a write guarded by `exactly(v)`, which excludes only newer versions, hits precisely the content that was seen at version v, and one guarded by `version_gt_given` that content or no object |
| RamCloud.ChecksAllRules | bindings/ramcloud/python/ramcloud.py:24-30 | an operation goes through if and only if none of its reject rules is broken, and otherwise names one that is |
| Refinement.RunRefines | bindings/ramcloud/python/txramcloud.py:15-85 | atomic refinement: in every run each step is one event of a store without masks, where a transaction applies all its operations at once and at the moment its intent is created, and a transaction, write or delete takes effect only where its rules about existence are met |
| Refinement.CommitShows | bindings/ramcloud/python/txramcloud.py:672-678 | creating the intent finds every object of the transaction still masked over exactly a version, or over no object, that its reject rules accepted, and changes the logical value of all of them, and of no other object, in one step |
| Refinement.CommitDoes | bindings/ramcloud/python/txramcloud.py:735-745 | in every run, the event of a transaction leaves an object that is only checked as it was, gives a written one its new data, removes a deleted one, and changes no other |
| Refinement.StillMasked | bindings/ramcloud/python/txramcloud.py:565-606 | until a tombstone is in its way, every mask a coordinator has put is still on, at the version it was put and over exactly the clean data its reject rules accepted |
| Refinement.MaskShows | bindings/ramcloud/python/txramcloud.py:592-606 | masking an object, or creating a seed for a missing one, leaves the logical store as it is |
| Refinement.UnmaskShows | bindings/ramcloud/python/txramcloud.py:482-510 | unmasking shows as nothing or as the revival of an object that has gone meanwhile |
| Refinement.ApplyShows | bindings/ramcloud/python/txramcloud.py:724-767 | writing an operation of a committed transaction back leaves the logical store as it is, whether or not someone else was faster |
| Refinement.ReturnsAtItsEvent | bindings/ramcloud/python/txramcloud.py:315-463 | reads, writes and deletes are linearizable: the step in which one returns is the step of its event; a read returns the object there is, a write or delete has just taken effect on an unmasked object, or none, that meets all its reject rules, version rules included; a refusal names a rule that what is stored violates, and it is true of the logical object (there is none, or there is one) or else the step is the anomaly `Misled` |
| Requests.ReturnsWhatWasAsked | bindings/ramcloud/python/txramcloud.py:315-463 | in every run, a client that returns answers its last request: a read the object that was asked for, a write by putting the caller's data there, a delete by removing it, each only where none of the caller's rules is broken, or with an error that names a broken one; a commit with the outcome of its own transaction, whose intent or tombstone the step has just deleted |
| Requests.PatientUntilTimeout | bindings/ramcloud/python/txramcloud.py:292-303 | a client goes on to put a tombstone only from finding nothing at the txid of a mask whose time is up |
| Refinement.ActHits | bindings/ramcloud/python/txramcloud.py:380-391 | a write or delete after a clean read goes through only if its caller's rules are met in that very step, though it only passes on rules of its own |
| Refinement.DirectHits | bindings/ramcloud/python/txramcloud.py:393-398 | what is passed on directly hits only an object that was seen clean, or none |
| Refinement.UserStepsRespectMasks | bindings/ramcloud/python/txramcloud.py:178-186 | no write or delete of a user ever changes an object that is masked, direct or after a clean read |
| Steps.Reachable | bindings/ramcloud/python/txramcloud.py:174-186 | every state of every run satisfies the invariant of the store (masks are lost only to tombstones, intents outlive masks, each lost mask left what its transaction calls for) and of each client |
| Steps.StepKept | bindings/ramcloud/python/txramcloud.py:253-861 | every program point of every operation keeps the invariants and changes the store only in ways other clients cannot notice |
| Steps.InvKept | bindings/ramcloud/python/txramcloud.py:253-861 | a step of one client, a new request and a crash keep the invariants of all clients |
| Steps.CommitReturns | bindings/ramcloud/python/txramcloud.py:849-861 | when nothing is masked by the transaction any more, the version reported for each object is one above its mask and names what the operation wrote |
| Steps.MaskSucceeds | bindings/ramcloud/python/txramcloud.py:565-606 | a mask put under the code's rules keeps the invariant: it covers the exact version that was accepted |
| Steps.WriteBack | bindings/ramcloud/python/txramcloud.py:752-767 | a write-back keeps the invariant of the store and leaves one object less to do; what it leaves of each kind of operation is in `WriteBackLeaves` |
| Preservation.ReleaseChange | bindings/ramcloud/python/txramcloud.py:496-510 | taking the current mask off and leaving what the fate of its transaction calls for keeps the invariant |
| Preservation.TombstoneChange | bindings/ramcloud/python/txramcloud.py:266-271 | a tombstone where no object is does no harm, also when it comes after the intent was deleted |
| Preservation.CommitChange | bindings/ramcloud/python/txramcloud.py:672-678 | creating the intent of an open transaction keeps the invariant and decides its fate |
| Preservation.TxDeleteChange | bindings/ramcloud/python/txramcloud.py:692-709 | deleting the object at the ID of a transaction that is over keeps the invariant |
| Theorems.AllOrNothing | bindings/ramcloud/python/txramcloud.py:295-313 | in no run is one object of a transaction written back and another, or the same, rolled back |
| Theorems.OnlyTwoWaysOff | bindings/ramcloud/python/txramcloud.py:482-510 | a mask comes off only by write-back, of a committed transaction, or by rollback, of one that will never commit |
| Theorems.FateStays | bindings/ramcloud/python/txramcloud.py:698-709 | committed, dead and finished transactions stay so for the rest of the run, whoever deletes their intent or tombstone |
| Theorems.FinishedBeforeDelete | bindings/ramcloud/python/txramcloud.py:781-798 | whenever a client is about to delete an intent, no object is masked by that transaction then or at any later time |
| Theorems.RolledBackBeforeDelete | bindings/ramcloud/python/txramcloud.py:844-847 | the same when a coordinator is about to delete the tombstone that made it give up |
| Theorems.NoMaskLeftBehind | bindings/ramcloud/python/txramcloud.py:640-650 | whatever a coordinator returns with, errors included, no object is masked by its transaction then or later |
| Theorems.DeleteRefusedByLateTombstone | bindings/ramcloud/python/txramcloud.py:692-696 | deleting an intent is refused, and the client finds an inconsistency, exactly when a tombstone has taken its place |
| Theorems.OutcomesAreFinal | bindings/ramcloud/python/txramcloud.py:803-809 | a caller told rejected or expired can rely on the transaction never taking effect, one told committed on its having taken effect; in all three cases no mask of it is left, then or later |
| Theorems.ReportedVersionsAreTrue | bindings/ramcloud/python/txramcloud.py:811-816 | versions returned by reads, writes and commits name the data that was read or written, for good; for a commit, where the operation left an object |
| Outcomes.ReportedVersionExactly | bindings/ramcloud/python/txramcloud.py:852-861 | a version that a commit reports is the one after the mask that some client took off by writing the operation back, and that step leaves such a version if and only if the operation leaves an object |
| Outcomes.WriteBackLeaves | bindings/ramcloud/python/txramcloud.py:735-767 | a write-back leaves the version above the mask: with the data under the mask for a check, with its own data for a write; none for a delete or a check of nothing |
| Outcomes.RejectionHasReason | bindings/ramcloud/python/txramcloud.py:209-218 | the reason of a rejection is true, or a mask hides that there is no object: in the step in which the coordinator gave up, what is stored at the object it names did not meet the reject rules of its operation, in the way the error says; a missing object is really missing, an existing one exists, and an object with a wrong version exists unless that step is `Misled` |
| Outcomes.CommitsAtEvent | bindings/ramcloud/python/txramcloud.py:672-678 | the step that commits a transaction is the step with its event in the sequential specification, and no other step is either |
| Outcomes.CommitsAtMostOnce | bindings/ramcloud/python/txramcloud.py:698-709 | no run has the event of a transaction twice, whatever becomes of its intent |
| Outcomes.CommittedIffHappened | bindings/ramcloud/python/txramcloud.py:47-60 | a transaction counts as committed if and only if an earlier step of the run was its event |
| Outcomes.CommittedExactlyOnce | bindings/ramcloud/python/txramcloud.py:800-861 | a transaction that is reported committed took effect in exactly one step of the run, a step of its own coordinator after the call began and before it returned, with the operations it was called with |
| Outcomes.NeverCommits | bindings/ramcloud/python/txramcloud.py:806-809 | a transaction that is reported rejected or expired takes effect in no step of the run |
| Theorems.WaitsUpwards | bindings/ramcloud/python/txramcloud.py:826-829 | a coordinator waits only for one that is masking at a later key |
| Theorems.NoDeadlock | bindings/ramcloud/python/txramcloud.py:614-617 | in no reachable state do coordinators wait for each other in a circle |
| Theorems.NeverStuck | bindings/ramcloud/python/txramcloud.py:565-606 | every busy client can always take a step, and every transaction can be begun |
| Anomalies.UnmaskRevivesExactlyWhenGone | bindings/ramcloud/python/txramcloud.py:496-510 | an unmasking write changes the logical store if and only if the object is missing by then and the mask had data under it |
| Anomalies.NothingRevivedWithoutDeletes | bindings/ramcloud/python/txramcloud.py:467-510 | in a run without deletes no step revives an object |
| Anomalies.MisledExactlyWhenHidden | bindings/ramcloud/python/txramcloud.py:315-463 | in any step of any reachable state, an operation of any kind, a transaction's included, is refused because of what an object is that does not exist if and only if a mask hides that there is none and the operation is passed on directly, or reads first and its version rules reject the version that the mask took |
| Anomalies.AbsentRefusedDirectly | bindings/ramcloud/python/txramcloud.py:454-458 | where there is no object, a write or delete that is passed on directly and does not ask for one is refused if and only if a mask hides that there is none |
| Anomalies.AbsentRefusedAtRead | bindings/ramcloud/python/txramcloud.py:565-593 | where there is no object, a write, delete or operation of a transaction that reads first and does not ask for one gives up if and only if a mask hides that there is none and its version violates the version rules |
| Anomalies.HiddenIsAbsent | bindings/ramcloud/python/txramcloud.py:454-458 | something is stored at a key and the object does not exist exactly when that is the mask of an uncommitted transaction with nothing under it, or of a committed one that removes the object or only checks a missing one |
| Anomalies.NewerForMaskOnly | bindings/ramcloud/python/txramcloud.py:78-82 | an object that a caller has seen has a newer version and no newer data exactly when a mask was put right over the version seen, and is then what the caller saw unless the mask's transaction commits |
| Counterexamples.DeletedObjectComesBack | bindings/ramcloud/python/txramcloud.py:505-510 | a run of two clients without failures after which an object that was deleted, and reported so, has its old data again |
| Counterexamples.CreateRefusedForNothing | bindings/ramcloud/python/txramcloud.py:454-458 | a run in which a create is refused because the object exists, while before, in and after that step it does not |
| Counterexamples.WriteRefusedForNothing | bindings/ramcloud/python/txramcloud.py:454-458 | a run in which a write of an object seen at version 1, if it is that or missing, is refused for its version; the object was deleted, and a seed of an uncommitted transaction has version 2 |
| Counterexamples.RejectedForNothing | bindings/ramcloud/python/txramcloud.py:565-581 | a run in which a transaction with the same operation is rejected although its rules are met |
| Counterexamples.ReadRefusedForNothing | bindings/ramcloud/python/txramcloud.py:315-335 | a run in which a read is told of a wrong version where there is no object |
| Counterexamples.RefusedThoughUnchanged | bindings/ramcloud/python/txramcloud.py:78-82 | a run in which a conditional write is refused while the object is what the caller saw, under the mask of an uncommitted transaction |
| Counterexamples.ReportedVersionNamesMask | bindings/ramcloud/python/txramcloud.py:852-861 | a run in which a version reported by `mt_commit` names the mask of another transaction, and a write that relies on it makes that transaction commit without effect |
| Counterexamples.CommittedButReportedBroken | bindings/ramcloud/python/txramcloud.py:692-696 | a run in which a transaction commits and takes effect and its caller gets the inconsistency error |
| Recovery.SoloRecovery | bindings/ramcloud/python/txramcloud.py:322-452 | from any reachable state a read, write, update or delete whose client runs alone with the masks expired ends within an explicit number of raw operations, with what it asked for now in the store or with an error its rules ask for |
| Recovery.StepProgress | bindings/ramcloud/python/txramcloud.py:292-313 | every raw operation of such a client lowers that number |
| SoloCommit.SoloCommits | bindings/ramcloud/python/txramcloud.py:800-861 | a transaction begun in any reachable state whose coordinator runs alone with the masks expired ends within an explicit number of raw operations, committed or rejected, never expired and never with an inconsistency |
| Header.PackUnpack | bindings/ramcloud/python/txramcloud.py:143-169 | unpacking what was packed gives transaction, timeout and data back |
| Header.PackLayout | bindings/ramcloud/python/txramcloud.py:108-169 | the fields byte by byte: name, version, seed flag, the txid with its least significant byte first, timeout, data |
| Header.UnpackPack | bindings/ramcloud/python/txramcloud.py:113-141 | packing what was unpacked gives the blob back if and only if the seed flag is 0, or 1 with nothing behind the header |
| Header.NameField | bindings/ramcloud/python/txramcloud.py:128-131 | of all 14-byte fields only the padded name passes the header check |
| Header.NotPackedBack | bindings/ramcloud/python/txramcloud.py:113-141 | a blob with another seed flag and one with bytes behind the header of a seed are unpacked but not packed back |
| OidRes.BatchesDisjoint | bindings/ramcloud/python/oidres.py:103-117 | the batches reserved by all clients are pairwise disjoint if and only if the 64-bit counter had not wrapped around |
| OidRes.ZeroTwice | bindings/ramcloud/python/oidres.py:177-196 | a run in which the counter wraps around and two clients get the ID zero |
| OidRes.TwoOperations | bindings/ramcloud/python/oidres.py:162-196 | a client that nobody disturbs gets the counter's value with two raw operations, keeps the numbers behind it and leaves the counter after them |
| OidRes.NoIdTwice | bindings/ramcloud/python/oidres.py:177-196 | in every run no ID is returned twice, to the same or to different clients, and the IDs of each client increase |
| OidRes.ZeroAtMostOnce | bindings/ramcloud/python/txramcloud.py:820-823 | the loop that skips ID zero needs at most two draws |
| OidRes.DrawIsFresh | bindings/ramcloud/python/oidres.py:103-105 | an ID drawn now differs from everything earlier draws were used for |
| OidRes.Reachable | bindings/ramcloud/python/oidres.py:177-196 | each version of the counter is where the batches so far end, and what a client keeps is the undrawn rest of its last batch, after any steps and crashes |
| OidRes.PackIsRemainder | bindings/ramcloud/python/oidres.py:37-45 | the counter is stored modulo 2^64 |
| Bank.BankConserves | bindings/ramcloud/python/stresstest_bank.py:229-236 | in every reachable state the logical sum over all accounts is zero and every cached value is the content of its account at the cached version |
| Bank.BuildTransfer | bindings/ramcloud/python/stresstest_bank.py:141-153 | the minitransaction writes, for each chosen account, its cached balance changed by the transfer, guarded by the cached version |
| Bank.PaysOneEach | bindings/ramcloud/python/stresstest_bank.py:144-153 | the first chosen account pays one to each of the others, each write guarded by the rule for exactly the cached version |
| Bank.ChangesCancel | bindings/ramcloud/python/stresstest_bank.py:145-151 | what the first account pays is what the others get |
| Bank.CommitKeepsTotal | bindings/ramcloud/python/stresstest_bank.py:153-155 | the commit point of a transfer keeps the sum and leaves every account a number |
| Bank.RememberCommitted | bindings/ramcloud/python/stresstest_bank.py:164-166 | the versions `mt_commit` returns are true for the new balances, whoever wrote them back |
| Bank.BankInvKept | bindings/ramcloud/python/stresstest_bank.py:87-126 | every step of every process, read, transfer or crash, keeps the invariant of the bank |
| Decimal.RoundTrip | bindings/ramcloud/python/stresstest_bank.py:153 | a balance written as text is read back as the same number |
| Decimal.IsDecimal | bindings/ramcloud/python/stresstest_bank.py:153 | the text has the decimal digits of the number, without leading zeros, and a minus sign for a negative one |
| BlobStore.GBlobBs.constructor | traces/ICSBigDataBench/BigDataGeneratorSuite/Graph_datagen/glib-core/blobbs.cpp:220-260 | a new file has no blobs and all free lists empty |
| BlobStore.GBlobBs.PutBlob | traces/ICSBigDataBench/BigDataGeneratorSuite/Graph_datagen/glib-core/blobbs.cpp:275-314 | a new blob gets an address no blob has and every blob keeps its bytes; it goes into the first free block of its class or, when there is none, to the end of the file; no address or an exception comes exactly in the two stated cases |
| BlobStore.GBlobBs.Replace | traces/ICSBigDataBench/BigDataGeneratorSuite/Graph_datagen/glib-core/blobbs.cpp:316-337 | replacing keeps the address when the data fits the block and all other blobs in any case; when it does not fit and no place is left, the blob is gone |
| BlobStore.GBlobBs.GetBlob | traces/ICSBigDataBench/BigDataGeneratorSuite/Graph_datagen/glib-core/blobbs.cpp:339-351 | a live pointer reads back exactly its last bytes, the pointer of a deleted blob is refused |
| BlobStore.GBlobBs.DelBlob | traces/ICSBigDataBench/BigDataGeneratorSuite/Graph_datagen/glib-core/blobbs.cpp:353-371 | a deleted blob is gone, all others stay, and its block is the first of the free list of its capacity |
| BlobStore.GBlobBs.FNextBlobPt | traces/ICSBigDataBench/BigDataGeneratorSuite/Graph_datagen/glib-core/blobbs.cpp:377-408 | a traversal step ends, and gives the next active block in file order with its bytes and the place to go on from |
| BlobStore.GBlobBs.GetAllocInfo | traces/ICSBigDataBench/BigDataGeneratorSuite/Graph_datagen/glib-core/blobbs.cpp:168-175 | the class found is the first whose capacity is enough |
| BlobStore.GBlobBs.FillBlock | traces/ICSBigDataBench/BigDataGeneratorSuite/Graph_datagen/glib-core/blobbs.cpp:298-310 | the bytes written over a free block make it an active block, and the link that was in it is returned |
| BlobStore.GBlobBs.FreeBlock | traces/ICSBigDataBench/BigDataGeneratorSuite/Graph_datagen/glib-core/blobbs.cpp:361-369 | the bytes written over an active block make it a free block with the link in it |
| BlobStore.GBlobBs.WriteBlock | traces/ICSBigDataBench/BigDataGeneratorSuite/Graph_datagen/glib-core/blobbs.cpp:286-294 | the bytes appended are those of an active block |
| BlobStore.FreeListIsExact | traces/ICSBigDataBench/BigDataGeneratorSuite/Graph_datagen/glib-core/blobbs.cpp:275-371 | the free list of a class begins at its head, has no cycle and holds exactly the free blocks of that capacity |
| BlobStore.TraversalIsExact | traces/ICSBigDataBench/BigDataGeneratorSuite/Graph_datagen/glib-core/blobbs.cpp:373-408 | the active blocks in file order are the blobs, each once, and nothing else |
| BlobStore.GBlobBs.Traverse | traces/ICSBigDataBench/BigDataGeneratorSuite/Graph_datagen/glib-core/blobbs.cpp:373-408 | calling for the next blob until there is none yields all blobs, each once, with their bytes, in the order of addresses |
| BlobStore.GoodBlock | traces/ICSBigDataBench/BigDataGeneratorSuite/Graph_datagen/glib-core/blobbs.cpp:286-294 | each block of the file has its tags, capacity, state and data at its address, and is a blob exactly when it is active |
| BlobStore.BlockBytes | traces/ICSBigDataBench/BigDataGeneratorSuite/Graph_datagen/glib-core/blobbs.h:87-128 | the bytes of a block: begin tag, capacity, state and end tag, numbers with their least significant byte first |
| BlobStore.ChecksumIsSum | traces/ICSBigDataBench/BigDataGeneratorSuite/Graph_datagen/glib-core/fl.cpp:12-16 | the checksum is the sum of the bytes as signed numbers modulo 2^28 |
| BlobStore.ChecksumTells | traces/ICSBigDataBench/BigDataGeneratorSuite/Graph_datagen/glib-core/fl.cpp:12-16 | one changed byte changes the checksum |
| BlobStore.ImageRewrite | traces/ICSBigDataBench/BigDataGeneratorSuite/Graph_datagen/glib-core/blobbs.cpp:298-310 | writing over one block changes the file to that of the changed list of blocks |
| BlobStore.Append | traces/ICSBigDataBench/BigDataGeneratorSuite/Graph_datagen/glib-core/blobbs.cpp:281-295 | a block at the end keeps tiling, free lists and all blobs |
| BlobStore.ReuseBlock | traces/ICSBigDataBench/BigDataGeneratorSuite/Graph_datagen/glib-core/blobbs.cpp:297-310 | taking the first free block keeps tiling, free lists and all other blobs |
| BlobStore.ReleaseBlock | traces/ICSBigDataBench/BigDataGeneratorSuite/Graph_datagen/glib-core/blobbs.cpp:359-369 | freeing a block keeps tiling, free lists and all other blobs |
| Bytes.U32RoundTrip | traces/ICSBigDataBench/BigDataGeneratorSuite/Graph_datagen/glib-core/blobbs.cpp:177-191 | the four bytes of a number are read back as that number |
| Bytes.U32Spells | traces/ICSBigDataBench/BigDataGeneratorSuite/Graph_datagen/glib-core/blobbs.cpp:177-191 | the four bytes spell the number with the least significant one first |
| BlockLengths.GenBlockLenV | traces/ICSBigDataBench/BigDataGeneratorSuite/Graph_datagen/glib-core/blobbs.cpp:114-128 | the capacities are, sorted, exactly the powers of two and the steps of the ranges; there is one for every size up to 2^30 and for no other, and more than half of the block a blob gets is used |
| BlockLengths.StandardSteps | traces/ICSBigDataBench/BigDataGeneratorSuite/Graph_datagen/glib-core/blobbs.cpp:120-125 | the six ranges and their steps in numbers |
| BlockLengths.StandardFits | traces/ICSBigDataBench/BigDataGeneratorSuite/Graph_datagen/glib-core/blobbs.cpp:116-125 | the constants in the code meet what that needs |
| Likelihood.KroneckerLL.SetIPerm | traces/ICSBigDataBench/BigDataGeneratorSuite/Graph_datagen/kronecker.cpp:875-880 | the inverse permutation |
| Likelihood.KroneckerLL.CalcSum | traces/ICSBigDataBench/BigDataGeneratorSuite/Graph_datagen/kronecker.cpp:1037-1049 | the sum from scratch, edge by edge: for a graph without edges the value for an empty graph, and in general as far from the sum over all pairs, edge or no edge, as that value is from the sum over all pairs without edges |
| Likelihood.KroneckerLL.CalcFullSum | traces/ICSBigDataBench/BigDataGeneratorSuite/Graph_datagen/kronecker.cpp:1175-1191 | the slow sum adds for every pair of nodes what an edge or no edge is worth at their places |
| Likelihood.OneMoreEdge | traces/ICSBigDataBench/BigDataGeneratorSuite/Graph_datagen/kronecker.cpp:1044-1045 | one more edge adds what an edge at its places is worth and takes away what no edge is worth |
| Likelihood.EdgesGiveAllPairs | traces/ICSBigDataBench/BigDataGeneratorSuite/Graph_datagen/kronecker.cpp:1037-1049 | the fast sum and the slow one differ exactly by the difference of the values for an empty graph |
| Likelihood.AnyPermutation | traces/ICSBigDataBench/BigDataGeneratorSuite/Graph_datagen/kronecker.cpp:1136-1145 | the sum over all pairs without edges does not depend on the permutation |
| EmptyGraph.FormulaIsSum | traces/ICSBigDataBench/BigDataGeneratorSuite/Graph_datagen/kronecker.cpp:986-994 | the formula in the sums of the seed's entries and of their squares is the sum of the approximation over all places of the power |
| EmptyGraph.GetApxEmptyGraphLL | traces/ICSBigDataBench/BigDataGeneratorSuite/Graph_datagen/kronecker.cpp:986-994 | the loop and the two powers give that sum |
| EmptyGraph.EdgeSumIsFull | traces/ICSBigDataBench/BigDataGeneratorSuite/Graph_datagen/kronecker.cpp:986-1049 | with that start, and as many nodes as the power has rows, the sum over the edges is the sum over all pairs of nodes, whatever the permutation |
| Likelihood.KroneckerLL.CalcApxGraphLL | traces/ICSBigDataBench/BigDataGeneratorSuite/Graph_datagen/kronecker.cpp:1037-1049 | the likelihood from scratch, as far from the sum over all pairs as its value for an empty graph is from that of no pairs |
| Likelihood.KroneckerLL.CalcApxGraphDLL | traces/ICSBigDataBench/BigDataGeneratorSuite/Graph_datagen/kronecker.cpp:1194-1209 | the same for all derivatives |
| Likelihood.KroneckerLL.NodeDelta | traces/ICSBigDataBench/BigDataGeneratorSuite/Graph_datagen/kronecker.cpp:1055-1080 | the row and the column of a node in the matrix of gains, a self-edge counted once |
| Likelihood.KroneckerLL.TakeOut | traces/ICSBigDataBench/BigDataGeneratorSuite/Graph_datagen/kronecker.cpp:1084-1093 | subtracts the terms of both nodes, each edge between them once |
| Likelihood.KroneckerLL.PutBack | traces/ICSBigDataBench/BigDataGeneratorSuite/Graph_datagen/kronecker.cpp:1097-1106 | adds the terms of both nodes at their new places, each edge between them once |
| Likelihood.KroneckerLL.SwapNodesLL | traces/ICSBigDataBench/BigDataGeneratorSuite/Graph_datagen/kronecker.cpp:1083-1108 | after a swap the likelihood is off the full sum by as much as before, so equal to it if it was; the inverse stays the inverse |
| Likelihood.KroneckerLL.SampleNextPerm | traces/ICSBigDataBench/BigDataGeneratorSuite/Graph_datagen/kronecker.cpp:1111-1133 | a step is accepted exactly when the drawn logarithm is at most the gain of the full likelihood; then it is such a swap, otherwise likelihood, permutation and inverse are restored |
| Likelihood.KroneckerLL.UpdateOne | traces/ICSBigDataBench/BigDataGeneratorSuite/Graph_datagen/kronecker.cpp:1243-1268 | a derivative that was right for the permutation before the swap is right for the one after it |
| Likelihood.KroneckerLL.UpdateGraphDLL | traces/ICSBigDataBench/BigDataGeneratorSuite/Graph_datagen/kronecker.cpp:1241-1270 | the same for all derivatives, with the permutation left as it was |
| Likelihood.KroneckerLL.SampleGradient | traces/ICSBigDataBench/BigDataGeneratorSuite/Graph_datagen/kronecker.cpp:1272-1300 | over a whole random walk the averages of the values kept up to date are the averages of the full sums over the permutations met |
| Likelihood.SumLLSplits | traces/ICSBigDataBench/BigDataGeneratorSuite/Graph_datagen/kronecker.cpp:1284-1292 | what is averaged: two walks one after the other give the sum of both (`SumLLOne`: one permutation gives its own full sum) |
| Likelihood.SwapIsLocal | traces/ICSBigDataBench/BigDataGeneratorSuite/Graph_datagen/kronecker.cpp:1082-1108 | without the terms of the two nodes the sums before and after a swap are the same |
| Likelihood.RemoveTwo | traces/ICSBigDataBench/BigDataGeneratorSuite/Graph_datagen/kronecker.cpp:1051-1054 | taking two nodes out of the grid: rows, columns, and the two places they share |
| Likelihood.ListsGiveSums | traces/ICSBigDataBench/BigDataGeneratorSuite/Graph_datagen/kronecker.cpp:1055-1080 | the adjacency lists of a node give its row and its column |
| Likelihood.SwapKeepsInverse | traces/ICSBigDataBench/BigDataGeneratorSuite/Graph_datagen/kronecker.cpp:1094-1096 | swapping in both permutations at these places keeps them inverse |
| KroneckerPower.GetEdgeProb | traces/ICSBigDataBench/BigDataGeneratorSuite/Graph_datagen/kronecker.cpp:161-169 | the loop over digits, with its early exit at zero, gives the entry of the power |
| KroneckerPower.KronMul | traces/ICSBigDataBench/BigDataGeneratorSuite/Graph_datagen/kronecker.cpp:591-605 | each entry of the product is the product of the entries at the quotients and remainders |
| KroneckerPower.KronPwr | traces/ICSBigDataBench/BigDataGeneratorSuite/Graph_datagen/kronecker.cpp:626-634 | with n iterations the explicit matrix is the power n + 1, entry by entry what the loop over digits gives |
| KroneckerPower.PowerStep | traces/ICSBigDataBench/BigDataGeneratorSuite/Graph_datagen/kronecker.cpp:626-634 | the product with the seed belongs to the next power |
| KroneckerPower.SumIsPower | traces/ICSBigDataBench/BigDataGeneratorSuite/Graph_datagen/kronecker.cpp:140-145 | the entries of the k-th power sum to the k-th power of the sum of the seed |
| KroneckerPower.GetMtxSum | traces/ICSBigDataBench/BigDataGeneratorSuite/Graph_datagen/kronecker.cpp:140-145 | the loop over all entries gives the sum of all rows |
| KroneckerPower.PowerSum | traces/ICSBigDataBench/BigDataGeneratorSuite/Graph_datagen/kronecker.cpp:626-634 | summing the explicit power gives the power of the sum of the seed |
| Expression.TILx.LoadTxtFact | traces/ICSBigDataBench/BigDataGeneratorSuite/Graph_datagen/glib-core/exp.cpp:652-691 | returns a factor that is written in the tokens read, and the printed factor if one is printed here |
| Expression.TILx.LoadTxtArgs | traces/ICSBigDataBench/BigDataGeneratorSuite/Graph_datagen/glib-core/exp.cpp:664-670 | returns arguments that are written in the tokens read, with commas between them, and the printed ones if they are printed here |
| Expression.TILx.LoadTxtMulExp | traces/ICSBigDataBench/BigDataGeneratorSuite/Graph_datagen/glib-core/exp.cpp:693-702 | returns a product, with its operators grouped to the left, that is written in the tokens read, and the printed one if one is printed here |
| Expression.TILx.LoadTxtAddExp | traces/ICSBigDataBench/BigDataGeneratorSuite/Graph_datagen/glib-core/exp.cpp:704-718 | the same for sums, whose first term may have a sign |
| Expression.TILx.LoadTxtRelExp | traces/ICSBigDataBench/BigDataGeneratorSuite/Graph_datagen/glib-core/exp.cpp:720-729 | the same for a relation |
| Expression.TILx.LoadTxtExp | traces/ICSBigDataBench/BigDataGeneratorSuite/Graph_datagen/glib-core/exp.cpp:731-742 | the same for a conditional |
| Expression.LoadTxt | traces/ICSBigDataBench/BigDataGeneratorSuite/Graph_datagen/glib-core/exp.cpp:808-821 | for any tokens, what it returns is a tree of the grammar that the tokens it has read are a way to write, and it ends before an expected symbol; of a printed tree it returns that tree and stops right behind it |
| Expression.ParseOperation | traces/ICSBigDataBench/BigDataGeneratorSuite/Graph_datagen/glib-core/exp.cpp:606-626 | each of the fourteen symbols between two numbers is parsed to its own operator |
| Expression.ParseGroups | traces/ICSBigDataBench/BigDataGeneratorSuite/Graph_datagen/glib-core/exp.cpp:366-369 | two operators between three numbers are grouped as the three sets of symbols say: products first, then sums, each from the left, then a relation |
| Expression.TOLx.SaveTxt | traces/ICSBigDataBench/BigDataGeneratorSuite/Graph_datagen/glib-core/exp.cpp:823-863 | appends the tokens that are printed of the tree |
| Expression.PrintSpells | traces/ICSBigDataBench/BigDataGeneratorSuite/Graph_datagen/glib-core/exp.cpp:744-769 | what is printed of a tree of the grammar is a way to write it, with the symbol of each operator between its operands |
| Expression.PrintAndParse | traces/ICSBigDataBench/BigDataGeneratorSuite/Graph_datagen/glib-core/exp.cpp:744-769 | what is printed of any tree of the grammar is parsed to that tree, to the last token |
| Expression.ParsePrintParse | traces/ICSBigDataBench/BigDataGeneratorSuite/Graph_datagen/glib-core/exp.cpp:652-863 | whatever the parser returns for any tokens is printed so that it is parsed to the same tree |
| Expression.OpStands | traces/ICSBigDataBench/BigDataGeneratorSuite/Graph_datagen/glib-core/exp.cpp:628-650 | the symbol of each operator is its own |
| Expression.SymStands | traces/ICSBigDataBench/BigDataGeneratorSuite/Graph_datagen/glib-core/exp.cpp:606-626 | the operator of each symbol is its own |
| Permutation.NextPerm | traces/ICSBigDataBench/BigDataGeneratorSuite/Graph_datagen/glib-core/ds.h:1167-1186 | true exactly when there is a next arrangement, which is then the result: the same numbers, greater, with nothing in between; otherwise the input was the greatest and the result is ascending |
| Permutation.NoSuccessorOfGreatest | traces/ICSBigDataBench/BigDataGeneratorSuite/Graph_datagen/glib-core/ds.h:1181-1183 | the greatest arrangement has no next one, so the two outcomes exclude each other |
| Permutation.SwapAndFlip | traces/ICSBigDataBench/BigDataGeneratorSuite/Graph_datagen/glib-core/ds.h:1174-1179 | exchanging the pivot with the last greater number and reversing the rest gives the next arrangement, duplicates allowed |
| Permutation.AscendingIsLeast | traces/ICSBigDataBench/BigDataGeneratorSuite/Graph_datagen/glib-core/ds.h:1181-1183 | the ascending arrangement is the least |
| Permutation.DescendingIsGreatest | traces/ICSBigDataBench/BigDataGeneratorSuite/Graph_datagen/glib-core/ds.h:1181-1183 | the descending arrangement is the greatest |
| Permutation.FindMid | traces/ICSBigDataBench/BigDataGeneratorSuite/Graph_datagen/glib-core/ds.h:1175-1176 | finds the last number greater than the pivot |
| Permutation.ReverseBetween | traces/ICSBigDataBench/BigDataGeneratorSuite/Graph_datagen/glib-core/ds.h:602 | reverses a stretch of the array and nothing else |
| Permutation.Reverse | traces/ICSBigDataBench/BigDataGeneratorSuite/Graph_datagen/glib-core/ds.h:1149-1153 | reverses the array |
| Permutation.Swap | traces/ICSBigDataBench/BigDataGeneratorSuite/Graph_datagen/glib-core/ds.h:573 | exchanges two numbers |
| FrugalInt.RoundTrip | traces/ICSBigDataBench/BigDataGeneratorSuite/Graph_datagen/glib-core/dt.cpp:1954-1994 | every integer in range is decoded to itself from its 1, 2 or 4 bytes, whatever follows them |
| FrugalInt.EveryCodeIsUsed | traces/ICSBigDataBench/BigDataGeneratorSuite/Graph_datagen/glib-core/dt.cpp:1955-1959 | any bytes that can be decoded are the encoding of what they are decoded to |
| FrugalInt.CodesAsDocumented | traces/ICSBigDataBench/BigDataGeneratorSuite/Graph_datagen/glib-core/dt.cpp:1954-1973 | which integers take one, two and four bytes, and the number that the bytes spell in each of the five cases |
| FrugalInt.PrefixFree | traces/ICSBigDataBench/BigDataGeneratorSuite/Graph_datagen/glib-core/dt.cpp:1955-1959 | no encoding is the beginning of another |
| FrugalInt.SaveFrugalInt | traces/ICSBigDataBench/BigDataGeneratorSuite/Graph_datagen/glib-core/dt.cpp:1954-1973 | writes the encoding and no other byte; refuses exactly the integers out of range |
| FrugalInt.LoadFrugalInt | traces/ICSBigDataBench/BigDataGeneratorSuite/Graph_datagen/glib-core/dt.cpp:1975-1994 | reads the integer and moves by its width |
| FrugalInt.SaveFrugalIntV | traces/ICSBigDataBench/BigDataGeneratorSuite/Graph_datagen/glib-core/dt.cpp:2018-2037 | writes size and contents without a gap, in a buffer of 4(n + 1) bytes that is never left; refuses exactly when an integer or the size is out of range |
| FrugalInt.MoveUp | traces/ICSBigDataBench/BigDataGeneratorSuite/Graph_datagen/glib-core/dt.cpp:2033 | moves the size up against the contents though source and target may overlap |
| FrugalInt.LoadFrugalIntV | traces/ICSBigDataBench/BigDataGeneratorSuite/Graph_datagen/glib-core/dt.cpp:2043-2069 | reads the integers of any stream with a size and as many bytes of encodings, behind the old contents unless cleared; a size that is not positive, negative ones included, stands for none; leaves the rest of the stream |
| FrugalInt.SaveAndLoad | traces/ICSBigDataBench/BigDataGeneratorSuite/Graph_datagen/glib-core/dt.cpp:2018-2069 | a vector that can be written is read back the same, and what follows it is left |
| PairHash.PairingIsInjective | traces/ICSBigDataBench/BigDataGeneratorSuite/Graph_datagen/glib-core/bd.h:578-579 | the number made of a pair tells the pair |
| PairHash.WalksDiagonals | traces/ICSBigDataBench/BigDataGeneratorSuite/Graph_datagen/glib-core/bd.h:578-579 | the numbers count the pairs of non-negative codes diagonal by diagonal |
| PairHash.PairingFits | traces/ICSBigDataBench/BigDataGeneratorSuite/Graph_datagen/glib-core/bd.h:577-580 | for codes that are not negative no bit is lost in 64-bit arithmetic |
| PairHash.Reduce | traces/ICSBigDataBench/BigDataGeneratorSuite/Graph_datagen/glib-core/bd.h:589-594 | the reduction without a division is right if and only if the number is below 2^63 - 1 |
| PairHash.FoldedIsRemainder | traces/ICSBigDataBench/BigDataGeneratorSuite/Graph_datagen/glib-core/bd.h:589-594 | adding up the two parts in 32 bits is the remainder modulo 2^31 - 1 if and only if the number is below 2^63 - 1 |
| PairHash.HashWithoutDivision | traces/ICSBigDataBench/BigDataGeneratorSuite/Graph_datagen/glib-core/bd.h:584-595 | the two hash functions agree if and only if the pairing number is below 2^63 - 1, so for all codes that are not negative |
| PairHash.NegativeCodesDiffer | traces/ICSBigDataBench/BigDataGeneratorSuite/Graph_datagen/glib-core/bd.h:577-595 | for the codes -1 and 0 one function gives 3 and the other -2^31 |

## Left out

- The server, sockets, the ctypes binding and pickling: the store is the atomic versioned map of `RamCloud`. The binding's error handler (bindings/ramcloud/python/ramcloud.py:224-233) names a variable it does not have in the case of a version error; the model raises the error that is meant.
- Operations whose outcome the client cannot know (lost replies), and objects in a table that no `TxRAMCloud` wrote.
- Client state as objects that are updated in place: the clients of the protocol, the allocator and the bank are values of a world, because their steps interleave. There is no aliasing between them to lose.
- Sleeping, backoff and clock values: a retry is another step, and whether a mask has expired is a free choice. The loops that wait for others may wait forever; `Recovery` and `SoloCommit` are about a client that runs alone.
- `insert` with IDs assigned by the server (bindings/ramcloud/python/txramcloud.py:249-251), and the `create`, `update` and other front ends with `want_version`, which only choose reject rules.
- The comments in `_delete_unsafe` and `_update_unsafe` read `version_eq_given` as rejecting older versions too (bindings/ramcloud/python/txramcloud.py:347-350); the model follows the rules themselves.
- Versions in the sequential specification: masking takes a version number too, so a logical object has none of its own. That version rules are met is stated for the stored object: in `CommitShows` for transactions and in `ReturnsAtItsEvent` for single operations.
- User-supplied versions that were never seen clean, and the version reported for a check of a missing object: callers are held to the documented rule (bindings/ramcloud/python/txramcloud.py:174-176); `ReportedVersionNamesMask` shows what happens otherwise.
- `OIDRes` with a batch size that is not positive or changes during a call, `LazyOID`, and the header of the counter object.
- The bank's statistics, the flag that ends its processes, and its command line.
- Blob files: the text header, closing and reopening, flags and access modes, pointers that were never handed out, the corrupted-file assertions, and `TMBlobBs`, which spreads blobs over several such files.
- GBlobBs.Replace: when the new data fits nowhere the old blob is lost, because it is deleted before the new one is put (blobbs.cpp:324-326); the contract says so.
- Sorting by quicksort in `GenBlockLenV`: the sorted list is given by insertion.
- The logarithms and probabilities behind the likelihood are arbitrary real functions of row and column (`EmptyGraph` takes the approximation for a missing edge, but not its derivatives), the random draws are parameters, and floating-point rounding is not modelled. The Metropolis-Gibbs variant, gradient descent and expectation maximisation are not modelled.
- `SetIPerm` of something that is not a permutation, and `SampleGradient` with no samples.
- Matrix dimension zero, and negative node numbers, in `GetEdgeProb`.
- Expressions: the character level of scanning and printing, vectors, lists and undefined expressions (printable, but no input is parsed to them), the printable but never parsed operator for negation, built-in names, help objects and evaluation.
- LoadTxt: that a tree is found again is stated for its printed form, with one pair of parentheses where any are needed or wanted; of input with repeated parentheses it is only said that what is returned is written there.
- `PrevPerm` and the other operations of the vector class.
- Bytes after a positive size that are not whole encodings, given to `LoadFrugalIntV`, where the original reads past its buffer or fails an assertion.
- Hash functions other than the pair hash.
