# Electroneum Classic: a verified model of four subsystems

This project models four parts of Electroneum Classic in Dafny and proves what they promise.

1. **Ring ancestry** (`RingChain`, `AncestryBackward`, `AncestryForward`, `AncestryTheorems`, `AncestryDoubling`). The
   ancestry utility finds the outputs that a transaction's rings can be traced back to. It has two algorithms. The
   backward one is a FIFO worklist without a visited set that counts every visit. The forward one makes one pass over
   the chain, unions ancestor sets, keeps three optional caches and resumes from saved state. Both are proved against
   one definition of "path through ring members and their creating transactions".
2. **Adding and popping blocks** (`BlockTables`, `BlockOutputs`, `BlockTheorems`, `BlockRuns`, `BlockRct`,
   `BlockStack`, `BlockTails`, `BlockPops`, `BlockAccepts`, `BlockExamples`, `BlockchainDb`). The tables of the block
   database and the operations that change them. The operations the base class leaves to the storage layer are
   modelled after the LMDB layer, batches included: an operation that throws leaves its partial writes, which the
   storage layer discards only when no batch is open.
3. **The bridge between the two** (`LedgerView`, `LedgerChain`). The tables, seen as the database the ancestry utility
   reads. Everything the tracers assume about a chain is derived from how blocks are added and from what consensus
   checks of a block.
4. **Log categories and time stamps** (`LogFilter`, `LogRules`, `LogRegistry`, `DateFormat`), and the **translation
   embedder** (`TranslationEmbedder`).

Code that changes state is a class or a method with loops, proved against specification functions; the theorems are
about those functions. Hashes, key images and public keys are numbers standing for opaque ids, and the hash of a
transaction or block is a field of it. Ring offsets are absolute. C strings are the characters before the terminator.
Exceptions and error returns are result values. Integers are unbounded except where the width matters: path counters
wrap at 2^32, their total at 2^64, and signed date fields are converted to 64 bits.

Every lemma carries `{:induction false}`, so each proof is the one written out. `hide` statements only keep
definitions that a proof does not need away from the solver.

## Main results

- For every chain of blocks that consensus has checked (coinbase miners, rings that name outputs already listed), the
  forward pass succeeds and stores, for every transaction on the chain, exactly the outputs that some ring path
  reaches; the backward tracer succeeds on the same transactions and finds the same outputs
  (`LedgerChain.LedgerAncestry`, `AncestryTheorems.TracersAgree`; `LedgerChain.RingChainIsChecked` exhibits such a
  chain with a ring).
- The backward tracer's counter of an output is the number of distinct walks to it, input by input and offset by
  offset, modulo 2^32, and its loop pops exactly one id per unit of the start's weight (`AncestryBackward.TraceBack`,
  `RingChain.PathCountCountsPaths`).
- Any number of interrupted, failed and resumed forward sessions over a growing chain, with any cache flags: each
  succeeds exactly when everything it looks at resolves, and once one completes, the answers are those of one fresh
  uncached pass, which then succeeds too (`AncestryTheorems.RunSessions`, `AncestryTheorems.ResumeEqualsFresh`).
  Sessions made while a checked ledger grows always succeed (`LedgerChain.TraceLedger`).
- After every run of adds, pops, and batches started, committed and aborted, of any blocks and with failures, the
  tables are exactly those of the blocks left on the chain, ids and lists are dense and recorded indices point at
  their outputs, unless the tables have been put off in one of two ways and no abort of a batch has put them right: an
  operation failed inside a batch after it had written something, or a pop took off an irreversible block
  (`BlockRuns.RunIsBuild`, `BlockRuns.EveryRun`). Both ways count. With supported miner inputs the tables are those of
  the chain in every state of a run exactly when neither occurs (`BlockStack.AlwaysBuiltIff`). With supported inputs
  throughout and no such failure, indices and densities are right in every state exactly when only reversible blocks
  are popped (`BlockPops.AlwaysOkIff`). Blocks with coinbase miners and key spends are always reversible
  (`BlockStack.OrdinaryPopUndoesAdd`).
- Spent keys are exact after every run of blocks with supported inputs, whatever is popped, unless a failure inside a
  batch has left something behind (`BlockStack.RunSpent`). While the tables are right, every output that a pop of a
  reversible block removes is the last of its list (`BlockTails.PopHitsTails`).
- A chain of blocks with supported inputs can be built exactly when transaction hashes, key images and block hashes
  are all different, each block names the one before it, all transactions have a known version and good outputs,
  lists and hashes have the same size, and the first block is below version 4 (`BlockAccepts.BuildIff`;
  `BlockAccepts.AddBlockIff` for one block on any tables that are in order).
- A message is logged exactly when the last rule that matches its category names a level at most as severe
  (`LogFilter.AllowedIff`), and the stamp of a log line shows each field in its place (`DateFormat.LogStamp`).
- Filtering with the memo is filtering without it; the rule string parser can be fed joined strings exactly when the
  first one is clean; the bounded formatter writes the prefix that fits; embedded bytes read back as themselves.

## Properties that do not hold, and when they do

- The summed path counters equal the number of visits exactly while no counter reaches 2^32 and the number stays below
  2^64 (`AncestryBackward.TotalExact`). Path counts can double with every block, so 33 blocks are enough
  (`AncestryDoubling.PathsDouble`, `AncestryDoubling.CounterWraps`).
- A failed add or pop does not always leave the tables alone. Outside a batch it does. Inside one the partial writes
  stay, and the daemon later commits them. A failed add changes nothing exactly when no batch is open, or the list
  sizes differ, or the miner transaction is refused at once: for a coinbase, because its hash is indexed
  (`BlockRuns.FailedAddKeeps`, `BlockRuns.CoinbaseFailedAddKeeps`, `BlockRuns.FailedPopKeeps`). At
  `BlockExamples.BatchKeepsPartialAdd` a miner transaction stays behind without its block.
- A transaction with an unsupported input is let through exactly when the key images in front of that input are
  distinct and unspent; it leaves no trace exactly when, besides, none of its key images was spent before. Otherwise
  other transactions' marks are erased (`BlockTheorems.AbortLeavesNoTrace`, `BlockExamples.AbortCanEraseOthers`).
- Removing a transaction undoes adding it exactly when its inputs are supported and it is not a version 2 transaction
  with a generation input among others and some amount other than zero. Addition tests for "some generation input and
  version 2", removal for "a single generation input and version at least 2" (`BlockTheorems.RemoveUndoesAddIff`,
  `BlockExamples.MixedStays`). Versions other than 1 and 2 are never stored, since they do not serialise.
- Popping a block undoes adding it exactly when each of its transactions is reversible in this sense
  (`BlockStack.PopUndoesAddIff`). If its inputs are supported and the pop succeeds, the invariants of the tables hold
  after it exactly when the block was reversible (`BlockPops.PopKeepsIff`). At `BlockExamples.PopTakesWrongOutput` it
  deletes the output of the block that stays.
- The reported RingCT count is the growth of the amount-0 list exactly when what is reported too much of the miner
  transaction equals what is reported too little of the listed ones, in particular for every block without such errors
  (`BlockRct.ReportIsGrowth`, `BlockRct.ListedGenerationMiscounted`, `BlockExamples.MiscountsCancel`). The recorded
  running totals are right after a run of such blocks, while the tables are right, exactly when every block below
  version 4 on the chain was added while that list was empty (`BlockRct.RunTotals`, `BlockExamples.TotalGoesWrong`).
- The search for an output's creator by public key finds the recorded creator exactly when nothing listed before it in
  the block has an output with the same key (`LedgerView.SearchFindsCreator`, `LedgerView.SameKeyMisleads`).
- Joining rule strings by a comma means joining their rules exactly when the first string leaves neither a name
  without a level nor a level without a name (`LogRules.JoinsIffClean`).
- A time stamp is terminated inside its thirty characters exactly when its expansion is shorter
  (`DateFormat.TimeStamp`, `DateFormat.StampOverflows`).
- An empty translation file produces text that is not a valid initialiser (`TranslationEmbedder.EmbeddingRoundTrip`).

The forward state's height is taken to start at 0, as after the failed load at line 396 of the ancestry utility; its
declaration at line 380 leaves it unset. Lines 422 and 495 of that file may shrink the block cache, so the cache
invariant says that each entry is unused or right, not that an entry exists. The month table's "Apri" is kept as it
is.

## Model

| member | source | states |
|---|---|---|
| RingChain.OriginMeaning | src/blockchain_utilities/blockchain_ancestry.cpp:690-745 | a found creator stands in the block the output table names, has the output's key, and nothing before it in that block does |
| RingChain.FindKeyIff | src/blockchain_utilities/blockchain_ancestry.cpp:692-710 | the scan of outputs finds the key if and only if no output of another type stands before it, and passes if and only if there is neither |
| RingChain.OriginIff | src/blockchain_utilities/blockchain_ancestry.cpp:681-750 | exactly when the search finds which creator, with every way to fail |
| RingChain.NamedIsMember | src/blockchain_utilities/blockchain_ancestry.cpp:473-476 | every offset of every key input of a transaction that is no coinbase is one of its members |
| RingChain.MemberIsNamed | src/blockchain_utilities/blockchain_ancestry.cpp:671-680 | every member is named by an offset of an input, and by one pair of positions only (`FlatIndexUnique`) |
| RingChain.PathCountCountsPaths | src/blockchain_utilities/blockchain_ancestry.cpp:671-751 | the recursive path count is the number of walks that pick an input, an offset of it, and go on from the creator of the output named |
| RingChain.AncestorsAreReachable | src/blockchain_utilities/blockchain_ancestry.cpp:473-569 | an output is an ancestor exactly when such a finite walk ends at it |
| RingChain.AncestorsAreCounted | src/blockchain_utilities/blockchain_ancestry.cpp:173-193 | the ancestor set is exactly the outputs with a positive path count |
| AncestryBackward.AddAncestorCounts | src/blockchain_utilities/blockchain_ancestry.cpp:173-180 | one insertion turns the 32-bit counters of a visit history into those of the history with one more visit |
| AncestryBackward.GetFullAncestry | src/blockchain_utilities/blockchain_ancestry.cpp:182-188 | the total is the size of the multiset the counters describe, modulo 2^64 |
| AncestryBackward.TallyUnique | src/blockchain_utilities/blockchain_ancestry.cpp:184-187 | that multiset is unique, so the total does not depend on the order of summation |
| AncestryBackward.FullAncestryExact | src/blockchain_utilities/blockchain_ancestry.cpp:173-188 | the summed counters equal the number of visits if and only if no counter has wrapped |
| AncestryBackward.TotalExact | src/blockchain_utilities/blockchain_ancestry.cpp:182-188 | the 64-bit total equals the number of visits if and only if no counter has wrapped and the number is below 2^64 |
| AncestryBackward.FindOutput | src/blockchain_utilities/blockchain_ancestry.cpp:692-710 | the scan of outputs stops at the first match or at the first output of another type |
| AncestryBackward.FindOrigin | src/blockchain_utilities/blockchain_ancestry.cpp:681-750 | the nested search loops compute the creator, miner transaction first, with all failure cases |
| AncestryBackward.TracingStep | src/blockchain_utilities/blockchain_ancestry.cpp:678-702 | handling a ring member keeps visits made plus visits to come, popped ids plus pending weight, and popped plus pending against visits |
| AncestryBackward.PopFront | src/blockchain_utilities/blockchain_ancestry.cpp:650-653 | popping the worklist makes the front current without changing any of those totals |
| AncestryBackward.TraceRing | src/blockchain_utilities/blockchain_ancestry.cpp:676-751 | one ring: counts, worklist and history advance by exactly its members, or the trace fails because it cannot be completed |
| AncestryBackward.TraceInputs | src/blockchain_utilities/blockchain_ancestry.cpp:671-758 | all inputs: as for one ring, and an input of another type ends the trace |
| AncestryBackward.TraceBack | src/blockchain_utilities/blockchain_ancestry.cpp:646-759 | succeeds if and only if everything below the start resolves; counters are path counts modulo 2^32, keys exactly the ancestors; ids popped equal the start's weight and one plus the visits; terminates |
| AncestryForward.ReadTxData | src/blockchain_utilities/blockchain_ancestry.cpp:89-123 | succeeds if and only if it is a coinbase or has key inputs only, and key outputs only; then rings, offsets and keys are the transaction's own |
| AncestryForward.SearchDecodedIff | src/blockchain_utilities/blockchain_ancestry.cpp:531-569 | the search over decoded transactions finds the first with the key if and only if all up to it decode |
| AncestryForward.DecodedOriginAgrees | src/blockchain_utilities/blockchain_ancestry.cpp:509-570 | where the forward search finds a creator the backward search finds the same one |
| AncestryForward.BlockCacheStore | src/blockchain_utilities/blockchain_ancestry.cpp:493-497 | the resize, growing or shrinking, and store keep every cached block unused or right |
| AncestryForward.AncestryState.constructor | src/blockchain_utilities/blockchain_ancestry.cpp:396 | a fresh state has height 0, no ancestry, and caches that are right for every database |
| AncestryForward.AncestryState.FetchTx | src/blockchain_utilities/blockchain_ancestry.cpp:436-460 | cached or not, the answer is the database's; caches stay right |
| AncestryForward.AncestryState.FetchBlock | src/blockchain_utilities/blockchain_ancestry.cpp:477-498 | cached or not, the answer is the database's block at that height |
| AncestryForward.AncestryState.FindCreator | src/blockchain_utilities/blockchain_ancestry.cpp:499-575 | cached or not, the creator is the one the uncached search finds |
| AncestryForward.AncestryState.ProcessMember | src/blockchain_utilities/blockchain_ancestry.cpp:475-575 | adds the member and its creator's ancestry; fails exactly when no creator is found |
| AncestryForward.AncestryState.ProcessRing | src/blockchain_utilities/blockchain_ancestry.cpp:471-577 | one ring advances the uncached fold by exactly its members |
| AncestryForward.AncestryState.ProcessTx | src/blockchain_utilities/blockchain_ancestry.cpp:435-579 | one transaction: result and failure are those of the uncached step |
| AncestryForward.AncestryState.ProcessBlock | src/blockchain_utilities/blockchain_ancestry.cpp:410-583 | one block: result and failure are those of the uncached fold over its ids |
| AncestryForward.AncestryState.Run | src/blockchain_utilities/blockchain_ancestry.cpp:405-596 | for every database, flags and stop: success and ancestry are those of the uncached pass, caches stay right; it goes on to the block where the stop is seen or to the last, and records that height |
| AncestryTheorems.TxExact | src/blockchain_utilities/blockchain_ancestry.cpp:461-579 | with exact ancestry before it, processing a transaction makes its own exact and changes no other |
| AncestryTheorems.MinerDone | src/blockchain_utilities/blockchain_ancestry.cpp:211-221 | a miner transaction left out reads as empty, which is its exact ancestry |
| AncestryTheorems.RunDone | src/blockchain_utilities/blockchain_ancestry.cpp:408-596 | after blocks lo to hi every transaction before hi in chain order has its exact ancestry |
| AncestryTheorems.FullPassExact | src/blockchain_utilities/blockchain_ancestry.cpp:408-592 | a full pass from scratch gives every transaction on the chain its exact ancestry |
| AncestryTheorems.ForwardCorrect | src/blockchain_utilities/blockchain_ancestry.cpp:461-582 | after a full pass the stored set is exactly the outputs reached by a walk over inputs and offsets |
| AncestryTheorems.CoinbaseFlagIrrelevant | src/blockchain_utilities/blockchain_ancestry.cpp:427-430 | including miner transactions or not changes no answer |
| AncestryTheorems.RunResolves | src/blockchain_utilities/blockchain_ancestry.cpp:443-456 | a run succeeds if and only if every listed transaction decodes and every ring member has a creator |
| AncestryTheorems.TracersAgree | src/blockchain_utilities/blockchain_ancestry.cpp:642-766 | the backward tracer succeeds on every transaction of the chain; its keys are the forward set and the deduplicated count is the set's size |
| AncestryTheorems.CachesGrow | src/blockchain_utilities/blockchain_ancestry.cpp:133-139 | saved caches stay right when the chain grows |
| AncestryTheorems.TraceableStays | src/blockchain_utilities/blockchain_ancestry.cpp:211-221 | once traceable, a transaction's ancestry never changes as the chain grows |
| AncestryTheorems.DoneGrows | src/blockchain_utilities/blockchain_ancestry.cpp:405-408 | saved progress is progress on the grown chain |
| AncestryTheorems.RunResumable | src/blockchain_utilities/blockchain_ancestry.cpp:593-595 | a successful run leaves progress to resume from at the height recorded, and everything if it was not stopped |
| AncestryTheorems.ResolvesGrows | src/blockchain_utilities/blockchain_ancestry.cpp:443-456 | what resolves on a chain resolves on a longer one |
| AncestryTheorems.FreshPassResolves | src/blockchain_utilities/blockchain_ancestry.cpp:405-456 | where a fresh pass over the whole chain succeeds, so does a session from any height |
| AncestryTheorems.RunSession | src/blockchain_utilities/blockchain_ancestry.cpp:380-613 | one session on a saved state: it succeeds if and only if everything it looks at resolves, ends in a state to save or leaves the saved one alone |
| AncestryTheorems.RunSessions | src/blockchain_utilities/blockchain_ancestry.cpp:377-616 | any sessions over a growing chain, any flags and stops: the last succeeds wherever a fresh pass would, and if it completes every transaction has its exact ancestry |
| AncestryTheorems.ResumeEqualsFresh | src/blockchain_utilities/blockchain_ancestry.cpp:405-408 | completed sessions read like one fresh uncached pass, which succeeds without miner transactions; with them it gives the same answers if it succeeds |
| AncestryDoubling.DoublingIsChain | src/blockchain_utilities/blockchain_ancestry.cpp:671-751 | a family of chains whose rings name earlier outputs only |
| AncestryDoubling.PathsDouble | src/blockchain_utilities/blockchain_ancestry.cpp:671-751 | on it the transaction of block h has 2^h paths to the first output, all of which resolve |
| AncestryDoubling.CounterWraps | src/blockchain_utilities/blockchain_ancestry.cpp:173-188 | after 33 blocks the counter reads 0 and the summed counters miss the number of visits |
| BlockOutputs.AddOutputShape | src/blockchain_db/lmdb/db_lmdb.cpp:927-991 | one addition appends one entry with the old length as index and one creator record, and changes nothing else |
| BlockOutputs.AddThenRemoveOutput | src/blockchain_db/lmdb/db_lmdb.cpp:1038-1074 | removing the entry just added restores both tables |
| BlockOutputs.AmountsAgreePointwise | src/blockchain_db/lmdb/db_lmdb.cpp:1030-1035 | the condition says exactly that removal looks in the list addition used, output by output |
| BlockOutputs.AddThenRemoveOutputs | src/blockchain_db/lmdb/db_lmdb.cpp:1016-1036 | removing a transaction's outputs last to first undoes adding them |
| BlockOutputs.RemovalHitsTail | src/blockchain_db/blockchain_db.cpp:282-296 | at every stage of a removal the entry deleted is the last of its list |
| BlockOutputs.OutputsLand | src/blockchain_db/blockchain_db.cpp:174-196 | recorded index i leads to the transaction's i-th output, with its key and creator record, amount 0 for version 2 miners |
| BlockTheorems.AddInputsDistinct | src/blockchain_db/blockchain_db.cpp:147-157 | accepted inputs were new: the spent images stay a list without repetition |
| BlockTheorems.AddInputsInverse | src/blockchain_db/blockchain_db.cpp:286-292 | taking the images back restores the spent set |
| BlockTheorems.ClashIff | src/blockchain_db/blockchain_db.cpp:147-157 | the input loop throws if and only if an image in front of the first unsupported input is spent or repeated |
| BlockTheorems.AbortLeavesNoTrace | src/blockchain_db/blockchain_db.cpp:158-169 | with an unsupported input: let through if and only if the leading images are distinct and unspent, changes only spent keys, and changes nothing if and only if, besides, no image of the transaction was spent |
| BlockTheorems.OutputsAcceptedIff | src/blockchain_db/blockchain_db.cpp:174-195 | outputs are stored if and only if all are key outputs and, in version 1, carry an amount |
| BlockTheorems.AddTransactionIff | src/blockchain_db/blockchain_db.cpp:125-196 | with supported inputs: stored if and only if images are distinct and unspent, the hash is new, the version is 1 or 2 and the outputs are good; the first test that fails names the error |
| BlockTheorems.RefusedLeaves | src/blockchain_db/lmdb/db_lmdb.cpp:793-863 | what a refused transaction leaves: marks only, or also its index entry, or also its data, depending on the test that failed |
| BlockTheorems.FailedRemoveLeaves | src/blockchain_db/lmdb/db_lmdb.cpp:866-925 | a removal that fails half-way has taken back key images and data but not the index entry |
| BlockAccepts.AppendIff | src/blockchain_db/lmdb/db_lmdb.cpp:690-739 | the block record is appended if and only if the hash is new, the parent is on top, and a first block is below version 4 |
| BlockAccepts.AddTransactionsIff | src/blockchain_db/blockchain_db.cpp:224-239 | the transactions of a block are stored if and only if all are good and hashes and key images are new and distinct |
| BlockAccepts.AddBlockIff | src/blockchain_db/blockchain_db.cpp:199-245 | exact acceptance of a block with supported inputs, and the hashes, images and height it adds |
| BlockAccepts.BuildIff | src/blockchain_db/blockchain_db.cpp:199-256 | exactly which chains of blocks with supported inputs can be built, without reference to any table |
| BlockExamples.AbortCanEraseOthers | src/blockchain_db/blockchain_db.cpp:161-167 | a run of two accepted blocks after which a key image on the chain is not marked as spent |
| BlockTheorems.AddTransactionKeeps | src/blockchain_db/blockchain_db.cpp:125-197 | dense ids, dense lists and recorded indices survive adding any transaction |
| BlockTheorems.ReversibleIff | src/blockchain_db/lmdb/db_lmdb.cpp:1030-1035 | among storable transactions exactly those with an unsupported input, and version 2 ones with a generation input among others and a nonzero amount, cannot be undone |
| BlockTheorems.CoinbaseReversible | src/blockchain_db/lmdb/db_lmdb.cpp:1030 | every storable coinbase can be undone |
| BlockTheorems.AcceptedStorable | src/cryptonote_basic/cryptonote_basic.h:170-173 | an accepted transaction with supported inputs has version 1 or 2 |
| BlockTheorems.KeySpendReversible | src/blockchain_db/blockchain_db.cpp:149-152 | a transaction that only spends keys can be undone |
| BlockTheorems.AddThenRemoveTransaction | src/blockchain_db/lmdb/db_lmdb.cpp:866-925 | removal returns the stored transaction and restores all tables |
| BlockTheorems.RemoveUndoesAddIff | src/blockchain_db/blockchain_db.cpp:282-295 | for a new hash removal undoes addition if and only if inputs are supported and it is not a mixed generation transaction with an amount |
| BlockExamples.MixedStays | src/blockchain_db/lmdb/db_lmdb.cpp:1030-1035 | a version 2 transaction with a generation and a key input is accepted and removal does not undo it |
| BlockRuns.PopUndoesAdd | src/blockchain_db/blockchain_db.cpp:263-275 | pop right after add restores every table, returns the block and appends its transactions last first |
| BlockRuns.LastFirstReverses | src/blockchain_db/blockchain_db.cpp:269-272 | the popped list is the block's list in reverse |
| BlockRuns.ListedBeforeRemoval | src/blockchain_db/blockchain_db.cpp:269-272 | a listed transaction is handed to the caller before it is removed, also when its removal fails |
| BlockRuns.FailedAddLeaves | src/blockchain_db/blockchain_db.cpp:206-245 | a failed add has written nothing if and only if the list sizes differ or the miner transaction is refused before anything is marked |
| BlockRuns.FailedPopLeaves | src/blockchain_db/blockchain_db.cpp:265-274 | a failed pop has removed nothing if and only if there was no top block |
| BlockRuns.FailedAddKeeps | src/blockchain_db/lmdb/db_lmdb.cpp:3075-3085 | a failed add changes nothing if and only if no batch is open or it had written nothing |
| BlockRuns.CoinbaseFailedAddKeeps | src/blockchain_db/lmdb/db_lmdb.cpp:3119-3131 | for a coinbase miner: no batch, different sizes, or an indexed miner hash |
| BlockRuns.FailedPopKeeps | src/blockchain_db/lmdb/db_lmdb.cpp:3143-3152 | a failed pop changes nothing if and only if no batch is open or there was no top block |
| BlockRuns.NoBatchIsClean | src/blockchain_db/lmdb/db_lmdb.cpp:3080-3085 | without batches no failed operation leaves anything behind, and with reversible blocks nothing else puts the tables off |
| BlockExamples.BatchKeepsPartialAdd | src/cryptonote_core/blockchain.cpp:3519-3538 | a batch with a failed add, committed: the miner transaction and its output stay without their block, and a block with that miner is refused |
| BlockRuns.RunIsBuild | src/blockchain_db/blockchain_db.cpp:199-275 | after any run of any blocks, batches and failures included, the tables are those of the blocks left, unless an unclean failure in a batch or a pop of an irreversible block put them off and no abort put that right |
| BlockRuns.BuildSpent | src/blockchain_db/blockchain_db.cpp:229-239 | the spent set is exactly the key images on the chain, none twice |
| BlockRuns.EveryRun | src/blockchain_db/lmdb/db_lmdb.cpp:3102-3153 | after every run that left the tables right ids and lists are dense, recorded indices point at their outputs, spent keys are exact if inputs on the chain are supported |
| BlockStack.AddBlockCore | src/blockchain_db/blockchain_db.cpp:199-245 | whether a block is added, and all tables but those of outputs, do not depend on the output tables |
| BlockStack.PopBlockCore | src/blockchain_db/blockchain_db.cpp:263-275 | a pop that succeeds takes off exactly what the add put on, output tables aside, and returns the transactions last first |
| BlockStack.RunSpent | src/blockchain_db/blockchain_db.cpp:147-157 | after every run of blocks with supported inputs and without residue of an unclean failure, whatever is popped, the spent set is exactly the key images on the chain, none twice |
| BlockStack.PopUndoesAddIff | src/blockchain_db/blockchain_db.cpp:263-275 | for every accepted block pop undoes add if and only if every transaction is reversible |
| BlockStack.OrdinaryPopUndoesAdd | src/blockchain_db/lmdb/db_lmdb.cpp:1030 | for a coinbase miner and key spends pop always undoes add and returns the transactions last first |
| BlockStack.AlwaysBuiltIff | src/blockchain_db/blockchain_db.cpp:199-275 | for miners with supported inputs: in every state of a run the tables are those of the chain if and only if no operation fails in a batch after writing and no pop takes off an irreversible block |
| BlockPops.PopKeepsIff | src/blockchain_db/lmdb/db_lmdb.cpp:1016-1036 | for supported inputs: after a pop that succeeds dense ids, dense lists and recorded indices hold if and only if the block was reversible |
| BlockPops.AlwaysOkIff | src/blockchain_db/lmdb/db_lmdb.cpp:1030-1074 | for supported inputs: they hold in every state of a run without unclean failures if and only if no pop takes off an irreversible block |
| BlockExamples.PopTakesWrongOutput | src/blockchain_db/lmdb/db_lmdb.cpp:1030-1035 | two accepted blocks and a pop that deletes the output of the block that stays |
| BlockTails.PopHitsTails | src/blockchain_db/blockchain_db.cpp:263-296 | after every run that left the tables right, with a reversible top block, each output removal of the next pop deletes the last entry of its list |
| BlockRct.ReportIsGrowth | src/blockchain_db/blockchain_db.cpp:223-239 | the reported RingCT count is the amount-0 list's growth if and only if over-report of the miner equals under-report of the listed transactions |
| BlockExamples.MiscountsCancel | src/blockchain_db/blockchain_db.cpp:225-237 | a miner reported too high and a listed transaction too low make the count right |
| BlockRct.ListedGenerationMiscounted | src/blockchain_db/blockchain_db.cpp:233-237 | a listed transaction with a generation input makes the count differ |
| BlockRct.BuildInfo | src/blockchain_db/lmdb/db_lmdb.cpp:722-740 | the recorded total is the block's count, plus the previous total from version 4 on |
| BlockRct.TotalsRight | src/blockchain_db/lmdb/db_lmdb.cpp:730-740 | all recorded totals are right if and only if blocks below version 4 met an empty list |
| BlockRct.RunTotals | src/blockchain_db/lmdb/db_lmdb.cpp:730-740 | after every run of plain blocks that left the tables right all recorded totals are right if and only if blocks below version 4 met an empty list |
| BlockExamples.TotalGoesWrong | src/blockchain_db/lmdb/db_lmdb.cpp:730-740 | two plain version 1 blocks: the second records one output where two are listed |
| BlockchainDb.BlockchainDB.constructor | src/blockchain_db/lmdb/db_lmdb.cpp:1442-1488 | a database that has just been reset has empty tables |
| BlockchainDb.BlockchainDB.RemoveSpentKeys | src/blockchain_db/blockchain_db.cpp:286-292 | exactly the transaction's key images are taken back |
| BlockchainDb.BlockchainDB.AddSpentKeys | src/blockchain_db/blockchain_db.cpp:147-170 | marks images in order, aborts on an unsupported input, reports a clash; the spent set is pinned in every case |
| BlockchainDb.BlockchainDB.StoreOutput | src/blockchain_db/lmdb/db_lmdb.cpp:945-990 | appends one output and returns its index, or fails without a change |
| BlockchainDb.BlockchainDB.StoreOutputs | src/blockchain_db/blockchain_db.cpp:174-195 | the output loop yields exactly the specified tables and indices, also when it throws |
| BlockchainDb.BlockchainDB.StoreTransaction | src/blockchain_db/blockchain_db.cpp:125-196 | errors and tables, also those left by a throw such as the one for versions that do not serialise, are those of the specification |
| BlockchainDb.BlockchainDB.DropOutput | src/blockchain_db/lmdb/db_lmdb.cpp:1049-1073 | deletes the entry with that index and its creator record |
| BlockchainDb.BlockchainDB.DropOutputs | src/blockchain_db/lmdb/db_lmdb.cpp:1020-1035 | removes outputs last to first; errors and tables left are those of the specification |
| BlockchainDb.BlockchainDB.DropTransaction | src/blockchain_db/blockchain_db.cpp:284-295 | errors and tables, also those left by a throw, are those of the specification |
| BlockchainDb.BlockchainDB.StoreBlock | src/blockchain_db/lmdb/db_lmdb.cpp:681-748 | appends the block if it is new and follows the top, then its record; a missing previous record leaves the block alone behind |
| BlockchainDb.BlockchainDB.AddBlock | src/blockchain_db/lmdb/db_lmdb.cpp:3102-3134 | one step of a run: adds the block and returns the new height, or throws and discards its writes unless a batch is open |
| BlockchainDb.BlockchainDB.AddBlockInTransaction | src/blockchain_db/blockchain_db.cpp:199-256 | miner transaction, listed ones, RingCT count and block record in order, with the tables left by a throw; returns the previous height |
| BlockchainDb.BlockchainDB.PopBlockInTransaction | src/blockchain_db/blockchain_db.cpp:263-275 | takes off the top block and its transactions in reverse, with the tables and list left by a throw |
| BlockchainDb.BlockchainDB.PopBlock | src/blockchain_db/lmdb/db_lmdb.cpp:3136-3153 | one step of a run: pops the top block, or throws and puts everything back unless a batch is open |
| BlockchainDb.BlockchainDB.BlockTxnAbort | src/blockchain_db/lmdb/db_lmdb.cpp:3075-3085 | goes back to the saved tables only when no batch is open |
| BlockchainDb.BlockchainDB.StartBatch | src/blockchain_db/lmdb/db_lmdb.cpp:2822-2862 | opens a batch unless one is open |
| BlockchainDb.BlockchainDB.StopBatch | src/blockchain_db/lmdb/db_lmdb.cpp:2902-2929 | keeps everything written since the batch began |
| BlockchainDb.BlockchainDB.AbortBatch | src/blockchain_db/lmdb/db_lmdb.cpp:2931-2951 | goes back to the tables at the batch's beginning |
| BlockchainDb.CountZeroOutputs | src/blockchain_db/blockchain_db.cpp:233-237 | counts the outputs of amount 0 |
| LedgerView.AddBlockExtendsView | src/blockchain_db/blockchain_db.cpp:219-245 | adding any block extends the database the tracers read and changes nothing in it |
| LedgerView.BuildLedger | src/blockchain_db/lmdb/db_lmdb.cpp:952-983 | every listed output has a stored creator, listed in the block of the output's height |
| LedgerView.SearchFindsCreator | src/blockchain_utilities/blockchain_ancestry.cpp:690-750 | the key search finds a creator, and the recorded one if and only if nothing before it in the block has the key |
| LedgerView.SameKeyMisleads | src/blockchain_utilities/blockchain_ancestry.cpp:692-704 | two outputs with one key in a block: the later one is traced to the miner transaction |
| LedgerView.MinersAreStored | src/blockchain_db/blockchain_db.cpp:224 | miner transactions on the chain are stored as coinbases |
| LedgerChain.TracersApply | src/blockchain_db/blockchain_db.cpp:219-256 | on checked chains every ring member's creator stands earlier in chain order |
| LedgerChain.TracersSucceed | src/blockchain_utilities/blockchain_ancestry.cpp:408-583 | on checked chains the forward pass runs to its end |
| LedgerChain.LedgerPathIs | src/blockchain_utilities/blockchain_ancestry.cpp:470-477 | walking the inputs of the stored transactions is walking what the tracers read |
| LedgerChain.LedgerAncestry | src/blockchain_utilities/blockchain_ancestry.cpp:377-766 | on checked chains both tracers give every listed transaction exactly the outputs that walks over the inputs of stored transactions reach |
| LedgerChain.ViewsGrow | src/blockchain_db/blockchain_db.cpp:219-245 | what the tracers read of a chain extends what they read of each of its beginnings |
| LedgerChain.LedgerSessions | src/blockchain_utilities/blockchain_ancestry.cpp:405-456 | sessions made while a checked chain grows see growing chains on which a fresh pass succeeds |
| LedgerChain.TraceLedger | src/blockchain_utilities/blockchain_ancestry.cpp:377-616 | such sessions succeed, and once one is not stopped early every transaction has its exact ancestry |
| LedgerChain.RingChainIsChecked | src/blockchain_utilities/blockchain_ancestry.cpp:671-690 | a checked chain with a ring, and the path it gives |
| LogFilter.MatchIsSplitting | external/easylogging++/easylogging++.cc:810-832 | a match is exactly a cut of the string into one fitting piece per pattern character |
| LogFilter.WildCardMatch | external/easylogging++/easylogging++.cc:810-832 | the loop with recursion decides exactly that, and terminates |
| LogRules.LevelAtName | external/easylogging++/easylogging++.cc:94-112 | where a level's name stands in upper or lower case, exactly that level is recognised |
| LogFilter.Spellings | external/easylogging++/easylogging++.cc:56-67 | how the levels are spelled, and that the lower-case names are the same words |
| LogRules.LevelAtLocal | external/easylogging++/easylogging++.cc:2008-2010 | the look-ahead for a level name never depends on what follows a comma |
| LogFilter.LastMatchWins | external/easylogging++/easylogging++.cc:2045-2054 | the priority granted is that of the last matching rule, or -1 if none matches |
| LogFilter.SeverityOrder | external/easylogging++/easylogging++.cc:2025-2034 | a rule lets through exactly the levels at least as severe, from fatal to trace; unlisted levels come last |
| LogFilter.AllowedIff | external/easylogging++/easylogging++.cc:2045-2054 | a message is allowed if and only if the last matching rule names a level at most as severe |
| LogFilter.SevereIsAllowed | external/easylogging++/easylogging++.cc:2025-2034 | what is allowed at a level is allowed at every more severe one in that order |
| LogRules.ParseRules | external/easylogging++/easylogging++.cc:1985-2016 | the parser loop appends exactly the rules of the string |
| LogRules.JoinsIffClean | external/easylogging++/easylogging++.cc:1998-2006 | joining by a comma joins the rules, for every continuation, if and only if the string is clean |
| LogRules.CleanJoin | external/easylogging++/easylogging++.cc:1981-1983 | after a clean string the rest parses as if alone |
| LogRules.PrintParse | external/easylogging++/easylogging++.cc:1985-2016 | printing well-formed rules as NAME:LEVEL, levels in either case, joined by commas, and parsing gives them back |
| LogRules.JunkDropsRule | external/easylogging++/easylogging++.cc:2007-2011 | one more character after the level makes the rule disappear |
| LogRules.TextRebuildsRules | external/easylogging++/easylogging++.cc:1973-2022 | the text remembered over any number of clean calls parses to all their rules |
| LogRegistry.VRegistry.constructor | external/easylogging++/easylogging++.h:2533-2536 | an empty registry is valid and in step with its text |
| LogRegistry.VRegistry.SetCategories | external/easylogging++/easylogging++.cc:1966-2017 | appends the rules, keeps the text, drops stale memo entries, stays in step for clean strings |
| LogRegistry.VRegistry.ClearCategories | external/easylogging++/easylogging++.h:2490-2494 | drops the rules but not the text, which then disagree unless there were none |
| LogRegistry.VRegistry.Allowed | external/easylogging++/easylogging++.cc:2036-2056 | the answer is the unmemoised decision, whatever was asked or set before |
| LogRegistry.VRegistry.Reload | contrib/epee/src/mlog.cpp:276-282 | setting the remembered text afresh rebuilds the same rules |
| LogRegistry.VRegistry.ExtendCategories | contrib/epee/src/mlog.cpp:247-258 | the "+" form appends exactly the new string's rules |
| DateFormat.DecimalValue | external/easylogging++/easylogging++.cc:937-945 | fixed-width digits are the decimal of n modulo 10^w, with w digits |
| DateFormat.PaddedFieldValue | external/easylogging++/easylogging++.cc:934-947 | a padded field of width 1 to 8 has that width and value; wider ones stop at eight digits |
| DateFormat.NoWidth | external/easylogging++/easylogging++.cc:934-947 | without a width nothing is shown but a zero |
| DateFormat.SpecifiersShow | external/easylogging++/easylogging++.cc:1205-1244 | each numeric specifier shows its own field in its digits |
| DateFormat.ShortYear | external/easylogging++/easylogging++.cc:1223-1225 | the short year shows the last two digits |
| DateFormat.NamesShow | external/easylogging++/easylogging++.cc:1208-1247 | half of the day, names of days and months and their three-letter forms |
| DateFormat.NegativeField | external/easylogging++/easylogging++.cc:934-939 | a negative field shows the last digits of its 64-bit conversion |
| DateFormat.LogStamp | contrib/epee/src/mlog.cpp:48 | the stamp of a log line shows year, month, day, hour, minute, second and fraction in their places and fits |
| DateFormat.AddToBuff | external/easylogging++/easylogging++.cc:949-953 | writes the prefix that fits, a terminator if there is room, and nothing else |
| DateFormat.WriteDigits | external/easylogging++/easylogging++.cc:937-939 | digits are written backwards up to the field width or the local buffer |
| DateFormat.WriteZeros | external/easylogging++/easylogging++.cc:944-945 | zeros fill the field in front |
| DateFormat.FormatField | external/easylogging++/easylogging++.cc:935-946 | the local buffer holds the field's text, padded or not |
| DateFormat.ConvertAndAddToBuff | external/easylogging++/easylogging++.cc:934-947 | writes as much of the field as fits |
| DateFormat.AddSpecifier | external/easylogging++/easylogging++.cc:1205-1249 | each specifier writes as much of its text as fits |
| DateFormat.ParseFormat | external/easylogging++/easylogging++.cc:1194-1256 | the buffer holds exactly the prefix of the unbounded expansion that fits; nothing past the limit changes |
| DateFormat.TimeStamp | external/easylogging++/easylogging++.cc:1130-1139 | the stamp is terminated if and only if its expansion is shorter than the buffer, and is then the whole expansion |
| DateFormat.StampOverflows | external/easylogging++/easylogging++.cc:1132-1138 | a format whose expansion does not fit, so that the stamp has no terminator |
| TranslationEmbedder.EmitInitialiser | translations/generate_translations_header.c:54-64 | the emitted text reads back as the bytes, with their count as length |
| TranslationEmbedder.HexDigitsRead | translations/generate_translations_header.c:62 | a written digit reads as its value |
| TranslationEmbedder.EscapeReads | translations/generate_translations_header.c:62 | a two-digit escape before anything but a hex digit reads as its byte |
| TranslationEmbedder.EmbeddingRoundTrip | translations/generate_translations_header.c:55-64 | reading back yields the original bytes if and only if there are any |

## Left out

- Command lines, log output, signal handling, files and archives: the ancestry utility's save and load copy the state; a stop request is the height after which it is seen.
- Blob parsing, hashing, commitments and relative ring offsets: cryptographic or encoding work; commitments count only as present or absent, one for each output of a version 2 transaction.
- LMDB cursors and key order: appending in key order cannot fail on dense tables, and removal of the top block is modelled as its effect.
- The hard-fork object: add_block informs it and pop_block does not undo that.
- Block weights, difficulties, coins, timestamps and unlock times: stored and read back unchanged.
- Ancestry over a chain that is reorganised between sessions: saved state is never invalidated, so the chain is taken to grow.
- Ancestry on a database whose rings name later outputs: the backward loop then need not end, so `OriginsEarlier` is required there and derived in `LedgerChain`.
- A null category: the source builds a string from it before its null check, which has no defined result.
- The `-` form of setting categories, verbose modules and the rest of the logging library: text surgery, I/O, threads and configuration.
- File names and the lookup function in the embedder's output: constant text around the initialisers.
- Key-image fix-up tables, timing counters and statistics: constant data.
- Tables left behind by an unclean failure in a batch: the state right after it is modelled, but not that later appends may then fail on key order.
- Batches and writers on several threads, and resizing the memory map: one writer is assumed.
- BlockRuns.PopUndoesAdd: requires each transaction of the block to be reversible; `BlockStack.PopUndoesAddIff` gives the converse.
- BlockRuns.FailedAddLeaves: requires a miner transaction with supported inputs, as every miner transaction that consensus lets through has.
