/**
Whole runs of add and pop, in and out of batches: the tables always are those of the current
chain, exactly as long as no failed operation inside a batch has left anything behind and no pop
has taken off an irreversible block.
*/
module BlockRuns {
  import opened Wrappers
  import opened BlockTables
  import opened BlockOutputs
  import opened BlockTheorems

  datatype Item = Item(block: Block, txs: seq<Transaction>)

  predicate SupportedItem(it: Item) {
    SupportedInputs(it.block.minerTx.vin) && forall i :: 0 <= i < |it.txs| ==> SupportedInputs(it.txs[i].vin)
  }

  predicate ReversibleItem(it: Item) {
    Reversible(it.block.minerTx) && forall i :: 0 <= i < |it.txs| ==> Reversible(it.txs[i])
  }

  // ----- One block -----

  lemma {:induction false} AddTransactionFrame(t: Tables, hash: Hash, tx: Transaction)
    requires AddTransaction(t, hash, tx).Ok?
    ensures var next := AddTransaction(t, hash, tx).value;
            next.blocks == t.blocks && next.info == t.info && next.heights == t.heights
  {}

  lemma {:induction false} AddTransactionsKeeps(t: Tables, b: Block, txs: seq<Transaction>, n: nat)
    requires n <= |txs| == |b.txHashes| && TablesOk(t) && AddTransactions(t, b, txs, n).Ok?
    ensures var next := AddTransactions(t, b, txs, n).value;
            TablesOk(next) && next.blocks == t.blocks && next.info == t.info && next.heights == t.heights
  {
    hide AddTransaction, TablesOk;
    if n == 0 {
      AddTransactionKeeps(t, b.minerTx.hash, b.minerTx);
      AddTransactionFrame(t, b.minerTx.hash, b.minerTx);
    } else {
      AddTransactionsKeeps(t, b, txs, n - 1);
      var mid := AddTransactions(t, b, txs, n - 1).value;
      AddTransactionKeeps(mid, b.txHashes[n - 1], txs[n - 1]);
      AddTransactionFrame(mid, b.txHashes[n - 1], txs[n - 1]);
    }
  }

  lemma {:induction false} OneListed(t: Tables, b: Block, tx: Transaction)
    requires |b.txHashes| == 1
    ensures AddTransactions(t, b, [tx], 0) == AddTransaction(t, b.minerTx.hash, b.minerTx)
    ensures var first := AddTransaction(t, b.minerTx.hash, b.minerTx);
            AddTransactions(t, b, [tx], 1)
            == if first.Ok? then AddTransaction(first.value, b.txHashes[0], tx) else first
  {
    hide AddTransaction;
  }

  lemma {:induction false} MinerAccepted(t: Tables, b: Block, txs: seq<Transaction>, n: nat)
    requires n <= |txs| == |b.txHashes| && AddTransactions(t, b, txs, n).Ok?
    ensures AddTransaction(t, b.minerTx.hash, b.minerTx).Ok?
    decreases n
  {
    hide AddTransaction;
    if n > 0 { MinerAccepted(t, b, txs, n - 1); }
  }

  function LastFirst(txs: seq<Transaction>, n: nat): seq<Transaction>
    requires n <= |txs|
  {
    if n == 0 then [] else [txs[n - 1]] + LastFirst(txs, n - 1)
  }

  lemma {:induction false} RemoveTransactionsUndo(t: Tables, b: Block, txs: seq<Transaction>, n: nat,
        before: seq<Transaction>)
    requires n <= |txs| == |b.txHashes| && TablesOk(t) && AddTransactions(t, b, txs, n).Ok?
    requires ReversibleItem(Item(b, txs))
    ensures RemoveTransactions(AddTransactions(t, b, txs, n).value, b, n, before)
            == Ok(Popped(t, before + LastFirst(txs, n)))
    decreases n
  {
    hide AddTransaction, RemoveTransaction, TablesOk, Reversible, GetTx;
    if n == 0 {
      AddThenRemoveTransaction(t, b.minerTx.hash, b.minerTx);
      assert before + [] == before;
    } else {
      var mid := AddTransactions(t, b, txs, n - 1).value;
      AddTransactionsKeeps(t, b, txs, n - 1);
      AddThenRemoveTransaction(mid, b.txHashes[n - 1], txs[n - 1]);
      RemoveTransactionsUndo(t, b, txs, n - 1, before + [txs[n - 1]]);
      assert before + [txs[n - 1]] + LastFirst(txs, n - 1) == before + LastFirst(txs, n);
    }
  }

  lemma {:induction false} AppendThenRemoveTop(t: Tables, b: Block, numRct: nat)
    requires |t.info| == |t.blocks| && AppendBlock(t, b, numRct).Ok?
    ensures RemoveTopBlock(AppendBlock(t, b, numRct).value) == Ok(t)
  {
    var next := AppendBlock(t, b, numRct).value;
    PutThenDrop(t.heights, b.hash, |t.blocks|);
    var h := |t.blocks|;
    assert next.blocks[..h] == t.blocks && next.info[..h] + next.info[h + 1..] == t.info;
  }

  lemma {:induction false} InfoLength(t: Tables)
    requires TablesOk(t)
    ensures |t.info| == |t.blocks|
  {}

  lemma {:induction false} AppendKeeps(t: Tables, b: Block, numRct: nat)
    requires TablesOk(t) && AppendBlock(t, b, numRct).Ok?
    ensures TablesOk(AppendBlock(t, b, numRct).value)
  {
    var next := AppendBlock(t, b, numRct).value;
    hide OutsOk, OutputAt;
    forall h | h in next.index ensures Recorded(next, h) {
      assert Recorded(t, h);
    }
  }

  lemma {:induction false} AddBlockKeeps(t: Tables, it: Item)
    requires TablesOk(t) && AddBlock(t, it.block, it.txs).Ok?
    ensures var next := AddBlock(t, it.block, it.txs).value;
            TablesOk(next) && next.blocks == t.blocks + [it.block]
  {
    hide AddTransactions, TablesOk;
    AddTransactionsKeeps(t, it.block, it.txs, |it.txs|);
    AppendKeeps(AddTransactions(t, it.block, it.txs, |it.txs|).value, it.block, NumRctOuts(it.block, it.txs));
  }

  /**
  Popping the block just added restores every table, gives the same block back, and appends its
  transactions to the caller's list, last one first.
  */
  lemma {:induction false} PopUndoesAdd(t: Tables, it: Item, before: seq<Transaction>)
    requires TablesOk(t) && ReversibleItem(it) && AddBlock(t, it.block, it.txs).Ok?
    ensures var next := AddBlock(t, it.block, it.txs).value;
            && next.blocks != [] && next.blocks[|next.blocks| - 1] == it.block
            && PopBlock(next, before) == Ok(Popped(t, before + LastFirst(it.txs, |it.txs|)))
  {
    hide AddTransactions, RemoveTransactions, RemoveTopBlock, AppendBlock, TablesOk, ReversibleItem;
    var b, txs := it.block, it.txs;
    var mid := AddTransactions(t, b, txs, |txs|).value;
    AddBlockKeeps(t, it);
    AddTransactionsKeeps(t, b, txs, |txs|);
    InfoLength(mid);
    AppendThenRemoveTop(mid, b, NumRctOuts(b, txs));
    RemoveTransactionsUndo(t, b, txs, |txs|, before);
  }

  lemma {:induction false} LastFirstReverses(txs: seq<Transaction>, n: nat, i: nat)
    requires i < n <= |txs|
    ensures |LastFirst(txs, n)| == n && LastFirst(txs, n)[i] == txs[n - 1 - i]
    decreases n
  {
    if n > 1 { LastFirstReverses(txs, n - 1, if i > 0 then i - 1 else 0); }
  }

  // ----- What a failed operation leaves behind -----

  /** Adding a transaction, failed or not, takes nothing out of the index. */
  lemma {:induction false} IndexKept(t: Tables, hash: Hash, tx: Transaction)
    ensures t.index.Keys <= After(AddTransaction(t, hash, tx)).index.Keys
  {
    hide AddInputs, AddOutputs, OutputIndices;
  }

  lemma {:induction false} MinerIndexed(t: Tables, b: Block, txs: seq<Transaction>, n: nat)
    requires n <= |txs| == |b.txHashes| && b.minerTx.hash in After(AddTransactions(t, b, txs, 0)).index
    ensures b.minerTx.hash in After(AddTransactions(t, b, txs, n)).index
    decreases n
  {
    hide AddTransaction;
    if n > 0 {
      MinerIndexed(t, b, txs, n - 1);
      if AddTransactions(t, b, txs, n - 1).Ok? {
        IndexKept(AddTransactions(t, b, txs, n - 1).value, b.txHashes[n - 1], txs[n - 1]);
      }
    }
  }

  lemma {:induction false} AppendKeepsIndex(t: Tables, b: Block, numRct: nat)
    ensures After(AppendBlock(t, b, numRct)).index == t.index && After(AppendBlock(t, b, numRct)).spent == t.spent
  {}

  /** What can be known before the call: the list sizes differ, or the miner transaction is refused at once. */
  predicate FailsClean(t: Tables, it: Item) {
    var miner := it.block.minerTx;
    var images := ImageList(miner.vin, 0);
    || |it.block.txHashes| != |it.txs|
    || (SupportedInputs(miner.vin) && if images == [] then miner.hash in t.index else images[0] in t.spent)
  }

  /** The miner transaction of a block that does not fail clean writes something, whatever follows. */
  lemma {:induction false} MinerWrites(t: Tables, it: Item)
    requires SupportedInputs(it.block.minerTx.vin) && !FailsClean(t, it)
    ensures var r := AddTransaction(t, it.block.minerTx.hash, it.block.minerTx);
            && (r.Ok? ==> it.block.minerTx.hash !in t.index && it.block.minerTx.hash in r.value.index)
            && (r.Throw? ==> r.left != t)
  {
    FirstImage(t.spent, it.block.minerTx.vin, 0);
    hide AddInputs, AddOutputs, OutputIndices, ImageList;
  }

  lemma {:induction false} RefusedAtOnce(t: Tables, b: Block, txs: seq<Transaction>, n: nat)
    requires n <= |txs| == |b.txHashes| && AddTransaction(t, b.minerTx.hash, b.minerTx).Throw?
    ensures AddTransactions(t, b, txs, n) == AddTransaction(t, b.minerTx.hash, b.minerTx)
    decreases n
  {
    if n > 0 { RefusedAtOnce(t, b, txs, n - 1); }
  }

  /** Such a block is refused, and nothing is written. */
  lemma {:induction false} CleanFailure(t: Tables, it: Item)
    requires FailsClean(t, it)
    ensures AddBlock(t, it.block, it.txs).Throw? && AddBlock(t, it.block, it.txs).left == t
  {
    var b, miner, n := it.block, it.block.minerTx, |it.txs|;
    if |b.txHashes| == n {
      FirstImage(t.spent, miner.vin, 0);
      var r := AddTransaction(t, miner.hash, miner);
      assert r.Throw? && r.left == t;
      RefusedAtOnce(t, b, it.txs, n);
    }
  }

  /**
  A failed add has written nothing exactly when the list sizes differ or its miner transaction was
  refused before anything was marked: without key inputs because its hash is indexed, else because
  its first key image is spent.
  */
  lemma {:induction false} FailedAddLeaves(t: Tables, it: Item)
    requires SupportedInputs(it.block.minerTx.vin) && AddBlock(t, it.block, it.txs).Throw?
    ensures AddBlock(t, it.block, it.txs).left == t <==> FailsClean(t, it)
  {
    hide AddTransaction, AppendBlock, ImageList, FailsClean, SupportedInputs;
    var b, miner, n := it.block, it.block.minerTx, |it.txs|;
    if FailsClean(t, it) {
      CleanFailure(t, it);
    } else {
      SizesAgree(t, it);
      var r := AddTransaction(t, miner.hash, miner);
      MinerWrites(t, it);
      if r.Throw? {
        RefusedAtOnce(t, b, it.txs, n);
      } else {
        assert AddTransactions(t, b, it.txs, 0) == r;
        MinerIndexed(t, b, it.txs, n);
        AppendKeepsIndex(After(AddTransactions(t, b, it.txs, n)), b, NumRctOuts(b, it.txs));
      }
    }
  }

  lemma {:induction false} SizesAgree(t: Tables, it: Item)
    requires !FailsClean(t, it)
    ensures |it.block.txHashes| == |it.txs|
  {}

  /** For a coinbase miner transaction the condition is about sizes and the hash alone. */
  lemma {:induction false} CoinbaseFailsClean(t: Tables, it: Item)
    requires it.block.minerTx.vin == [Gen]
    ensures FailsClean(t, it) <==> |it.block.txHashes| != |it.txs| || it.block.minerTx.hash in t.index
    ensures SupportedInputs(it.block.minerTx.vin)
  {
    assert ImageList(it.block.minerTx.vin, 1) == [];
    assert ImageList(it.block.minerTx.vin, 0) == [];
  }

  lemma {:induction false} RemoveKeepsBlocks(t: Tables, hash: Hash)
    ensures After(RemoveTransaction(t, hash)).blocks == t.blocks
  {
    hide RemoveOutputs, Images;
  }

  lemma {:induction false} RemovesKeepBlocks(t: Tables, b: Block, n: nat, txs: seq<Transaction>)
    requires n <= |b.txHashes|
    ensures After(RemoveTransactions(t, b, n, txs)).tables.blocks == t.blocks
    decreases n
  {
    hide RemoveTransaction;
    if n == 0 {
      RemoveKeepsBlocks(t, b.minerTx.hash);
    } else {
      RemoveKeepsBlocks(t, b.txHashes[n - 1]);
      if GetTx(t, b.txHashes[n - 1]).Some? && RemoveTransaction(t, b.txHashes[n - 1]).Ok? {
        var mid, tx := RemoveTransaction(t, b.txHashes[n - 1]).value, GetTx(t, b.txHashes[n - 1]).value;
        RemovesKeepBlocks(mid, b, n - 1, txs + [tx]);
      }
    }
  }

  /** A listed transaction is handed to the caller before it is removed, also when its removal fails. */
  lemma {:induction false} ListedBeforeRemoval(t: Tables, b: Block, n: nat, txs: seq<Transaction>)
    requires 0 < n <= |b.txHashes| && GetTx(t, b.txHashes[n - 1]).Some?
    ensures txs + [GetTx(t, b.txHashes[n - 1]).value] <= After(RemoveTransactions(t, b, n, txs)).txs
    decreases n
  {
    hide RemoveTransaction, GetTx;
    var hash, tx := b.txHashes[n - 1], GetTx(t, b.txHashes[n - 1]).value;
    if RemoveTransaction(t, hash).Ok? {
      var mid := RemoveTransaction(t, hash).value;
      if n > 1 && GetTx(mid, b.txHashes[n - 2]).Some? { ListedBeforeRemoval(mid, b, n - 1, txs + [tx]); }
    }
  }

  /** There is no top block, or none on record. */
  predicate PopFailsClean(t: Tables) {
    t.blocks == [] || |t.info| < |t.blocks|
  }

  /** A failed pop has removed nothing exactly when there was no top block to remove. */
  lemma {:induction false} FailedPopLeaves(t: Tables, txs: seq<Transaction>)
    ensures PopFailsClean(t) ==> PopBlock(t, txs).Throw?
    ensures PopBlock(t, txs).Throw? ==> (PopBlock(t, txs).left.tables == t <==> PopFailsClean(t))
  {
    hide RemoveTransactions;
    if !PopFailsClean(t) {
      var mid, b := RemoveTopBlock(t).value, t.blocks[|t.blocks| - 1];
      RemovesKeepBlocks(mid, b, |b.txHashes|, txs);
    }
  }

  // ----- Runs -----

  /** The database: its tables, and what they were when the open batch, if any, began. */
  datatype Store = Store(tables: Tables, batch: Option<Tables>)

  const EMPTY_STORE := Store(EMPTY_TABLES, None)

  datatype Op = Add(item: Item) | Pop | BatchStart | BatchStop | BatchAbort

  /** Outside a batch the storage layer discards what a throwing operation wrote; inside, it stays. */
  function Settle(s: Store, after: Tables, thrown: bool): Store {
    if thrown && s.batch.None? then s else s.(tables := after)
  }

  function Apply(s: Store, op: Op): Store {
    match op
    case Add(it) => var r := AddBlock(s.tables, it.block, it.txs); Settle(s, After(r), r.Throw?)
    case Pop => var r := PopBlock(s.tables, []); Settle(s, After(r).tables, r.Throw?)
    case BatchStart => if s.batch.None? then s.(batch := Some(s.tables)) else s
    case BatchStop => s.(batch := None)
    case BatchAbort => if s.batch.None? then s else Store(s.batch.value, None)
  }

  /** A failed add changes nothing exactly when no batch is open or it fails clean. */
  lemma {:induction false} FailedAddKeeps(s: Store, it: Item)
    requires SupportedInputs(it.block.minerTx.vin) && AddBlock(s.tables, it.block, it.txs).Throw?
    ensures Apply(s, Add(it)) == s <==> s.batch.None? || FailsClean(s.tables, it)
  {
    hide AddBlock, FailsClean, SupportedInputs;
    FailedAddLeaves(s.tables, it);
  }

  /** For a coinbase miner transaction: no batch, or list sizes that differ, or a hash already indexed. */
  lemma {:induction false} CoinbaseFailedAddKeeps(s: Store, it: Item)
    requires it.block.minerTx.vin == [Gen] && AddBlock(s.tables, it.block, it.txs).Throw?
    ensures Apply(s, Add(it)) == s
       <==> s.batch.None? || |it.block.txHashes| != |it.txs| || it.block.minerTx.hash in s.tables.index
  {
    hide AddBlock, FailsClean, SupportedInputs, Apply;
    CoinbaseFailsClean(s.tables, it);
    FailedAddKeeps(s, it);
  }

  /** A failed pop changes nothing exactly when no batch is open or there was no top block. */
  lemma {:induction false} FailedPopKeeps(s: Store)
    requires PopBlock(s.tables, []).Throw?
    ensures Apply(s, Pop) == s <==> s.batch.None? || PopFailsClean(s.tables)
  {
    hide PopBlock, PopFailsClean;
    FailedPopLeaves(s.tables, []);
  }

  function Run(ops: seq<Op>): Store {
    if ops == [] then EMPTY_STORE else Apply(Run(ops[..|ops| - 1]), ops[|ops| - 1])
  }

  /** The blocks on the chain now, and those that were on it when the open batch began. */
  datatype Chains = Chains(now: seq<Item>, atStart: Option<seq<Item>>)

  function Follow(c: Chains, s: Store, op: Op): Chains {
    match op
    case Add(it) => if AddBlock(s.tables, it.block, it.txs).Ok? then c.(now := c.now + [it]) else c
    case Pop => if c.now != [] && PopBlock(s.tables, []).Ok? then c.(now := c.now[..|c.now| - 1]) else c
    case BatchStart => if s.batch.None? then c.(atStart := Some(c.now)) else c
    case BatchStop => c.(atStart := None)
    case BatchAbort => if c.atStart.None? then c else Chains(c.atStart.value, None)
  }

  function ChainsAfter(ops: seq<Op>): Chains {
    if ops == [] then Chains([], None)
    else Follow(ChainsAfter(ops[..|ops| - 1]), Run(ops[..|ops| - 1]), ops[|ops| - 1])
  }

  /** The blocks that are on the chain after a run. */
  function ChainAfter(ops: seq<Op>): seq<Item> {
    ChainsAfter(ops).now
  }

  lemma {:induction false} RunSnoc(ops: seq<Op>, op: Op)
    ensures Run(ops + [op]) == Apply(Run(ops), op)
    ensures ChainsAfter(ops + [op]) == Follow(ChainsAfter(ops), Run(ops), op)
  {
    hide Apply, Follow;
    assert (ops + [op])[..|ops|] == ops;
  }

  /** The tables of a chain: its blocks added one after the other, nothing ever popped. */
  function Build(chain: seq<Item>): Result<Tables> {
    if chain == [] then Ok(EMPTY_TABLES)
    else match Build(chain[..|chain| - 1])
      case Throw(e, left) => Throw(e, left)
      case Ok(t) => AddBlock(t, chain[|chain| - 1].block, chain[|chain| - 1].txs)
  }

  ghost predicate AllSupported(chain: seq<Item>) {
    forall i :: 0 <= i < |chain| ==> SupportedItem(chain[i])
  }

  lemma {:induction false} EmptyOk()
    ensures TablesOk(EMPTY_TABLES)
  {
    var o := EMPTY_TABLES.outs;
    assert o.outputTxs == map[] && o.amounts == map[];
    assert |o.outputTxs| == 0 && |EMPTY_TABLES.txs| == 0;
    assert OutsOk(o);
  }

  lemma {:induction false} BuildOk(chain: seq<Item>)
    requires Build(chain).Ok?
    ensures TablesOk(Build(chain).value)
    ensures |Build(chain).value.blocks| == |chain|
    ensures forall i :: 0 <= i < |chain| ==> Build(chain).value.blocks[i] == chain[i].block
  {
    if chain == [] {
      EmptyOk();
    } else {
      hide AddBlock, TablesOk;
      BuildOk(chain[..|chain| - 1]);
      AddBlockKeeps(Build(chain[..|chain| - 1]).value, chain[|chain| - 1]);
    }
  }

  lemma {:induction false} PrefixBuilds(chain: seq<Item>, k: nat)
    requires k <= |chain| && Build(chain).Ok?
    ensures Build(chain[..k]).Ok?
    decreases |chain|
  {
    if k == |chain| {
      assert chain[..k] == chain;
    } else {
      PrefixBuilds(chain[..|chain| - 1], k);
      assert chain[..|chain| - 1][..k] == chain[..k];
    }
  }

  /** Popping a built chain: it fails clean if there is nothing, and undoes a reversible top block. */
  lemma {:induction false} PopBuilt(chain: seq<Item>)
    requires Build(chain).Ok?
    ensures PopFailsClean(Build(chain).value) <==> chain == []
    ensures chain == [] ==> PopBlock(Build(chain).value, []).Throw?
    ensures chain != [] && ReversibleItem(chain[|chain| - 1]) ==>
              && PopBlock(Build(chain).value, []).Ok?
              && Build(chain[..|chain| - 1]) == Ok(PopBlock(Build(chain).value, []).value.tables)
  {
    hide AddBlock, PopBlock, TablesOk, ReversibleItem;
    BuildOk(chain);
    InfoLength(Build(chain).value);
    if chain == [] {
      FailedPopLeaves(Build(chain).value, []);
    } else if ReversibleItem(chain[|chain| - 1]) {
      var front := chain[..|chain| - 1];
      BuildOk(front);
      PopUndoesAdd(Build(front).value, chain[|chain| - 1], []);
    }
  }

  // ----- What makes the tables differ from those of the chain -----

  ghost predicate CleanAdd(s: Store, it: Item) {
    s.batch.Some? && AddBlock(s.tables, it.block, it.txs).Throw? ==> FailsClean(s.tables, it)
  }

  ghost predicate CleanPop(s: Store) {
    s.batch.Some? && PopBlock(s.tables, []).Throw? ==> PopFailsClean(s.tables)
  }

  /** The pop succeeds on a block that cannot be undone. */
  ghost predicate PopsIrreversible(s: Store, c: Chains) {
    c.now != [] && PopBlock(s.tables, []).Ok? && !ReversibleItem(c.now[|c.now| - 1])
  }

  /** Whether the tables are off now, and whether they were when the open batch began. */
  datatype Residue = Residue(now: bool, atStart: bool)

  /**
  The tables go off by an unclean failure inside a batch and, as far as the tables of outputs are
  concerned, by popping an irreversible block.  Aborting the batch puts them right again.
  */
  ghost function Spoil(x: Residue, s: Store, c: Chains, op: Op, outputs: bool): Residue {
    match op
    case Add(it) => x.(now := x.now || !CleanAdd(s, it))
    case Pop => x.(now := x.now || !CleanPop(s) || (outputs && PopsIrreversible(s, c)))
    case BatchStart => if s.batch.None? then x.(atStart := x.now) else x
    case BatchStop => x
    case BatchAbort => if s.batch.None? then x else x.(now := x.atStart)
  }

  ghost function ResidueAfter(ops: seq<Op>, outputs: bool): Residue {
    if ops == [] then Residue(false, false)
    else
      var front := ops[..|ops| - 1];
      Spoil(ResidueAfter(front, outputs), Run(front), ChainsAfter(front), ops[|ops| - 1], outputs)
  }

  /** Without batches only irreversible blocks matter. */
  lemma {:induction false} NoBatchIsClean(ops: seq<Op>)
    requires BatchStart !in ops
    ensures Run(ops).batch.None? && !ResidueAfter(ops, false).now
    ensures (forall i :: 0 <= i < |ops| && ops[i].Add? ==> ReversibleItem(ops[i].item)) ==> !ResidueAfter(ops, true).now
  {
    NoBatchNoFailure(ops);
    if forall i :: 0 <= i < |ops| && ops[i].Add? ==> ReversibleItem(ops[i].item) { ReversibleRunIsClean(ops); }
  }

  lemma {:induction false} NoBatchNoFailure(ops: seq<Op>)
    requires BatchStart !in ops
    ensures Run(ops).batch.None? && !ResidueAfter(ops, false).now
  {
    if ops != [] {
      assert ops[|ops| - 1] in ops;
      hide AddBlock, PopBlock;
      NoBatchNoFailure(ops[..|ops| - 1]);
    }
  }

  /** Every block on the chain, now or when the batch began, came from an add of the run. */
  ghost predicate FromAdds(c: Chains, ops: seq<Op>) {
    && (forall it :: it in c.now ==> Add(it) in ops)
    && (c.atStart.Some? ==> forall it :: it in c.atStart.value ==> Add(it) in ops)
  }

  lemma {:induction false} FollowFromAdds(c: Chains, s: Store, ops: seq<Op>, op: Op)
    requires FromAdds(c, ops)
    ensures FromAdds(Follow(c, s, op), ops + [op])
  {
    hide AddBlock, PopBlock;
    assert op in ops + [op];
    assert forall o :: o in ops ==> o in ops + [op];
  }

  lemma {:induction false} ChainFromAdds(ops: seq<Op>)
    ensures FromAdds(ChainsAfter(ops), ops)
  {
    if ops != [] {
      hide Follow, FromAdds, Run;
      var front := ops[..|ops| - 1];
      ChainFromAdds(front);
      FollowFromAdds(ChainsAfter(front), Run(front), front, ops[|ops| - 1]);
      assert front + [ops[|ops| - 1]] == ops;
    } else {
      assert ChainsAfter(ops) == Chains([], None);
    }
  }

  /** If all added blocks are reversible, the tables of outputs go off only where the others do. */
  lemma {:induction false} ReversibleRunIsClean(ops: seq<Op>)
    requires forall i :: 0 <= i < |ops| && ops[i].Add? ==> ReversibleItem(ops[i].item)
    ensures ResidueAfter(ops, true) == ResidueAfter(ops, false)
  {
    if ops != [] {
      hide Run, ReversibleItem, CleanAdd, CleanPop;
      var front, c := ops[..|ops| - 1], ChainsAfter(ops[..|ops| - 1]);
      ReversibleRunIsClean(front);
      ChainFromAdds(front);
      if c.now != [] {
        var top := c.now[|c.now| - 1];
        assert top in c.now;
        var k :| 0 <= k < |front| && front[k] == Add(top);
        assert ops[k] == Add(top);
      }
      hide ChainsAfter;
    }
  }

  // ----- Every run -----

  /** Where they are not off, the tables are those of the chain, and so are those saved for a batch. */
  ghost predicate Matches(x: Residue, s: Store, c: Chains) {
    && (!x.now ==> Build(c.now) == Ok(s.tables))
    && (s.batch.Some? <==> c.atStart.Some?)
    && (s.batch.Some? && !x.atStart ==> Build(c.atStart.value) == Ok(s.batch.value))
  }

  lemma {:induction false} BuildSnoc(chain: seq<Item>, it: Item)
    requires Build(chain).Ok?
    ensures Build(chain + [it]) == AddBlock(Build(chain).value, it.block, it.txs)
  {
    hide AddBlock;
    assert (chain + [it])[..|chain|] == chain;
  }

  lemma {:induction false} AddMatches(x: Residue, s: Store, c: Chains, it: Item)
    requires Matches(x, s, c)
    ensures Matches(Spoil(x, s, c, Add(it), true), Apply(s, Add(it)), Follow(c, s, Add(it)))
  {
    hide AddBlock, Build, FailsClean;
    if FailsClean(s.tables, it) { CleanFailure(s.tables, it); }
    if !x.now { BuildSnoc(c.now, it); }
  }

  lemma {:induction false} PopMatches(x: Residue, s: Store, c: Chains)
    requires Matches(x, s, c)
    ensures Matches(Spoil(x, s, c, Pop, true), Apply(s, Pop), Follow(c, s, Pop))
  {
    hide PopBlock, Build, PopFailsClean, ReversibleItem;
    if !x.now {
      PopBuilt(c.now);
      FailedPopLeaves(s.tables, []);
    }
  }

  lemma {:induction false} ApplyMatches(x: Residue, s: Store, c: Chains, op: Op)
    requires Matches(x, s, c)
    ensures Matches(Spoil(x, s, c, op, true), Apply(s, op), Follow(c, s, op))
  {
    match op {
      case Add(it) =>
        hide *;
        AddMatches(x, s, c, it);
      case Pop =>
        hide *;
        PopMatches(x, s, c);
      case _ =>
        hide AddBlock, PopBlock, Build;
    }
  }

  lemma {:induction false} RunMatches(ops: seq<Op>)
    ensures Matches(ResidueAfter(ops, true), Run(ops), ChainsAfter(ops))
  {
    if ops != [] {
      hide Apply, Follow, Spoil, Matches;
      var front := ops[..|ops| - 1];
      RunMatches(front);
      ApplyMatches(ResidueAfter(front, true), Run(front), ChainsAfter(front), ops[|ops| - 1]);
    }
  }

  /**
  After any run of adds and pops of any blocks, of batches started, committed and aborted, failures
  included: the tables are exactly those of the chain that is left, unless an operation failed
  inside a batch after it had written something, or a pop took off an irreversible block, and no
  abort of a batch has put that right.
  */
  lemma {:induction false} RunIsBuild(ops: seq<Op>)
    requires !ResidueAfter(ops, true).now
    ensures Build(ChainAfter(ops)) == Ok(Run(ops).tables)
  {
    RunMatches(ops);
    hide Run, ResidueAfter, ChainsAfter;
  }

  // ----- Spent keys -----

  /** Key images of the miner transaction and the first n listed ones. */
  function TxImages(it: Item, n: nat): seq<KeyImage>
    requires n <= |it.txs|
  {
    if n == 0 then ImageList(it.block.minerTx.vin, 0)
    else TxImages(it, n - 1) + ImageList(it.txs[n - 1].vin, 0)
  }

  function ChainImages(chain: seq<Item>): seq<KeyImage> {
    if chain == [] then []
    else ChainImages(chain[..|chain| - 1]) + TxImages(chain[|chain| - 1], |chain[|chain| - 1].txs|)
  }

  /** The spent set lists each image of the sequence, and no image occurs twice. */
  ghost predicate SpentIs(t: Tables, images: seq<KeyImage>) {
    Distinct(images) && t.spent == Elements(images)
  }

  lemma {:induction false} AddTransactionSpent(t: Tables, hash: Hash, tx: Transaction, images: seq<KeyImage>)
    requires SpentIs(t, images) && SupportedInputs(tx.vin) && AddTransaction(t, hash, tx).Ok?
    ensures SpentIs(AddTransaction(t, hash, tx).value, images + ImageList(tx.vin, 0))
  {
    AddInputsInverse(t.spent, tx.vin);
    AddInputsDistinct(images, tx.vin, 0);
  }

  lemma {:induction false} AddTransactionsSpent(t: Tables, it: Item, n: nat, images: seq<KeyImage>)
    requires n <= |it.txs| == |it.block.txHashes| && SpentIs(t, images) && SupportedItem(it)
    requires AddTransactions(t, it.block, it.txs, n).Ok?
    ensures SpentIs(AddTransactions(t, it.block, it.txs, n).value, images + TxImages(it, n))
    decreases n
  {
    hide AddTransaction, SpentIs;
    var b := it.block;
    if n == 0 {
      AddTransactionSpent(t, b.minerTx.hash, b.minerTx, images);
    } else {
      AddTransactionsSpent(t, it, n - 1, images);
      var mid := AddTransactions(t, b, it.txs, n - 1).value;
      AddTransactionSpent(mid, b.txHashes[n - 1], it.txs[n - 1], images + TxImages(it, n - 1));
      assert images + TxImages(it, n - 1) + ImageList(it.txs[n - 1].vin, 0) == images + TxImages(it, n);
    }
  }

  lemma {:induction false} BuildSpent(chain: seq<Item>)
    requires Build(chain).Ok? && AllSupported(chain)
    ensures SpentIs(Build(chain).value, ChainImages(chain))
  {
    if chain != [] {
      var front, last := chain[..|chain| - 1], chain[|chain| - 1];
      BuildSpent(front);
      AddTransactionsSpent(Build(front).value, last, |last.txs|, ChainImages(front));
    }
  }

  /**
  What holds after every run: output ids, transaction ids and amount lists are dense, each stored
  transaction's recorded indices point at its own outputs, and if the blocks on the chain have
  supported inputs, the spent set is the disjoint union of their key images.
  */
  lemma {:induction false} EveryRun(ops: seq<Op>)
    requires !ResidueAfter(ops, true).now
    ensures TablesOk(Run(ops).tables)
    ensures AllSupported(ChainAfter(ops)) ==> SpentIs(Run(ops).tables, ChainImages(ChainAfter(ops)))
  {
    RunIsBuild(ops);
    hide Run, ChainAfter, ResidueAfter, TablesOk, SpentIs;
    BuildOk(ChainAfter(ops));
    if AllSupported(ChainAfter(ops)) { BuildSpent(ChainAfter(ops)); }
  }
}
