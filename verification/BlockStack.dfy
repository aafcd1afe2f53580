/**
The tables other than those of outputs behave as a stack, whatever happens to the output tables:
popping takes off exactly what adding put on.  From this follow the exact spent keys after every
run, and the exact condition for a pop to undo an add.
*/
module BlockStack {
  import opened Wrappers
  import opened BlockTables
  import opened BlockOutputs
  import opened BlockTheorems
  import opened BlockRuns
  import opened BlockRct

  datatype Core = Core(blocks: seq<Block>, info: seq<BlockInfo>, heights: map<Hash, nat>,
                       index: map<Hash, TxIndex>, txs: map<nat, Transaction>, spent: set<KeyImage>)

  function CoreOf(t: Tables): Core {
    Core(t.blocks, t.info, t.heights, t.index, t.txs, t.spent)
  }

  // ----- Adding depends on the core only -----

  lemma {:induction false} OutputsAccepted(o: Outputs, p: Outputs, hash: Hash, tx: Transaction, n: nat, height: nat)
    requires n <= |tx.vout|
    ensures AddOutputs(o, hash, tx, n, height).Ok? <==> AddOutputs(p, hash, tx, n, height).Ok?
  {
    if n > 0 { OutputsAccepted(o, p, hash, tx, n - 1, height); }
  }

  lemma {:induction false} AddTransactionCore(t: Tables, u: Tables, hash: Hash, tx: Transaction)
    requires CoreOf(t) == CoreOf(u)
    ensures var r, q := AddTransaction(t, hash, tx), AddTransaction(u, hash, tx);
            && (r.Ok? <==> q.Ok?)
            && (r.Ok? ==> CoreOf(r.value) == CoreOf(q.value))
  {
    hide AddInputs, AddOutputs, OutputIndices, Storable;
    OutputsAccepted(t.outs, u.outs, hash, tx, |tx.vout|, |t.blocks|);
  }

  lemma {:induction false} AddTransactionsCore(t: Tables, u: Tables, b: Block, txs: seq<Transaction>, n: nat)
    requires CoreOf(t) == CoreOf(u) && n <= |txs| == |b.txHashes|
    ensures var r, q := AddTransactions(t, b, txs, n), AddTransactions(u, b, txs, n);
            && (r.Ok? <==> q.Ok?)
            && (r.Ok? ==> CoreOf(r.value) == CoreOf(q.value))
    decreases n
  {
    hide AddTransaction, CoreOf;
    if n == 0 {
      AddTransactionCore(t, u, b.minerTx.hash, b.minerTx);
    } else {
      AddTransactionsCore(t, u, b, txs, n - 1);
      var r, q := AddTransactions(t, b, txs, n - 1), AddTransactions(u, b, txs, n - 1);
      if r.Ok? { AddTransactionCore(r.value, q.value, b.txHashes[n - 1], txs[n - 1]); }
    }
  }

  lemma {:induction false} AppendCore(t: Tables, u: Tables, b: Block, numRct: nat)
    requires CoreOf(t) == CoreOf(u)
    ensures var r, q := AppendBlock(t, b, numRct), AppendBlock(u, b, numRct);
            && (r.Ok? <==> q.Ok?)
            && (r.Ok? ==> CoreOf(r.value) == CoreOf(q.value))
  {}

  lemma {:induction false} AddBlockCore(t: Tables, u: Tables, it: Item)
    requires CoreOf(t) == CoreOf(u)
    ensures var r, q := AddBlock(t, it.block, it.txs), AddBlock(u, it.block, it.txs);
            && (r.Ok? <==> q.Ok?)
            && (r.Ok? ==> CoreOf(r.value) == CoreOf(q.value))
  {
    var b, n := it.block, |it.txs|;
    if |b.txHashes| == n {
      AddTransactionsCore(t, u, b, it.txs, n);
      var r, q := AddTransactions(t, b, it.txs, n), AddTransactions(u, b, it.txs, n);
      hide AddTransactions, AppendBlock, CoreOf;
      if r.Ok? { AppendCore(r.value, q.value, b, NumRctOuts(b, it.txs)); }
    }
  }

  // ----- Popping takes off what adding put on -----

  /** A removal that succeeds on tables with the core that adding gave restores the core before. */
  lemma {:induction false} RemoveTransactionCore(t: Tables, hash: Hash, tx: Transaction, later: Tables)
    requires |t.txs| !in t.txs && SupportedInputs(tx.vin) && AddTransaction(t, hash, tx).Ok?
    requires CoreOf(later) == CoreOf(AddTransaction(t, hash, tx).value)
    ensures GetTx(later, hash) == Some(tx)
    ensures RemoveTransaction(later, hash).Ok? ==> CoreOf(RemoveTransaction(later, hash).value) == CoreOf(t)
  {
    AddInputsInverse(t.spent, tx.vin);
    PutThenDrop(t.txs, |t.txs|, tx);
    hide AddInputs, AddOutputs, OutputIndices, RemoveOutputs, Images;
    PutThenDrop(t.index, hash, TxIndex(|t.txs|, |t.blocks|));
  }

  lemma {:induction false} NextIdFree(t: Tables)
    requires TablesOk(t)
    ensures |t.txs| !in t.txs
  {}

  lemma {:induction false} RemoveTransactionsCore(t: Tables, it: Item, n: nat, later: Tables, before: seq<Transaction>)
    requires n <= |it.txs| == |it.block.txHashes| && TablesOk(t) && SupportedItem(it)
    requires AddTransactions(t, it.block, it.txs, n).Ok?
    requires CoreOf(later) == CoreOf(AddTransactions(t, it.block, it.txs, n).value)
    ensures var r := RemoveTransactions(later, it.block, n, before);
            r.Ok? ==> && CoreOf(r.value.tables) == CoreOf(t)
                      && r.value.txs == before + LastFirst(it.txs, n)
                      && ZeroOutputs(r.value.tables.outs) + RemovedZero(it.block.minerTx, |it.block.minerTx.vout|)
                         + RemovedZeroAll(it.txs, n) == ZeroOutputs(later.outs)
    decreases n
  {
    var b := it.block;
    hide AddTransaction, RemoveTransaction, TablesOk, CoreOf, GetTx, ZeroOutputs, RemovedZero, SupportedInputs;
    if n == 0 {
      NextIdFree(t);
      RemoveTransactionCore(t, b.minerTx.hash, b.minerTx, later);
      RemoveTransactionZero(later, b.minerTx.hash);
      assert before + LastFirst(it.txs, 0) == before;
    } else {
      var mid, tx, hash := AddTransactions(t, b, it.txs, n - 1).value, it.txs[n - 1], b.txHashes[n - 1];
      AddTransactionsKeeps(t, b, it.txs, n - 1);
      NextIdFree(mid);
      RemoveTransactionCore(mid, hash, tx, later);
      RemoveTransactionZero(later, hash);
      if RemoveTransaction(later, hash).Ok? {
        RemoveTransactionsCore(t, it, n - 1, RemoveTransaction(later, hash).value, before + [tx]);
        assert before + [tx] + LastFirst(it.txs, n - 1) == before + LastFirst(it.txs, n);
      }
    }
  }

  function RemovedZeroAll(txs: seq<Transaction>, n: nat): nat
    requires n <= |txs|
  {
    if n == 0 then 0 else RemovedZeroAll(txs, n - 1) + RemovedZero(txs[n - 1], |txs[n - 1].vout|)
  }

  lemma {:induction false} RemoveTransactionZero(t: Tables, hash: Hash)
    ensures RemoveTransaction(t, hash).Ok? && GetTx(t, hash).Some? ==>
              var tx := GetTx(t, hash).value;
              ZeroOutputs(RemoveTransaction(t, hash).value.outs) + RemovedZero(tx, |tx.vout|) == ZeroOutputs(t.outs)
  {
    hide RemoveOutputs, Images, ZeroOutputs;
    if RemoveTransaction(t, hash).Ok? && GetTx(t, hash).Some? {
      var tx, id := GetTx(t, hash).value, t.index[hash].txId;
      RemoveOutputsZero(t.outs, tx, if id in t.txOutputs then t.txOutputs[id] else [], |tx.vout|);
    }
  }

  lemma {:induction false} PopBlockCore(t: Tables, it: Item, later: Tables, before: seq<Transaction>)
    requires TablesOk(t) && SupportedItem(it) && AddBlock(t, it.block, it.txs).Ok?
    requires CoreOf(later) == CoreOf(AddBlock(t, it.block, it.txs).value)
    ensures var r := PopBlock(later, before);
            r.Ok? ==> && CoreOf(r.value.tables) == CoreOf(t)
                      && r.value.txs == before + LastFirst(it.txs, |it.txs|)
                      && ZeroOutputs(r.value.tables.outs) + RemovedZero(it.block.minerTx, |it.block.minerTx.vout|)
                         + RemovedZeroAll(it.txs, |it.txs|) == ZeroOutputs(later.outs)
  {
    var b, n := it.block, |it.txs|;
    var mid := AddTransactions(t, b, it.txs, n).value;
    AddTransactionsKeeps(t, b, it.txs, n);
    InfoLength(mid);
    AppendThenRemoveTop(mid, b, NumRctOuts(b, it.txs));
    RemoveTopCore(AddBlock(t, b, it.txs).value, later);
    hide AddTransactions, RemoveTransactions, AppendBlock, RemoveTopBlock, TablesOk, RemovedZero, ZeroOutputs;
    RemoveTransactionsCore(t, it, n, RemoveTopBlock(later).value, before);
  }

  lemma {:induction false} RemoveTopCore(t: Tables, u: Tables)
    requires CoreOf(t) == CoreOf(u)
    ensures var r, q := RemoveTopBlock(t), RemoveTopBlock(u);
            && (r.Ok? <==> q.Ok?)
            && (r.Ok? ==> CoreOf(r.value) == CoreOf(q.value) && q.value.outs == u.outs)
  {}

  // ----- Spent keys after every run -----

  ghost predicate IsCoreOf(t: Tables, chain: seq<Item>) {
    Build(chain).Ok? && CoreOf(Build(chain).value) == CoreOf(t) && AllSupported(chain)
  }

  /** Partial writes aside, the cores are those of the chain, whatever the output tables hold. */
  ghost predicate MatchesCore(x: Residue, s: Store, c: Chains) {
    && (!x.now ==> IsCoreOf(s.tables, c.now))
    && (s.batch.Some? <==> c.atStart.Some?)
    && (s.batch.Some? && !x.atStart ==> IsCoreOf(s.batch.value, c.atStart.value))
  }

  lemma {:induction false} PoppedCore(t: Tables, chain: seq<Item>)
    requires Build(chain).Ok? && CoreOf(Build(chain).value) == CoreOf(t) && AllSupported(chain)
    ensures chain == [] ==> PopBlock(t, []).Throw?
    ensures chain != [] && PopBlock(t, []).Ok? ==>
              && Build(chain[..|chain| - 1]).Ok?
              && CoreOf(Build(chain[..|chain| - 1]).value) == CoreOf(PopBlock(t, []).value.tables)
  {
    BuildOk(chain);
    if chain == [] {
      assert t.blocks == [];
    } else {
      var front, it := chain[..|chain| - 1], chain[|chain| - 1];
      BuildOk(front);
      hide PopBlock, AddBlock, TablesOk, CoreOf, SupportedItem;
      PopBlockCore(Build(front).value, it, t, []);
    }
  }

  lemma {:induction false} AllSupportedSnoc(chain: seq<Item>, it: Item)
    requires AllSupported(chain) && SupportedItem(it)
    ensures AllSupported(chain + [it])
  {
    hide SupportedItem;
  }

  lemma {:induction false} AllSupportedFront(chain: seq<Item>)
    requires AllSupported(chain) && chain != []
    ensures AllSupported(chain[..|chain| - 1])
  {
    hide SupportedItem;
  }

  lemma {:induction false} AddIsCoreOf(t: Tables, chain: seq<Item>, it: Item)
    requires IsCoreOf(t, chain) && SupportedItem(it) && AddBlock(t, it.block, it.txs).Ok?
    ensures IsCoreOf(AddBlock(t, it.block, it.txs).value, chain + [it])
  {
    hide AddBlock, Build, SupportedItem, AllSupported, CoreOf;
    BuildSnoc(chain, it);
    AddBlockCore(Build(chain).value, t, it);
    AllSupportedSnoc(chain, it);
  }

  lemma {:induction false} PopIsCoreOf(t: Tables, chain: seq<Item>)
    requires IsCoreOf(t, chain) && PopBlock(t, []).Ok?
    ensures chain != [] && IsCoreOf(PopBlock(t, []).value.tables, chain[..|chain| - 1])
  {
    hide PopBlock, Build, AllSupported, CoreOf;
    PoppedCore(t, chain);
    AllSupportedFront(chain);
  }

  lemma {:induction false} AddMatchesCore(x: Residue, s: Store, c: Chains, it: Item)
    requires MatchesCore(x, s, c) && SupportedItem(it)
    ensures MatchesCore(Spoil(x, s, c, Add(it), false), Apply(s, Add(it)), Follow(c, s, Add(it)))
  {
    hide AddBlock, IsCoreOf, SupportedItem, FailsClean;
    if FailsClean(s.tables, it) { CleanFailure(s.tables, it); }
    if !x.now && AddBlock(s.tables, it.block, it.txs).Ok? { AddIsCoreOf(s.tables, c.now, it); }
  }

  lemma {:induction false} PopMatchesCore(x: Residue, s: Store, c: Chains)
    requires MatchesCore(x, s, c)
    ensures MatchesCore(Spoil(x, s, c, Pop, false), Apply(s, Pop), Follow(c, s, Pop))
  {
    hide PopBlock, IsCoreOf, PopFailsClean;
    FailedPopLeaves(s.tables, []);
    if !x.now && PopBlock(s.tables, []).Ok? { PopIsCoreOf(s.tables, c.now); }
    hide PopsIrreversible;
  }

  lemma {:induction false} ApplyMatchesCore(x: Residue, s: Store, c: Chains, op: Op)
    requires MatchesCore(x, s, c) && (op.Add? ==> SupportedItem(op.item))
    ensures MatchesCore(Spoil(x, s, c, op, false), Apply(s, op), Follow(c, s, op))
  {
    match op {
      case Add(it) =>
        hide *;
        AddMatchesCore(x, s, c, it);
      case Pop =>
        hide *;
        PopMatchesCore(x, s, c);
      case _ =>
        hide AddBlock, PopBlock, IsCoreOf;
    }
  }

  lemma {:induction false} RunMatchesCore(ops: seq<Op>)
    requires forall i :: 0 <= i < |ops| && ops[i].Add? ==> SupportedItem(ops[i].item)
    ensures MatchesCore(ResidueAfter(ops, false), Run(ops), ChainsAfter(ops))
  {
    if ops != [] {
      hide Apply, Follow, Spoil, SupportedItem, MatchesCore;
      var front := ops[..|ops| - 1];
      RunMatchesCore(front);
      ApplyMatchesCore(ResidueAfter(front, false), Run(front), ChainsAfter(front), ops[|ops| - 1]);
    }
  }

  /**
  After every run of blocks with supported inputs, whatever their amounts, the spent set is exactly
  the key images of the blocks on the chain, none of them twice.
  */
  lemma {:induction false} RunSpent(ops: seq<Op>)
    requires !ResidueAfter(ops, false).now
    requires forall i :: 0 <= i < |ops| && ops[i].Add? ==> SupportedItem(ops[i].item)
    ensures SpentIs(Run(ops).tables, ChainImages(ChainAfter(ops)))
  {
    RunMatchesCore(ops);
    BuildSpent(ChainAfter(ops));
    hide Run, ChainsAfter, Build, ChainImages, ResidueAfter;
  }

  // ----- When a pop undoes an add -----

  /** At least as many outputs are listed under amount 0 as are looked for there. */
  lemma {:induction false} ZeroDifference(tx: Transaction)
    requires Storable(tx)
    ensures StoredZero(tx, |tx.vout|) >= RemovedZero(tx, |tx.vout|)
    ensures StoredZero(tx, |tx.vout|) == RemovedZero(tx, |tx.vout|) <==> AmountsAgree(tx)
  {
    CountZeroAllZero(tx.vout);
    assert tx.vout[..|tx.vout|] == tx.vout;
    if RemovedAsZero(tx) { assert tx.vin[0] == Gen; }
  }

  lemma {:induction false} ZeroDifferences(txs: seq<Transaction>, n: nat)
    requires n <= |txs| && forall i :: 0 <= i < n ==> Storable(txs[i])
    ensures StoredZeroAll(txs, n) >= RemovedZeroAll(txs, n)
    ensures StoredZeroAll(txs, n) == RemovedZeroAll(txs, n) <==> forall i :: 0 <= i < n ==> AmountsAgree(txs[i])
  {
    if n > 0 {
      hide AmountsAgree, StoredZero, RemovedZero, Storable;
      ZeroDifferences(txs, n - 1);
      ZeroDifference(txs[n - 1]);
    }
  }

  predicate StorableItem(it: Item) {
    Storable(it.block.minerTx) && forall i :: 0 <= i < |it.txs| ==> Storable(it.txs[i])
  }

  lemma {:induction false} AcceptedAllStorable(t: Tables, it: Item, n: nat)
    requires n <= |it.txs| == |it.block.txHashes| && SupportedItem(it) && AddTransactions(t, it.block, it.txs, n).Ok?
    ensures Storable(it.block.minerTx) && forall i :: 0 <= i < n ==> Storable(it.txs[i])
    decreases n
  {
    hide AddTransaction, Storable, SupportedInputs;
    if n == 0 {
      AcceptedStorable(t, it.block.minerTx.hash, it.block.minerTx);
    } else {
      AcceptedAllStorable(t, it, n - 1);
      AcceptedStorable(AddTransactions(t, it.block, it.txs, n - 1).value, it.block.txHashes[n - 1], it.txs[n - 1]);
    }
  }

  // Unsupported transactions are not stored, but removed: the index would come out smaller.

  function SupportedCount(txs: seq<Transaction>, n: nat): (c: nat)
    requires n <= |txs|
    ensures c <= n
    ensures c == n <==> forall i :: 0 <= i < n ==> SupportedInputs(txs[i].vin)
  {
    if n == 0 then 0 else SupportedCount(txs, n - 1) + if SupportedInputs(txs[n - 1].vin) then 1 else 0
  }

  lemma {:induction false} IndexGrowth(t: Tables, hash: Hash, tx: Transaction)
    requires AddTransaction(t, hash, tx).Ok?
    ensures |AddTransaction(t, hash, tx).value.index| == |t.index| + if SupportedInputs(tx.vin) then 1 else 0
  {
    AddInputsInverse(t.spent, tx.vin);
    hide AddInputs, AddOutputs, OutputIndices, Images, SupportedInputs;
    assert hash !in t.index ==> |t.index[hash := TxIndex(|t.txs|, |t.blocks|)]| == |t.index| + 1;
  }

  lemma {:induction false} IndexGrowths(t: Tables, b: Block, txs: seq<Transaction>, n: nat)
    requires n <= |txs| == |b.txHashes| && AddTransactions(t, b, txs, n).Ok?
    ensures |AddTransactions(t, b, txs, n).value.index|
            == |t.index| + (if SupportedInputs(b.minerTx.vin) then 1 else 0) + SupportedCount(txs, n)
    decreases n
  {
    hide AddTransaction, SupportedInputs;
    if n == 0 {
      IndexGrowth(t, b.minerTx.hash, b.minerTx);
    } else {
      IndexGrowths(t, b, txs, n - 1);
      IndexGrowth(AddTransactions(t, b, txs, n - 1).value, b.txHashes[n - 1], txs[n - 1]);
    }
  }

  lemma {:induction false} IndexShrinks(t: Tables, hash: Hash)
    requires RemoveTransaction(t, hash).Ok?
    ensures |RemoveTransaction(t, hash).value.index| + 1 == |t.index|
  {
    hide RemoveOutputs, Images;
    assert hash in t.index && (t.index - {hash}).Keys == t.index.Keys - {hash};
  }

  lemma {:induction false} IndexShrinkage(t: Tables, b: Block, n: nat, before: seq<Transaction>)
    requires n <= |b.txHashes| && RemoveTransactions(t, b, n, before).Ok?
    ensures |RemoveTransactions(t, b, n, before).value.tables.index| + n + 1 == |t.index|
    decreases n
  {
    hide RemoveTransaction;
    if n == 0 {
      IndexShrinks(t, b.minerTx.hash);
    } else {
      IndexShrinks(t, b.txHashes[n - 1]);
      var mid, tx := RemoveTransaction(t, b.txHashes[n - 1]).value, GetTx(t, b.txHashes[n - 1]).value;
      IndexShrinkage(mid, b, n - 1, before + [tx]);
    }
  }

  lemma {:induction false} UndoneIsSupported(t: Tables, it: Item, before: seq<Transaction>)
    requires AddBlock(t, it.block, it.txs).Ok? && PopBlock(AddBlock(t, it.block, it.txs).value, before).Ok?
    requires |PopBlock(AddBlock(t, it.block, it.txs).value, before).value.tables.index| == |t.index|
    requires var mid := AddTransactions(t, it.block, it.txs, |it.txs|).value;
             |mid.info| == |mid.blocks|
    ensures SupportedItem(it)
  {
    var b, n := it.block, |it.txs|;
    var mid := AddTransactions(t, b, it.txs, n).value;
    AppendThenRemoveTop(mid, b, NumRctOuts(b, it.txs));
    hide AddTransactions, RemoveTransactions, AppendBlock, RemoveTopBlock, SupportedInputs;
    IndexGrowths(t, b, it.txs, n);
    IndexShrinkage(mid, b, n, before);
  }

  /** The pop succeeds and all tables are as before the add. */
  ghost predicate Undone(t: Tables, it: Item, before: seq<Transaction>)
    requires AddBlock(t, it.block, it.txs).Ok?
  {
    var r := PopBlock(AddBlock(t, it.block, it.txs).value, before);
    r.Ok? && r.value.tables == t
  }

  /** What a pop leaves too much in the amount-0 list. */
  function ZeroSurplus(it: Item): int {
    var miner, n := it.block.minerTx, |it.txs|;
    var stored := StoredZero(miner, |miner.vout|) + StoredZeroAll(it.txs, n);
    stored - RemovedZero(miner, |miner.vout|) - RemovedZeroAll(it.txs, n)
  }

  lemma {:induction false} AddBlockZero(t: Tables, it: Item)
    requires TablesOk(t) && SupportedItem(it) && AddBlock(t, it.block, it.txs).Ok?
    ensures ZeroOutputs(AddBlock(t, it.block, it.txs).value.outs)
            == ZeroOutputs(t.outs) + StoredZero(it.block.minerTx, |it.block.minerTx.vout|)
               + StoredZeroAll(it.txs, |it.txs|)
  {
    hide AddTransactions, TablesOk, ZeroOutputs, StoredZero, SupportedItem;
    AddTransactionsZero(t, it, |it.txs|);
  }

  /** After add and pop the amount-0 list is longer by the surplus. */
  lemma {:induction false} SurplusStays(t: Tables, it: Item, before: seq<Transaction>)
    requires TablesOk(t) && SupportedItem(it) && AddBlock(t, it.block, it.txs).Ok?
    requires PopBlock(AddBlock(t, it.block, it.txs).value, before).Ok?
    ensures ZeroOutputs(PopBlock(AddBlock(t, it.block, it.txs).value, before).value.tables.outs)
            == ZeroOutputs(t.outs) + ZeroSurplus(it)
  {
    AddBlockZero(t, it);
    hide AddBlock, PopBlock, TablesOk, ZeroOutputs, StoredZero, RemovedZero, SupportedItem;
    PopBlockCore(t, it, AddBlock(t, it.block, it.txs).value, before);
  }

  /** An accepted block has no negative surplus, and none exactly when it is reversible. */
  lemma {:induction false} SurplusIff(t: Tables, it: Item)
    requires SupportedItem(it) && AddBlock(t, it.block, it.txs).Ok?
    ensures ZeroSurplus(it) >= 0 && (ZeroSurplus(it) == 0 <==> ReversibleItem(it))
  {
    hide AddTransactions, StoredZero, RemovedZero, AmountsAgree, Storable, SupportedInputs;
    AcceptedAllStorable(t, it, |it.txs|);
    ZeroDifference(it.block.minerTx);
    ZeroDifferences(it.txs, |it.txs|);
  }

  lemma {:induction false} UndoneIsReversible(t: Tables, it: Item, before: seq<Transaction>)
    requires TablesOk(t) && AddBlock(t, it.block, it.txs).Ok? && Undone(t, it, before)
    ensures ReversibleItem(it)
  {
    hide AddTransactions, PopBlock, TablesOk, ZeroSurplus, SupportedItem, ReversibleItem;
    AddTransactionsKeeps(t, it.block, it.txs, |it.txs|);
    InfoLength(AddTransactions(t, it.block, it.txs, |it.txs|).value);
    UndoneIsSupported(t, it, before);
    SurplusStays(t, it, before);
    SurplusIff(t, it);
  }

  /** Popping the block just added undoes it exactly when each of its transactions is reversible. */
  lemma {:induction false} PopUndoesAddIff(t: Tables, it: Item, before: seq<Transaction>)
    requires TablesOk(t) && AddBlock(t, it.block, it.txs).Ok?
    ensures Undone(t, it, before) <==> ReversibleItem(it)
  {
    hide AddBlock, PopBlock, TablesOk, ReversibleItem;
    if ReversibleItem(it) { PopUndoesAdd(t, it, before); }
    if Undone(t, it, before) { UndoneIsReversible(t, it, before); }
  }

  predicate OnlySpends(tx: Transaction) {
    forall i :: 0 <= i < |tx.vin| ==> tx.vin[i].ToKey?
  }

  /** A coinbase miner transaction and transactions that spend keys: the pop always undoes the add. */
  lemma {:induction false} OrdinaryPopUndoesAdd(t: Tables, it: Item, before: seq<Transaction>)
    requires TablesOk(t) && AddBlock(t, it.block, it.txs).Ok?
    requires it.block.minerTx.vin == [Gen] && forall i :: 0 <= i < |it.txs| ==> OnlySpends(it.txs[i])
    ensures PopBlock(AddBlock(t, it.block, it.txs).value, before) == Ok(Popped(t, before + LastFirst(it.txs, |it.txs|)))
  {
    hide PopBlock, TablesOk, Reversible, AddTransactions, Storable;
    forall i | 0 <= i < |it.txs| ensures Reversible(it.txs[i]) {
      KeySpendReversible(it.txs[i]);
    }
    MinerAccepted(t, it.block, it.txs, |it.txs|);
    AcceptedStorable(t, it.block.minerTx.hash, it.block.minerTx);
    CoinbaseReversible(it.block.minerTx);
    PopUndoesAdd(t, it, before);
  }

  // ----- When the tables are those of the chain in every state of a run -----

  /** In every state of the run the tables are those of the chain. */
  ghost predicate AlwaysBuilt(ops: seq<Op>) {
    && Build(ChainAfter(ops)) == Ok(Run(ops).tables)
    && (ops != [] ==> AlwaysBuilt(ops[..|ops| - 1]))
  }

  /** No failed operation leaves anything behind in a batch, and no pop takes off an irreversible block. */
  ghost predicate NeverOff(ops: seq<Op>, outputs: bool) {
    !ResidueAfter(ops, outputs).now && (ops != [] ==> NeverOff(ops[..|ops| - 1], outputs))
  }

  lemma {:induction false} OffByAdd(s: Store, c: Chains, it: Item)
    requires Build(c.now) == Ok(s.tables) && SupportedInputs(it.block.minerTx.vin) && !CleanAdd(s, it)
    ensures Build(Follow(c, s, Add(it)).now) != Ok(Apply(s, Add(it)).tables)
  {
    hide AddBlock, Build, FailsClean, SupportedInputs;
    FailedAddLeaves(s.tables, it);
  }

  lemma {:induction false} OffByPop(s: Store, c: Chains)
    requires Build(c.now) == Ok(s.tables) && (!CleanPop(s) || PopsIrreversible(s, c))
    ensures Build(Follow(c, s, Pop).now) != Ok(Apply(s, Pop).tables)
  {
    hide AddBlock, PopBlock, PopFailsClean, ReversibleItem, TablesOk;
    FailedPopLeaves(s.tables, []);
    if PopsIrreversible(s, c) {
      var front, it := c.now[..|c.now| - 1], c.now[|c.now| - 1];
      BuildOk(front);
      BuildTop(c.now);
      PopUndoesAddIff(Build(front).value, it, []);
    }
  }

  lemma {:induction false} BuildTop(chain: seq<Item>)
    requires Build(chain).Ok? && chain != []
    ensures var front, it := chain[..|chain| - 1], chain[|chain| - 1];
            Build(front).Ok? && Build(chain) == AddBlock(Build(front).value, it.block, it.txs)
  {
    hide AddBlock;
  }

  /**
  For every run of blocks whose miner transactions have supported inputs: the tables are those of
  the chain in every state exactly when no operation fails inside a batch after it has written
  something and no pop takes off an irreversible block.
  */
  lemma {:induction false} AlwaysBuiltIff(ops: seq<Op>)
    requires forall i :: 0 <= i < |ops| && ops[i].Add? ==> SupportedInputs(ops[i].item.block.minerTx.vin)
    ensures AlwaysBuilt(ops) <==> NeverOff(ops, true)
  {
    hide Apply, Follow, Build, Run, ChainsAfter, CleanAdd, CleanPop, PopsIrreversible, SupportedInputs;
    if ops == [] {
      RunIsBuild([]);
    } else {
      var front, op := ops[..|ops| - 1], ops[|ops| - 1];
      AlwaysBuiltIff(front);
      RunStep(ops);
      if NeverOff(ops, true) { RunIsBuild(ops); }
      if AlwaysBuilt(ops) {
        var s, c := Run(front), ChainsAfter(front);
        if op.Add? && !CleanAdd(s, op.item) { OffByAdd(s, c, op.item); }
        if op.Pop? && (!CleanPop(s) || PopsIrreversible(s, c)) { OffByPop(s, c); }
        StartClean(front);
      }
    }
  }

  lemma {:induction false} RunStep(ops: seq<Op>)
    requires ops != []
    ensures var front, op := ops[..|ops| - 1], ops[|ops| - 1];
            && Run(ops) == Apply(Run(front), op)
            && ChainsAfter(ops) == Follow(ChainsAfter(front), Run(front), op)
  {
    hide Apply, Follow;
  }

  /** Tables that have never been off were not off when a batch began. */
  lemma {:induction false} StartClean(ops: seq<Op>)
    requires NeverOff(ops, true)
    ensures !ResidueAfter(ops, true).atStart
  {
    hide Run, ChainsAfter, CleanAdd, CleanPop, PopsIrreversible;
    if ops != [] { StartClean(ops[..|ops| - 1]); }
  }
}
