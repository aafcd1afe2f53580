/** Every output that a pop removes is the last entry of its amount list at that moment. */
module BlockTails {
  import opened BlockTables
  import opened BlockOutputs
  import opened BlockTheorems
  import opened BlockRuns

  /** Removing outputs n-1, ..., 0 deletes the last entry of a list each time. */
  ghost predicate OutputsFromTail(o: Outputs, tx: Transaction, indices: seq<nat>, n: nat)
    requires n <= |tx.vout|
    decreases n
  {
    n == 0
    || (&& n <= |indices|
        && var entries := AmountList(o, RemovedAmount(tx, n - 1));
        && entries != [] && FindEntry(entries, indices[n - 1]) == |entries| - 1
        && var r := RemoveOutput(o, RemovedAmount(tx, n - 1), indices[n - 1]);
        && r.Ok? && OutputsFromTail(r.value, tx, indices, n - 1))
  }

  lemma {:induction false} AddedFromTail(o: Outputs, hash: Hash, tx: Transaction, n: nat, height: nat,
        indices: seq<nat>)
    requires n <= |tx.vout| && OutsOk(o) && AddOutputs(o, hash, tx, n, height).Ok?
    requires AmountsAgree(tx) && OutputIndices(o, hash, tx, n, height) <= indices
    ensures OutputsFromTail(AddOutputs(o, hash, tx, n, height).value, tx, indices, n)
  {
    hide AddOutput, RemoveOutput, OutsOk, AmountsAgree, AmountList, FindEntry;
    if n > 0 {
      var mid := AddOutputs(o, hash, tx, n - 1, height).value;
      AddOutputsKeeps(o, hash, tx, n - 1, height);
      AmountsAgreePointwise(tx);
      RemovalHitsTail(o, hash, tx, n, height);
      assert OutputIndices(o, hash, tx, n, height)[..n - 1] == OutputIndices(o, hash, tx, n - 1, height);
      assert indices[n - 1] == OutputIndices(o, hash, tx, n, height)[n - 1];
      AddThenRemoveOutput(mid, hash, StoredOut(tx, n - 1), n - 1, HasCommitments(tx), height);
      AddedFromTail(o, hash, tx, n - 1, height, indices);
    }
  }

  ghost predicate TransactionFromTail(t: Tables, hash: Hash) {
    && GetTx(t, hash).Some?
    && var tx, id := GetTx(t, hash).value, t.index[hash].txId;
    && id in t.txOutputs && OutputsFromTail(t.outs, tx, t.txOutputs[id], |tx.vout|)
  }

  lemma {:induction false} AddedTransactionFromTail(t: Tables, hash: Hash, tx: Transaction)
    requires TablesOk(t) && Reversible(tx) && AddTransaction(t, hash, tx).Ok?
    ensures TransactionFromTail(AddTransaction(t, hash, tx).value, hash)
  {
    AddInputsInverse(t.spent, tx.vin);
    hide AddInputs, Recorded, OutputsFromTail, OutsOk;
    AddedFromTail(t.outs, hash, tx, |tx.vout|, |t.blocks|, AddTransaction(t, hash, tx).value.txOutputs[|t.txs|]);
  }

  /** The same for taking off listed transactions n-1, ..., 0 and the miner transaction. */
  ghost predicate AllFromTail(t: Tables, b: Block, n: nat)
    requires n <= |b.txHashes|
    decreases n
  {
    var hash := if n == 0 then b.minerTx.hash else b.txHashes[n - 1];
    && TransactionFromTail(t, hash)
    && RemoveTransaction(t, hash).Ok?
    && (n > 0 ==> AllFromTail(RemoveTransaction(t, hash).value, b, n - 1))
  }

  lemma {:induction false} AddedFromTails(t: Tables, it: Item, n: nat)
    requires n <= |it.txs| == |it.block.txHashes| && TablesOk(t) && ReversibleItem(it)
    requires AddTransactions(t, it.block, it.txs, n).Ok?
    ensures AllFromTail(AddTransactions(t, it.block, it.txs, n).value, it.block, n)
    decreases n
  {
    hide AddTransaction, RemoveTransaction, TablesOk, Reversible, TransactionFromTail;
    var b := it.block;
    if n == 0 {
      AddedTransactionFromTail(t, b.minerTx.hash, b.minerTx);
      AddThenRemoveTransaction(t, b.minerTx.hash, b.minerTx);
    } else {
      var mid := AddTransactions(t, b, it.txs, n - 1).value;
      AddTransactionsKeeps(t, b, it.txs, n - 1);
      AddedTransactionFromTail(mid, b.txHashes[n - 1], it.txs[n - 1]);
      AddThenRemoveTransaction(mid, b.txHashes[n - 1], it.txs[n - 1]);
      AddedFromTails(t, it, n - 1);
    }
  }

  lemma {:induction false} AddedBlockFromTails(t: Tables, it: Item)
    requires TablesOk(t) && ReversibleItem(it) && AddBlock(t, it.block, it.txs).Ok?
    ensures var r := RemoveTopBlock(AddBlock(t, it.block, it.txs).value);
            r.Ok? && |it.txs| == |it.block.txHashes| && AllFromTail(r.value, it.block, |it.txs|)
  {
    var b, n := it.block, |it.txs|;
    hide AddTransactions, AppendBlock, RemoveTopBlock, TablesOk, ReversibleItem, AllFromTail;
    AddTransactionsKeeps(t, b, it.txs, n);
    InfoLength(AddTransactions(t, b, it.txs, n).value);
    AppendThenRemoveTop(AddTransactions(t, b, it.txs, n).value, b, NumRctOuts(b, it.txs));
    AddedFromTails(t, it, n);
  }

  /**
  After every run: if the top block is reversible, each single output removal of the next pop
  deletes the last entry of its list.
  */
  lemma {:induction false} PopHitsTails(ops: seq<Op>)
    requires !ResidueAfter(ops, true).now
    requires ChainAfter(ops) != [] && ReversibleItem(ChainAfter(ops)[|ChainAfter(ops)| - 1])
    ensures var t, b := Run(ops).tables, ChainAfter(ops)[|ChainAfter(ops)| - 1].block;
            && t.blocks != [] && t.blocks[|t.blocks| - 1] == b
            && RemoveTopBlock(t).Ok? && AllFromTail(RemoveTopBlock(t).value, b, |b.txHashes|)
  {
    RunIsBuild(ops);
    var chain := ChainAfter(ops);
    BuildOk(chain);
    hide Run, ChainAfter, AddBlock, RemoveTopBlock, AllFromTail, TablesOk, ReversibleItem, ResidueAfter;
    BuildOk(chain[..|chain| - 1]);
    AddedBlockFromTails(Build(chain[..|chain| - 1]).value, chain[|chain| - 1]);
  }
}
