/**
What popping an irreversible block does to the output tables: their invariants break, so that in a
run without unclean failures they hold in every state exactly when only reversible blocks are popped.
*/
module BlockPops {
  import opened Wrappers
  import opened BlockTables
  import opened BlockOutputs
  import opened BlockTheorems
  import opened BlockRuns
  import opened BlockStack

  // ----- Entries with old output ids -----

  /** How many of the entries have an output id below n. */
  function CountBelow(entries: seq<OutKey>, n: nat): nat {
    if entries == [] then 0
    else CountBelow(entries[..|entries| - 1], n) + if entries[|entries| - 1].outputId < n then 1 else 0
  }

  lemma {:induction false} CountBelowAll(entries: seq<OutKey>, n: nat)
    ensures CountBelow(entries, n) <= |entries|
    ensures (forall i :: 0 <= i < |entries| ==> entries[i].outputId < n) ==> CountBelow(entries, n) == |entries|
  {
    if entries != [] { CountBelowAll(entries[..|entries| - 1], n); }
  }

  lemma {:induction false} CountBelowSnoc(entries: seq<OutKey>, e: OutKey, n: nat)
    ensures CountBelow(entries + [e], n) == CountBelow(entries, n) + if e.outputId < n then 1 else 0
  {
    assert (entries + [e])[..|entries|] == entries;
  }

  lemma {:induction false} CountBelowDrop(entries: seq<OutKey>, p: nat, n: nat)
    requires p < |entries|
    ensures CountBelow(entries[..p] + entries[p + 1..], n) <= CountBelow(entries, n)
    decreases |entries|
  {
    var last := |entries| - 1;
    var front, e := entries[..last], entries[last];
    assert entries == front + [e];
    if p == last {
      assert entries[..p] + entries[p + 1..] == front;
    } else {
      CountBelowDrop(front, p, n);
      assert entries[..p] + entries[p + 1..] == front[..p] + front[p + 1..] + [e];
      CountBelowSnoc(front[..p] + front[p + 1..], e, n);
    }
  }

  function ZeroBelow(o: Outputs, n: nat): nat {
    CountBelow(AmountList(o, 0), n)
  }

  // ----- Adding: one new id per output, none of them old -----

  lemma {:induction false} AddOutputBelow(
    o: Outputs, txHash: Hash, out: TxOut, localIndex: nat, commitment: bool, height: nat, n: nat)
    requires OutsOk(o) && n <= |o.outputTxs| && AddOutput(o, txHash, out, localIndex, commitment, height).Ok?
    ensures var next := AddOutput(o, txHash, out, localIndex, commitment, height).value;
            |next.outputTxs| == |o.outputTxs| + 1 && ZeroBelow(next, n) == ZeroBelow(o, n)
  {
    AddOutputShape(o, txHash, out, localIndex, commitment, height);
    var id, entries := |o.outputTxs|, AmountList(o, out.amount);
    assert id !in o.outputTxs;
    hide AddOutput, AmountList, CountBelow, OutsOk;
    CountBelowSnoc(entries, OutKey(|entries|, id, out.target.key, height), n);
  }

  lemma {:induction false} AddOutputsBelow(o: Outputs, hash: Hash, tx: Transaction, k: nat, height: nat, n: nat)
    requires k <= |tx.vout| && OutsOk(o) && n <= |o.outputTxs| && AddOutputs(o, hash, tx, k, height).Ok?
    ensures var next := AddOutputs(o, hash, tx, k, height).value;
            |next.outputTxs| == |o.outputTxs| + k && ZeroBelow(next, n) == ZeroBelow(o, n)
    decreases k
  {
    hide AddOutput, OutsOk, ZeroBelow;
    if k > 0 {
      AddOutputsBelow(o, hash, tx, k - 1, height, n);
      AddOutputsKeeps(o, hash, tx, k - 1, height);
      var mid := AddOutputs(o, hash, tx, k - 1, height).value;
      AddOutputBelow(mid, hash, StoredOut(tx, k - 1), k - 1, HasCommitments(tx), height, n);
    }
  }

  lemma {:induction false} AddTransactionBelow(t: Tables, hash: Hash, tx: Transaction, n: nat)
    requires TablesOk(t) && SupportedInputs(tx.vin) && AddTransaction(t, hash, tx).Ok? && n <= |t.outs.outputTxs|
    ensures var next := AddTransaction(t, hash, tx).value;
            |next.outs.outputTxs| == |t.outs.outputTxs| + |tx.vout| && ZeroBelow(next.outs, n) == ZeroBelow(t.outs, n)
  {
    AddInputsInverse(t.spent, tx.vin);
    hide AddInputs, AddOutputs, OutputIndices, ZeroBelow, Recorded, OutsOk, Images;
    AddOutputsBelow(t.outs, hash, tx, |tx.vout|, |t.blocks|, n);
  }

  /** The outputs of the miner transaction and the first k listed ones. */
  function OutputTotal(it: Item, k: nat): nat
    requires k <= |it.txs|
  {
    if k == 0 then |it.block.minerTx.vout| else OutputTotal(it, k - 1) + |it.txs[k - 1].vout|
  }

  lemma {:induction false} AddTransactionsBelow(t: Tables, it: Item, k: nat, n: nat)
    requires k <= |it.txs| == |it.block.txHashes| && TablesOk(t) && SupportedItem(it) && n <= |t.outs.outputTxs|
    requires AddTransactions(t, it.block, it.txs, k).Ok?
    ensures var next := AddTransactions(t, it.block, it.txs, k).value;
            && |next.outs.outputTxs| == |t.outs.outputTxs| + OutputTotal(it, k)
            && ZeroBelow(next.outs, n) == ZeroBelow(t.outs, n)
    decreases k
  {
    hide AddTransaction, TablesOk, ZeroBelow, SupportedInputs;
    var b := it.block;
    if k == 0 {
      AddTransactionBelow(t, b.minerTx.hash, b.minerTx, n);
    } else {
      AddTransactionsBelow(t, it, k - 1, n);
      AddTransactionsKeeps(t, b, it.txs, k - 1);
      AddTransactionBelow(AddTransactions(t, b, it.txs, k - 1).value, b.txHashes[k - 1], it.txs[k - 1], n);
    }
  }

  // ----- Removing: one id less per output, and no new entries -----

  lemma {:induction false} RemoveOutputBelow(o: Outputs, a: nat, index: nat, n: nat)
    requires RemoveOutput(o, a, index).Ok?
    ensures var next := RemoveOutput(o, a, index).value;
            |next.outputTxs| + 1 == |o.outputTxs| && ZeroBelow(next, n) <= ZeroBelow(o, n)
  {
    var entries, next := AmountList(o, a), RemoveOutput(o, a, index).value;
    var p := FindEntry(entries, index);
    var id := entries[p].outputId;
    assert next.outputTxs.Keys == o.outputTxs.Keys - {id};
    assert AmountList(next, a) == entries[..p] + entries[p + 1..];
    assert a != 0 ==> AmountList(next, 0) == AmountList(o, 0);
    hide FindEntry, CountBelow, RemoveOutput, AmountList;
    CountBelowDrop(entries, p, n);
  }

  lemma {:induction false} RemoveOutputsBelow(o: Outputs, tx: Transaction, indices: seq<nat>, k: nat, n: nat)
    requires k <= |tx.vout| && RemoveOutputs(o, tx, indices, k).Ok?
    ensures var next := RemoveOutputs(o, tx, indices, k).value;
            |next.outputTxs| + k == |o.outputTxs| && ZeroBelow(next, n) <= ZeroBelow(o, n)
    decreases k
  {
    hide RemoveOutput, ZeroBelow;
    if k > 0 {
      RemoveOutputBelow(o, RemovedAmount(tx, k - 1), indices[k - 1], n);
      RemoveOutputsBelow(RemoveOutput(o, RemovedAmount(tx, k - 1), indices[k - 1]).value, tx, indices, k - 1, n);
    }
  }

  lemma {:induction false} RemoveTransactionBelow(t: Tables, hash: Hash, n: nat)
    requires RemoveTransaction(t, hash).Ok? && GetTx(t, hash).Some?
    ensures var next, tx := RemoveTransaction(t, hash).value, GetTx(t, hash).value;
            |next.outs.outputTxs| + |tx.vout| == |t.outs.outputTxs| && ZeroBelow(next.outs, n) <= ZeroBelow(t.outs, n)
  {
    hide RemoveOutputs, Images, ZeroBelow;
    var tx, id := GetTx(t, hash).value, t.index[hash].txId;
    RemoveOutputsBelow(t.outs, tx, if id in t.txOutputs then t.txOutputs[id] else [], |tx.vout|, n);
  }

  lemma {:induction false} RemoveTransactionsBelow(
    t: Tables, it: Item, k: nat, later: Tables, before: seq<Transaction>, n: nat)
    requires k <= |it.txs| == |it.block.txHashes| && TablesOk(t) && SupportedItem(it)
    requires AddTransactions(t, it.block, it.txs, k).Ok?
    requires CoreOf(later) == CoreOf(AddTransactions(t, it.block, it.txs, k).value)
    ensures var r := RemoveTransactions(later, it.block, k, before);
            r.Ok? ==> && |r.value.tables.outs.outputTxs| + OutputTotal(it, k) == |later.outs.outputTxs|
                      && ZeroBelow(r.value.tables.outs, n) <= ZeroBelow(later.outs, n)
    decreases k
  {
    var b := it.block;
    hide AddTransaction, RemoveTransaction, TablesOk, CoreOf, GetTx, ZeroBelow, SupportedInputs;
    if k == 0 {
      NextIdFree(t);
      RemoveTransactionCore(t, b.minerTx.hash, b.minerTx, later);
      if RemoveTransaction(later, b.minerTx.hash).Ok? { RemoveTransactionBelow(later, b.minerTx.hash, n); }
    } else {
      var mid, tx, hash := AddTransactions(t, b, it.txs, k - 1).value, it.txs[k - 1], b.txHashes[k - 1];
      AddTransactionsKeeps(t, b, it.txs, k - 1);
      NextIdFree(mid);
      RemoveTransactionCore(mid, hash, tx, later);
      if RemoveTransaction(later, hash).Ok? {
        RemoveTransactionBelow(later, hash, n);
        RemoveTransactionsBelow(t, it, k - 1, RemoveTransaction(later, hash).value, before + [tx], n);
      }
    }
  }

  // ----- One block -----

  /** After add and pop there are as many ids as before, and no more entries with old ones. */
  lemma {:induction false} AddThenPopBelow(t: Tables, it: Item, before: seq<Transaction>, n: nat)
    requires TablesOk(t) && SupportedItem(it) && AddBlock(t, it.block, it.txs).Ok? && n <= |t.outs.outputTxs|
    requires PopBlock(AddBlock(t, it.block, it.txs).value, before).Ok?
    ensures var after := PopBlock(AddBlock(t, it.block, it.txs).value, before).value.tables;
            |after.outs.outputTxs| == |t.outs.outputTxs| && ZeroBelow(after.outs, n) <= ZeroBelow(t.outs, n)
  {
    hide AddTransactions, RemoveTransactions, AppendBlock, RemoveTopBlock, TablesOk, ZeroBelow, SupportedItem;
    var b, k := it.block, |it.txs|;
    var mid := AddTransactions(t, b, it.txs, k).value;
    AddTransactionsKeeps(t, b, it.txs, k);
    InfoLength(mid);
    AppendThenRemoveTop(mid, b, NumRctOuts(b, it.txs));
    AddTransactionsBelow(t, it, k, n);
    AddedTop(mid, b, NumRctOuts(b, it.txs));
    RemoveTransactionsBelow(t, it, k, mid, before, n);
  }

  lemma {:induction false} AddedTop(t: Tables, b: Block, numRct: nat)
    requires AppendBlock(t, b, numRct).Ok?
    ensures var next := AppendBlock(t, b, numRct).value;
            next.blocks != [] && next.blocks[|next.blocks| - 1] == b
  {}

  /** Dense tables with n ids list entries with these ids only. */
  lemma {:induction false} DenseIsBelow(o: Outputs)
    requires OutsOk(o)
    ensures ZeroBelow(o, |o.outputTxs|) == ZeroOutputs(o)
  {
    var entries, n := AmountList(o, 0), |o.outputTxs|;
    forall i | 0 <= i < |entries| ensures entries[i].outputId < n {
      assert Dense(o, entries);
      assert entries[i].outputId in o.outputTxs;
    }
    CountBelowAll(entries, n);
  }

  lemma {:induction false} KeptIsReversible(t: Tables, it: Item, before: seq<Transaction>)
    requires TablesOk(t) && SupportedItem(it) && AddBlock(t, it.block, it.txs).Ok?
    requires PopBlock(AddBlock(t, it.block, it.txs).value, before).Ok?
    requires TablesOk(PopBlock(AddBlock(t, it.block, it.txs).value, before).value.tables)
    ensures ReversibleItem(it)
  {
    var after := PopBlock(AddBlock(t, it.block, it.txs).value, before).value.tables;
    assert OutsOk(t.outs) && OutsOk(after.outs);
    hide AddBlock, PopBlock, TablesOk, OutsOk, SupportedItem, ReversibleItem, ZeroBelow, ZeroOutputs, ZeroSurplus;
    AddThenPopBelow(t, it, before, |t.outs.outputTxs|);
    DenseIsBelow(t.outs);
    DenseIsBelow(after.outs);
    SurplusStays(t, it, before);
    SurplusIff(t, it);
  }

  /** After a pop that succeeds the table invariants hold exactly when the block was reversible. */
  lemma {:induction false} PopKeepsIff(t: Tables, it: Item, before: seq<Transaction>)
    requires TablesOk(t) && SupportedItem(it) && AddBlock(t, it.block, it.txs).Ok?
    requires PopBlock(AddBlock(t, it.block, it.txs).value, before).Ok?
    ensures TablesOk(PopBlock(AddBlock(t, it.block, it.txs).value, before).value.tables) <==> ReversibleItem(it)
  {
    hide AddBlock, PopBlock, TablesOk, SupportedItem, ReversibleItem;
    if ReversibleItem(it) { PopUndoesAdd(t, it, before); }
    if TablesOk(PopBlock(AddBlock(t, it.block, it.txs).value, before).value.tables) { KeptIsReversible(t, it, before); }
  }

  // ----- Whole runs -----

  /** The table invariants hold in every state of the run. */
  ghost predicate AlwaysOk(ops: seq<Op>) {
    TablesOk(Run(ops).tables) && (ops != [] ==> AlwaysOk(ops[..|ops| - 1]))
  }

  lemma {:induction false} PopBreaks(s: Store, c: Chains)
    requires Build(c.now) == Ok(s.tables) && AllSupported(c.now) && PopsIrreversible(s, c)
    ensures !TablesOk(Apply(s, Pop).tables)
  {
    hide AddBlock, PopBlock, ReversibleItem, SupportedItem, TablesOk;
    var front, it := c.now[..|c.now| - 1], c.now[|c.now| - 1];
    BuildTop(c.now);
    BuildOk(front);
    PopKeepsIff(Build(front).value, it, []);
  }

  lemma {:induction false} RunSupported(ops: seq<Op>)
    requires forall i :: 0 <= i < |ops| && ops[i].Add? ==> SupportedItem(ops[i].item)
    ensures AllSupported(ChainAfter(ops))
  {
    var chain := ChainAfter(ops);
    ChainFromAdds(ops);
    hide ChainsAfter, SupportedItem;
    forall i | 0 <= i < |chain| ensures SupportedItem(chain[i]) {
      assert chain[i] in chain;
      var k :| 0 <= k < |ops| && ops[k] == Add(chain[i]);
    }
  }

  /**
  For every run of blocks with supported inputs in which no operation fails inside a batch after it
  has written something: ids and lists are dense and all recorded indices point at their outputs in
  every state, exactly when no pop takes off an irreversible block.
  */
  lemma {:induction false} AlwaysOkIff(ops: seq<Op>)
    requires forall i :: 0 <= i < |ops| && ops[i].Add? ==> SupportedItem(ops[i].item)
    requires NeverOff(ops, false)
    ensures AlwaysOk(ops) <==> NeverOff(ops, true)
  {
    hide Apply, Follow, Build, Run, ChainsAfter, CleanAdd, CleanPop, PopsIrreversible, SupportedItem, TablesOk,
         AllSupported;
    if ops == [] {
      EveryRun([]);
    } else {
      var front, op := ops[..|ops| - 1], ops[|ops| - 1];
      AlwaysOkIff(front);
      RunStep(ops);
      if NeverOff(ops, true) { EveryRun(ops); }
      if AlwaysOk(ops) {
        StartClean(front);
        RunIsBuild(front);
        RunSupported(front);
        if op.Pop? && PopsIrreversible(Run(front), ChainsAfter(front)) { PopBreaks(Run(front), ChainsAfter(front)); }
      }
    }
  }
}
