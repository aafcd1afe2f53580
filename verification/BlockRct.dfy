/** The RingCT output counts that add_block reports, against the amount-0 output list itself. */
module BlockRct {
  import opened BlockTables
  import opened BlockOutputs
  import opened BlockTheorems
  import opened BlockRuns

  lemma {:induction false} AddTransactionZero(t: Tables, hash: Hash, tx: Transaction)
    requires TablesOk(t) && SupportedInputs(tx.vin) && AddTransaction(t, hash, tx).Ok?
    ensures ZeroOutputs(AddTransaction(t, hash, tx).value.outs) == ZeroOutputs(t.outs) + StoredZero(tx, |tx.vout|)
  {
    AddInputsInverse(t.spent, tx.vin);
    AddOutputsZero(t.outs, hash, tx, |tx.vout|, |t.blocks|);
  }

  function StoredZeroAll(txs: seq<Transaction>, n: nat): nat
    requires n <= |txs|
  {
    if n == 0 then 0 else StoredZeroAll(txs, n - 1) + StoredZero(txs[n - 1], |txs[n - 1].vout|)
  }

  lemma {:induction false} AddTransactionsZero(t: Tables, it: Item, n: nat)
    requires n <= |it.txs| == |it.block.txHashes| && TablesOk(t) && SupportedItem(it)
    requires AddTransactions(t, it.block, it.txs, n).Ok?
    ensures ZeroOutputs(AddTransactions(t, it.block, it.txs, n).value.outs)
            == ZeroOutputs(t.outs) + StoredZero(it.block.minerTx, |it.block.minerTx.vout|) + StoredZeroAll(it.txs, n)
    decreases n
  {
    hide AddTransaction, TablesOk, ZeroOutputs, StoredZero;
    var b := it.block;
    if n == 0 {
      AddTransactionZero(t, b.minerTx.hash, b.minerTx);
    } else {
      AddTransactionsZero(t, it, n - 1);
      AddTransactionsKeeps(t, b, it.txs, n - 1);
      AddTransactionZero(AddTransactions(t, b, it.txs, n - 1).value, b.txHashes[n - 1], it.txs[n - 1]);
    }
  }

  /** The number of outputs that carry an amount. */
  function Nonzero(tx: Transaction): nat {
    CountZeroAllZero(tx.vout);
    |tx.vout| - CountZero(tx.vout)
  }

  /** Without a generation input a version 2 miner transaction is reported with all outputs, listed with some. */
  function OverReport(miner: Transaction): nat {
    if miner.version == 2 && !HasGen(miner.vin) then Nonzero(miner) else 0
  }

  /** With a generation input a listed version 2 transaction is listed with all outputs, reported with some. */
  function UnderReport(txs: seq<Transaction>, n: nat): nat
    requires n <= |txs|
  {
    if n == 0 then 0 else UnderReport(txs, n - 1) + if StoredAsZero(txs[n - 1]) then Nonzero(txs[n - 1]) else 0
  }

  lemma {:induction false} ListedReport(txs: seq<Transaction>, n: nat)
    requires n <= |txs|
    ensures StoredZeroAll(txs, n) == CountZeroAll(txs[..n]) + UnderReport(txs, n)
    decreases n
  {
    if n > 0 {
      var tx := txs[n - 1];
      assert txs[..n][..n - 1] == txs[..n - 1];
      assert tx.vout[..|tx.vout|] == tx.vout;
      hide CountZero;
      ListedReport(txs, n - 1);
    }
  }

  lemma {:induction false} AddedAmounts(o: Outputs, hash: Hash, tx: Transaction, n: nat, height: nat)
    requires n <= |tx.vout| && tx.version == 1 && AddOutputs(o, hash, tx, n, height).Ok?
    ensures forall i :: 0 <= i < n ==> tx.vout[i].amount != 0
  {
    if n > 0 { AddedAmounts(o, hash, tx, n - 1, height); }
  }

  /** An accepted miner transaction of version 1 lists nothing under amount 0. */
  lemma {:induction false} MinerReport(t: Tables, hash: Hash, miner: Transaction)
    requires SupportedInputs(miner.vin) && AddTransaction(t, hash, miner).Ok?
    ensures (if miner.version == 2 then |miner.vout| else 0) == StoredZero(miner, |miner.vout|) + OverReport(miner)
  {
    AcceptedStorable(t, hash, miner);
    CountZeroAllZero(miner.vout);
    assert miner.vout[..|miner.vout|] == miner.vout;
    if miner.version == 1 {
      AddInputsInverse(t.spent, miner.vin);
      AddedAmounts(t.outs, hash, miner, |miner.vout|, |t.blocks|);
    }
  }

  /** A version 2 miner transaction has a generation input, or no output with an amount. */
  predicate NotOverReported(miner: Transaction) {
    miner.version == 2 ==> HasGen(miner.vin) || AllZero(miner)
  }

  /** add_block counts the transaction's amount-0 outputs as they will be listed. */
  predicate CountedRight(tx: Transaction) {
    !StoredAsZero(tx) || AllZero(tx)
  }

  predicate ListedRight(it: Item) {
    forall i :: 0 <= i < |it.txs| ==> CountedRight(it.txs[i])
  }

  /** The block's miner and listed transactions are all counted as they will be listed. */
  predicate RctPlain(it: Item) {
    NotOverReported(it.block.minerTx) && ListedRight(it)
  }

  lemma {:induction false} NonzeroMeaning(tx: Transaction)
    ensures Nonzero(tx) == 0 <==> AllZero(tx)
  {
    CountZeroAllZero(tx.vout);
  }

  lemma {:induction false} UnderReportMeaning(txs: seq<Transaction>, n: nat)
    requires n <= |txs|
    ensures UnderReport(txs, n) == 0 <==> forall i :: 0 <= i < n ==> CountedRight(txs[i])
    decreases n
  {
    if n > 0 {
      hide Nonzero, AllZero, StoredAsZero;
      UnderReportMeaning(txs, n - 1);
      NonzeroMeaning(txs[n - 1]);
    }
  }

  /** How much longer the amount-0 list is with the block. */
  function Growth(t: Tables, it: Item): int
    requires AddBlock(t, it.block, it.txs).Ok?
  {
    ZeroOutputs(AddBlock(t, it.block, it.txs).value.outs) - ZeroOutputs(t.outs)
  }

  lemma {:induction false} ReportBalance(t: Tables, it: Item)
    requires TablesOk(t) && SupportedItem(it) && AddBlock(t, it.block, it.txs).Ok?
    ensures NumRctOuts(it.block, it.txs) + UnderReport(it.txs, |it.txs|) == Growth(t, it) + OverReport(it.block.minerTx)
  {
    var miner, n := it.block.minerTx, |it.txs|;
    hide AddTransactions, TablesOk, StoredZero, AddTransaction, SupportedInputs, ZeroOutputs, OverReport;
    MinerAccepted(t, it.block, it.txs, n);
    MinerReport(t, miner.hash, miner);
    AddTransactionsZero(t, it, n);
    ListedReport(it.txs, n);
    assert it.txs[..n] == it.txs;
  }

  /**
  The reported count is the growth of the amount-0 list exactly when what is reported too much of
  the miner transaction equals what is reported too little of the listed ones; in particular for
  every plain block, and unless both errors occur for no other.
  */
  lemma {:induction false} ReportIsGrowth(t: Tables, it: Item)
    requires TablesOk(t) && SupportedItem(it) && AddBlock(t, it.block, it.txs).Ok?
    ensures NumRctOuts(it.block, it.txs) == Growth(t, it)
       <==> OverReport(it.block.minerTx) == UnderReport(it.txs, |it.txs|)
    ensures RctPlain(it) ==> NumRctOuts(it.block, it.txs) == Growth(t, it)
    ensures NotOverReported(it.block.minerTx) || ListedRight(it) ==>
              (NumRctOuts(it.block, it.txs) == Growth(t, it) <==> RctPlain(it))
  {
    hide AddBlock, TablesOk, SupportedItem, NumRctOuts, UnderReport, Growth, Nonzero, AllZero, CountedRight;
    ReportBalance(t, it);
    UnderReportMeaning(it.txs, |it.txs|);
    NonzeroMeaning(it.block.minerTx);
  }

  /** A listed transaction with a generation input breaks the count: one output, listed but not reported. */
  lemma {:induction false} ListedGenerationMiscounted()
    ensures var b := Block(1, 0, 1, Transaction(2, 1, [Gen], []), [3]);
            var tx := Transaction(3, 2, [Gen], [TxOut(5, KeyTarget(9))]);
            && AddBlock(EMPTY_TABLES, b, [tx]).Ok?
            && NumRctOuts(b, [tx]) == 0
            && ZeroOutputs(AddBlock(EMPTY_TABLES, b, [tx]).value.outs) == 1
  {
    var b := Block(1, 0, 1, Transaction(2, 1, [Gen], []), [3]);
    var tx := Transaction(3, 2, [Gen], [TxOut(5, KeyTarget(9))]);
    var afterMiner := AddTransaction(EMPTY_TABLES, 2, b.minerTx);
    assert afterMiner.Ok? && afterMiner.value.outs == EMPTY_TABLES.outs;
    var o := EMPTY_TABLES.outs;
    assert Gen in tx.vin;
    assert AmountList(o, 0) == [];
    var next := AddOutput(o, 3, StoredOut(tx, 0), 0, true, 0);
    assert AddOutputs(o, 3, tx, 0, 0) == Ok(o);
    assert AddOutputs(o, 3, tx, 1, 0) == next;
    assert |AmountList(next.value, 0)| == 1;
    assert AddTransactions(EMPTY_TABLES, b, [tx], 0) == afterMiner;
    var afterTx := AddTransactions(EMPTY_TABLES, b, [tx], 1);
    assert afterTx.Ok? && afterTx.value.outs == next.value;
    assert [tx][..0] == [];
    assert tx.vout[..0] == [];
  }

  // ----- Running totals -----

  predicate PlainChain(chain: seq<Item>) {
    forall i :: 0 <= i < |chain| ==> SupportedItem(chain[i]) && RctPlain(chain[i])
  }

  /** The amount-0 list's length on the tables of a chain. */
  function ZeroOn(chain: seq<Item>): nat
    requires Build(chain).Ok?
  {
    ZeroOutputs(Build(chain).value.outs)
  }

  /** The total recorded with the top block. */
  function TotalOn(chain: seq<Item>): nat
    requires Build(chain).Ok? && chain != [] && |Build(chain).value.info| == |chain|
  {
    Build(chain).value.info[|chain| - 1].cumRct
  }

  /** Before version 4 a block records its own count only, which is the total only on an empty list. */
  predicate Accumulates(chain: seq<Item>)
    requires chain != [] && Build(chain[..|chain| - 1]).Ok?
  {
    chain[|chain| - 1].block.majorVersion >= 4 || ZeroOn(chain[..|chain| - 1]) == 0
  }

  ghost predicate TotalRight(chain: seq<Item>) {
    chain != [] && Build(chain).Ok? && |Build(chain).value.info| == |chain| ==> TotalOn(chain) == ZeroOn(chain)
  }

  lemma {:induction false} BuildInfo(chain: seq<Item>)
    requires Build(chain).Ok? && chain != []
    ensures var front, b := chain[..|chain| - 1], chain[|chain| - 1].block;
            && Build(front).Ok?
            && |Build(chain).value.info| == |chain| && |Build(front).value.info| == |front|
            && (b.majorVersion >= 4 ==> front != [])
            && TotalOn(chain)
               == NumRctOuts(b, chain[|chain| - 1].txs) + if b.majorVersion >= 4 then TotalOn(front) else 0
  {
    var front, it := chain[..|chain| - 1], chain[|chain| - 1];
    var t := Build(front).value;
    BuildOk(front);
    AddTransactionsKeeps(t, it.block, it.txs, |it.txs|);
  }

  /** One block: given a right total below, the new total is right exactly when the block accumulates. */
  lemma {:induction false} TotalStep(chain: seq<Item>)
    requires chain != [] && Build(chain).Ok? && PlainChain(chain)
    requires TotalRight(chain[..|chain| - 1])
    ensures Build(chain[..|chain| - 1]).Ok?
    ensures TotalRight(chain) <==> Accumulates(chain)
  {
    var front, it := chain[..|chain| - 1], chain[|chain| - 1];
    BuildInfo(chain);
    BuildOk(front);
    hide TablesOk, SupportedItem, AddBlock, RctPlain;
    ReportIsGrowth(Build(front).value, it);
    if front != [] { BuildInfo(front); }
  }

  ghost predicate AccumulatesAt(chain: seq<Item>, k: nat)
    requires k < |chain|
  {
    Build(chain[..k]).Ok? && (chain[k].block.majorVersion >= 4 || ZeroOn(chain[..k]) == 0)
  }

  lemma {:induction false} StepAt(chain: seq<Item>, k: nat)
    requires Build(chain).Ok? && PlainChain(chain) && k < |chain| && TotalRight(chain[..k])
    ensures TotalRight(chain[..k + 1]) <==> AccumulatesAt(chain, k)
  {
    var upTo := chain[..k + 1];
    PrefixBuilds(chain, k + 1);
    assert upTo[..|upTo| - 1] == chain[..k];
    hide TotalRight, AddBlock, SupportedItem, RctPlain;
    TotalStep(upTo);
  }

  lemma {:induction false} TotalsRightUpTo(chain: seq<Item>, n: nat)
    requires Build(chain).Ok? && PlainChain(chain) && n <= |chain|
    ensures (forall k :: 0 <= k <= n ==> TotalRight(chain[..k]))
       <==> (forall k :: 0 <= k < n ==> AccumulatesAt(chain, k))
  {
    hide TotalRight, AccumulatesAt, PlainChain;
    if n == 0 {
      assert TotalRight(chain[..0]) by { EmptyTotal(chain[..0]); }
    } else {
      TotalsRightUpTo(chain, n - 1);
      if TotalRight(chain[..n - 1]) { StepAt(chain, n - 1); }
    }
  }

  lemma {:induction false} EmptyTotal(chain: seq<Item>)
    requires chain == []
    ensures TotalRight(chain)
  {}

  /**
  On every chain of plain blocks: the total recorded at every height is the length of the amount-0
  list at that height, exactly when every block below version 4 was added while that list was empty.
  */
  lemma {:induction false} TotalsRight(chain: seq<Item>)
    requires Build(chain).Ok? && PlainChain(chain)
    ensures (forall k :: 0 <= k <= |chain| ==> TotalRight(chain[..k]))
       <==> (forall k :: 0 <= k < |chain| ==> AccumulatesAt(chain, k))
  {
    TotalsRightUpTo(chain, |chain|);
  }

  // ----- Totals after a run -----

  /** The record of block k is the one made when the chain ended with that block. */
  lemma {:induction false} InfoStays(chain: seq<Item>, k: nat)
    requires Build(chain).Ok? && k < |chain|
    ensures |Build(chain).value.info| == |chain|
    ensures Build(chain[..k + 1]).Ok? && |Build(chain[..k + 1]).value.info| == k + 1
    ensures Build(chain).value.info[k] == Build(chain[..k + 1]).value.info[k]
    decreases |chain|
  {
    hide TotalOn, NumRctOuts;
    BuildInfo(chain);
    PrefixBuilds(chain, k + 1);
    if k + 1 == |chain| {
      assert chain[..k + 1] == chain;
    } else {
      var front, it := chain[..|chain| - 1], chain[|chain| - 1];
      InfoStays(front, k);
      assert front[..k + 1] == chain[..k + 1];
      AddBlockInfo(Build(front).value, it);
    }
  }

  lemma {:induction false} AddBlockInfo(t: Tables, it: Item)
    requires AddBlock(t, it.block, it.txs).Ok?
    ensures t.info <= AddBlock(t, it.block, it.txs).value.info
  {
    AddTransactionsInfo(t, it.block, it.txs, |it.txs|);
    hide AddTransactions, NumRctOuts;
  }

  lemma {:induction false} AddTransactionsInfo(t: Tables, b: Block, txs: seq<Transaction>, n: nat)
    requires n <= |txs| == |b.txHashes| && AddTransactions(t, b, txs, n).Ok?
    ensures AddTransactions(t, b, txs, n).value.info == t.info
    decreases n
  {
    hide AddTransaction;
    if n == 0 {
      AddTransactionFrame(t, b.minerTx.hash, b.minerTx);
    } else {
      AddTransactionsInfo(t, b, txs, n - 1);
      AddTransactionFrame(AddTransactions(t, b, txs, n - 1).value, b.txHashes[n - 1], txs[n - 1]);
    }
  }

  /** The total recorded for block k is the length the amount-0 list had with that block on top. */
  ghost predicate RecordedRight(t: Tables, chain: seq<Item>, k: nat)
    requires k < |chain|
  {
    k < |t.info| && Build(chain[..k + 1]).Ok? && t.info[k].cumRct == ZeroOn(chain[..k + 1])
  }

  lemma {:induction false} RecordedIsTotal(chain: seq<Item>, k: nat)
    requires Build(chain).Ok? && k < |chain|
    ensures RecordedRight(Build(chain).value, chain, k) <==> TotalRight(chain[..k + 1])
  {
    hide Build, ZeroOn;
    InfoStays(chain, k);
  }

  /**
  After every run of plain blocks: all recorded totals are right exactly when every block below
  version 4 on the chain was added while the amount-0 list was empty.
  */
  lemma {:induction false} RunTotals(ops: seq<Op>)
    requires !ResidueAfter(ops, true).now
    requires forall i :: 0 <= i < |ops| && ops[i].Add? ==> SupportedItem(ops[i].item) && RctPlain(ops[i].item)
    ensures var chain := ChainAfter(ops);
            (forall k :: 0 <= k < |chain| ==> RecordedRight(Run(ops).tables, chain, k))
            <==> (forall k :: 0 <= k < |chain| ==> AccumulatesAt(chain, k))
  {
    var chain := ChainAfter(ops);
    RunIsBuild(ops);
    RunIsPlain(ops);
    hide Run, ChainAfter, ResidueAfter, Build, PlainChain, RecordedRight, TotalRight, AccumulatesAt;
    TotalsRight(chain);
    EmptyTotal(chain[..0]);
    forall k | 0 <= k < |chain| ensures RecordedRight(Build(chain).value, chain, k) <==> TotalRight(chain[..k + 1]) {
      RecordedIsTotal(chain, k);
    }
    if forall k :: 0 <= k < |chain| ==> RecordedRight(Build(chain).value, chain, k) {
      forall k | 0 <= k <= |chain| ensures TotalRight(chain[..k]) {
        if k > 0 { assert RecordedRight(Build(chain).value, chain, k - 1); }
      }
    }
    if forall k :: 0 <= k <= |chain| ==> TotalRight(chain[..k]) {
      forall k | 0 <= k < |chain| ensures RecordedRight(Build(chain).value, chain, k) {
        assert TotalRight(chain[..k + 1]);
      }
    }
  }

  lemma {:induction false} RunIsPlain(ops: seq<Op>)
    requires forall i :: 0 <= i < |ops| && ops[i].Add? ==> SupportedItem(ops[i].item) && RctPlain(ops[i].item)
    ensures PlainChain(ChainAfter(ops))
  {
    var chain := ChainAfter(ops);
    ChainFromAdds(ops);
    hide ChainsAfter, SupportedItem, RctPlain;
    forall i | 0 <= i < |chain| ensures SupportedItem(chain[i]) && RctPlain(chain[i]) {
      assert chain[i] in chain;
      var k :| 0 <= k < |ops| && ops[k] == Add(chain[i]);
    }
  }
}
