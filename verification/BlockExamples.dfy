/** Inputs at which a property of the block tables fails, each accepted by the database. */
module BlockExamples {
  import opened Wrappers
  import opened BlockTables
  import opened BlockOutputs
  import opened BlockTheorems
  import opened BlockRuns
  import opened BlockRct
  import opened BlockStack

  // ----- A first block that spends key image 7 -----

  const MINER_A := Transaction(2, 1, [Gen], [])
  const SPEND_A := Transaction(3, 1, [ToKey(7, 0, [])], [])
  const BLOCK_A := Block(1, 0, 1, MINER_A, [3])
  const ITEM_A := Item(BLOCK_A, [SPEND_A])

  lemma {:induction false} FirstBlock()
    ensures var r := AddBlock(EMPTY_TABLES, BLOCK_A, [SPEND_A]);
            && r.Ok? && r.value.spent == {7} && r.value.index.Keys == {2, 3} && r.value.outs == EMPTY_TABLES.outs
            && r.value.blocks == [BLOCK_A] && r.value.heights == map[1 := 0]
  {
    var t := EMPTY_TABLES;
    CoinbaseInputs({});
    SpendInputs({}, 7);
    Accepted(t, 2, MINER_A);
    var t1 := AddTransaction(t, 2, MINER_A).value;
    hide AddTransaction, AddInputs;
    Accepted(t1, 3, SPEND_A);
    OneListed(t, BLOCK_A, SPEND_A);
    assert AddOutputs(t.outs, 2, MINER_A, 0, 0) == Ok(t.outs) && AddOutputs(t.outs, 3, SPEND_A, 0, 0) == Ok(t.outs);
    assert [] + [BLOCK_A] == [BLOCK_A];
  }

  lemma {:induction false} RunFirstBlock()
    ensures var t := AddBlock(EMPTY_TABLES, BLOCK_A, [SPEND_A]);
            t.Ok? && Run([Add(ITEM_A)]) == Store(t.value, None) && ChainsAfter([Add(ITEM_A)]) == Chains([ITEM_A], None)
  {
    FirstBlock();
    hide AddBlock;
    RunSnoc([], Add(ITEM_A));
    assert [] + [Add(ITEM_A)] == [Add(ITEM_A)];
    assert [] + [ITEM_A] == [ITEM_A];
  }

  // ----- Aborting erases an older mark -----

  const MINER_E := Transaction(5, 1, [Gen], [])
  const ABORTED_E := Transaction(6, 1, [OtherIn, ToKey(7, 0, [])], [])
  const BLOCK_E := Block(4, 1, 1, MINER_E, [6])
  const ITEM_E := Item(BLOCK_E, [ABORTED_E])

  /**
  A run of two accepted blocks after which the key image spent by the first is not marked: the
  second lists a transaction with an unsupported input and that key image.
  */
  lemma {:induction false} AbortCanEraseOthers()
    ensures var ops := [Add(ITEM_A), Add(ITEM_E)];
            && ChainAfter(ops) == [ITEM_A, ITEM_E] && 7 in Images(SPEND_A.vin) && Run(ops).tables.spent == {}
  {
    RunFirstBlock();
    FirstBlock();
    var t := AddBlock(EMPTY_TABLES, BLOCK_A, [SPEND_A]).value;
    RunSnoc([Add(ITEM_A)], Add(ITEM_E));
    assert [Add(ITEM_A)] + [Add(ITEM_E)] == [Add(ITEM_A), Add(ITEM_E)] && [ITEM_A] + [ITEM_E] == [ITEM_A, ITEM_E];
    assert SPEND_A.vin[0].image == 7;
    EraseStep(t);
    hide AddBlock, Run, ChainsAfter;
  }

  lemma {:induction false} EraseStep(t: Tables)
    requires t.spent == {7} && t.index.Keys == {2, 3} && t.blocks == [BLOCK_A] && t.heights == map[1 := 0]
    ensures var r := AddBlock(t, BLOCK_E, [ABORTED_E]);
            r.Ok? && r.value.spent == {}
  {
    CoinbaseInputs({7});
    Accepted(t, 5, MINER_E);
    var vin := ABORTED_E.vin;
    assert vin[1].image == 7;
    assert 7 in Images(vin);
    assert {7} - Images(vin) == {};
    assert AddInputs({7}, vin, 0) == Aborted({7} - Images(vin));
    var t1 := AddTransaction(t, 5, MINER_E).value;
    assert AddTransaction(t1, 6, ABORTED_E) == Ok(t1.(spent := {}));
    hide AddTransaction, AddInputs, Images;
    OneListed(t, BLOCK_E, ABORTED_E);
  }

  // ----- A failed add inside a batch leaves its miner transaction behind -----

  const MINER_B := Transaction(5, 1, [Gen], [TxOut(4, KeyTarget(9))])
  const SPEND_B := Transaction(6, 1, [ToKey(7, 0, [])], [])
  const BLOCK_B := Block(4, 1, 1, MINER_B, [6])
  const ITEM_B := Item(BLOCK_B, [SPEND_B])

  lemma {:induction false} ClashStep(t: Tables)
    requires t.spent == {7} && t.index.Keys == {2, 3} && t.outs == EMPTY_TABLES.outs
    ensures var r := AddBlock(t, BLOCK_B, [SPEND_B]);
            && r.Throw? && r.error == KeyImageExists
            && 5 in r.left.index && GetTx(r.left, 5) == Some(MINER_B) && |AmountList(r.left.outs, 4)| == 1
  {
    CoinbaseInputs({7});
    SpendInputs({7}, 7);
    Accepted(t, 5, MINER_B);
    var t1 := AddTransaction(t, 5, MINER_B).value;
    assert AmountList(t.outs, 4) == [];
    assert AddOutputs(t.outs, 5, MINER_B, 0, |t.blocks|) == Ok(t.outs);
    assert |AmountList(t1.outs, 4)| == 1;
    assert AddTransaction(t1, 6, SPEND_B) == Throw(KeyImageExists, t1);
    hide AddTransaction, AddInputs, AddOutputs;
    OneListed(t, BLOCK_B, SPEND_B);
  }

  /**
  A batch in which an add fails on a spent key image, and which is then committed: the chain is
  what it was, but the failed block's miner transaction and its output are stored, so that even a
  block without the offending transaction is refused.
  */
  lemma {:induction false} BatchKeepsPartialAdd()
    ensures var ops := [Add(ITEM_A), BatchStart, Add(ITEM_B), BatchStop];
            var t := Run(ops).tables;
            && Run(ops).batch.None? && ChainAfter(ops) == [ITEM_A] && Build([ITEM_A]).Ok?
            && 5 !in Build([ITEM_A]).value.index && Build([ITEM_A]).value.outs == EMPTY_TABLES.outs
            && GetTx(t, 5) == Some(MINER_B) && |AmountList(t.outs, 4)| == 1
            && AddBlock(t, Block(4, 1, 1, MINER_B, []), []).Throw?
  {
    RunFirstBlock();
    FirstBlock();
    var t := AddBlock(EMPTY_TABLES, BLOCK_A, [SPEND_A]).value;
    ClashStep(t);
    BuildFirst();
    BatchRun(t);
    var left := AddBlock(t, BLOCK_B, [SPEND_B]).left;
    RefusedAgain(left);
    hide AddBlock, Run, ChainsAfter, Build;
  }

  lemma {:induction false} BuildFirst()
    ensures Build([ITEM_A]) == AddBlock(EMPTY_TABLES, BLOCK_A, [SPEND_A])
  {
    hide AddBlock;
    assert [ITEM_A][..0] == [];
  }

  lemma {:induction false} BatchRun(t: Tables)
    requires Run([Add(ITEM_A)]) == Store(t, None) && ChainsAfter([Add(ITEM_A)]) == Chains([ITEM_A], None)
    requires AddBlock(t, BLOCK_B, [SPEND_B]).Throw?
    ensures var ops := [Add(ITEM_A), BatchStart, Add(ITEM_B), BatchStop];
            && Run(ops) == Store(AddBlock(t, BLOCK_B, [SPEND_B]).left, None)
            && ChainAfter(ops) == [ITEM_A]
  {
    hide AddBlock, Run, ChainsAfter;
    var one, two, three := [Add(ITEM_A)], [Add(ITEM_A), BatchStart], [Add(ITEM_A), BatchStart, Add(ITEM_B)];
    RunSnoc(one, BatchStart);
    assert one + [BatchStart] == two;
    RunSnoc(two, Add(ITEM_B));
    assert two + [Add(ITEM_B)] == three;
    RunSnoc(three, BatchStop);
    assert three + [BatchStop] == [Add(ITEM_A), BatchStart, Add(ITEM_B), BatchStop];
  }

  lemma {:induction false} RefusedAgain(t: Tables)
    requires 5 in t.index
    ensures AddBlock(t, Block(4, 1, 1, MINER_B, []), []).Throw?
  {
    CoinbaseInputs(t.spent);
  }

  // ----- A transaction that cannot be taken off again -----

  const MIXED := Transaction(3, 2, [Gen, ToKey(7, 0, [])], [TxOut(5, KeyTarget(9))])

  lemma {:induction false} MixedInputs()
    ensures AddInputs({}, MIXED.vin, 0) == Added({7}) && Images(MIXED.vin) == {7} && HasGen(MIXED.vin)
  {
    var vin := MIXED.vin;
    assert {} + {7} == {7};
    assert AddInputs({7}, vin, 2) == Added({7});
    assert AddInputs({}, vin, 1) == Added({7});
    assert vin[0] == Gen && vin[1].image == 7;
  }

  /** Version 2, a generation input beside a key input, an amount: accepted, but removal does not undo it. */
  lemma {:induction false} MixedStays()
    ensures var r := AddTransaction(EMPTY_TABLES, 3, MIXED);
            r.Ok? && SupportedInputs(MIXED.vin) && RemoveTransaction(r.value, 3) != Ok(EMPTY_TABLES)
  {
    MixedInputs();
    assert MIXED.vout[0].amount == 5;
    assert GoodOutputs(MIXED) && MixedGeneration(MIXED) && !AllZero(MIXED);
    EmptyOk();
    hide AddTransaction, RemoveTransaction, TablesOk, AddInputs, GoodOutputs, MixedGeneration, AllZero;
    Accepted(EMPTY_TABLES, 3, MIXED);
    RemoveUndoesAddIff(EMPTY_TABLES, 3, MIXED);
  }

  // ----- A pop that takes off another block's output -----

  const PLAIN := Transaction(2, 1, [Gen], [TxOut(5, KeyTarget(8))])
  const ITEM_P := Item(Block(1, 0, 1, PLAIN, []), [])
  const ITEM_Q := Item(Block(4, 1, 1, MIXED, []), [])
  const ENTRY_P := OutKey(0, 0, 8, 0)
  const ENTRY_Q := OutKey(0, 1, 9, 1)
  const OUTS_P := Outputs(map[0 := OutTx(2, 0)], map[5 := [ENTRY_P]])
  const OUTS_Q := Outputs(map[0 := OutTx(2, 0), 1 := OutTx(3, 0)], map[5 := [ENTRY_P], 0 := [ENTRY_Q]])
  const OUTS_LEFT := Outputs(map[1 := OutTx(3, 0)], map[0 := [ENTRY_Q]])
  const TABLES_P := Tables([ITEM_P.block], [BlockInfo(1, 0)], map[1 := 0], map[2 := TxIndex(0, 0)],
                           map[0 := PLAIN], map[0 := [0]], OUTS_P, {})
  const TABLES_Q := TABLES_P.(index := map[2 := TxIndex(0, 0), 3 := TxIndex(1, 1)], txs := map[0 := PLAIN, 1 := MIXED],
                              txOutputs := map[0 := [0], 1 := [0]], outs := OUTS_Q, spent := {7})

  lemma {:induction false} WrongOutputAdded()
    ensures AddOutputs(EMPTY_TABLES.outs, 2, PLAIN, 1, 0) == Ok(OUTS_P)
    ensures AddOutputs(OUTS_P, 3, MIXED, 1, 1) == Ok(OUTS_Q)
    ensures OutputIndices(EMPTY_TABLES.outs, 2, PLAIN, 1, 0) == [0] && OutputIndices(OUTS_P, 3, MIXED, 1, 1) == [0]
  {
    var o := EMPTY_TABLES.outs;
    MixedInputs();
    assert AddOutputs(o, 2, PLAIN, 0, 0) == Ok(o) && AddOutputs(OUTS_P, 3, MIXED, 0, 1) == Ok(OUTS_P);
    assert [] + [ENTRY_P] == [ENTRY_P] && [] + [ENTRY_Q] == [ENTRY_Q] && [] + [0] == [0];
    assert o.outputTxs[0 := OutTx(2, 0)] == OUTS_P.outputTxs && o.amounts[5 := [ENTRY_P]] == OUTS_P.amounts;
    assert |OUTS_P.outputTxs| == 1 && AmountList(OUTS_P, 0) == [];
    assert OUTS_P.outputTxs[1 := OutTx(3, 0)] == OUTS_Q.outputTxs && OUTS_P.amounts[0 := [ENTRY_Q]] == OUTS_Q.amounts;
  }

  lemma {:induction false} WrongOutputRemoved()
    ensures RemoveOutputs(OUTS_Q, MIXED, [0], 1) == Ok(OUTS_LEFT)
  {
    assert [ENTRY_P][..0] + [ENTRY_P][1..] == [];
    assert OUTS_Q.outputTxs - {0} == OUTS_LEFT.outputTxs && OUTS_Q.amounts - {5} == OUTS_LEFT.amounts;
    assert RemoveOutput(OUTS_Q, 5, 0) == Ok(OUTS_LEFT);
  }

  lemma {:induction false} PlainAdded()
    ensures AddBlock(EMPTY_TABLES, ITEM_P.block, []) == Ok(TABLES_P)
  {
    var t, b := EMPTY_TABLES, ITEM_P.block;
    CoinbaseInputs({});
    WrongOutputAdded();
    assert t.index[2 := TxIndex(0, 0)] == TABLES_P.index && t.txs[0 := PLAIN] == TABLES_P.txs
           && t.txOutputs[0 := [0]] == TABLES_P.txOutputs;
    hide AddInputs, AddOutputs, OutputIndices;
    var mid := TABLES_P.(blocks := [], info := [], heights := map[]);
    assert AddTransaction(t, 2, PLAIN) == Ok(mid);
    hide AddTransaction;
    assert AddTransactions(t, b, [], 0) == Ok(mid);
    assert [] + [b] == [b] && [] + [BlockInfo(1, 0)] == [BlockInfo(1, 0)] && t.heights[1 := 0] == map[1 := 0];
  }

  lemma {:induction false} MixedAdded()
    ensures AddTransaction(TABLES_P, 3, MIXED) == Ok(TABLES_Q)
  {
    var t := TABLES_P;
    MixedInputs();
    WrongOutputAdded();
    assert |t.txs| == 1;
    assert t.index[3 := TxIndex(1, 1)] == TABLES_Q.index && t.txs[1 := MIXED] == TABLES_Q.txs
           && t.txOutputs[1 := [0]] == TABLES_Q.txOutputs;
    hide AddInputs, AddOutputs, OutputIndices;
  }

  lemma {:induction false} MixedDropped()
    ensures RemoveTransaction(TABLES_Q, 3) == Ok(TABLES_P.(outs := OUTS_LEFT))
  {
    MixedInputs();
    WrongOutputRemoved();
    assert TABLES_Q.index - {3} == TABLES_P.index && TABLES_Q.txs - {1} == TABLES_P.txs
           && TABLES_Q.txOutputs - {1} == TABLES_P.txOutputs && {7} - {7} == {};
    hide RemoveOutputs, Images;
  }

  lemma {:induction false} MixedPopped()
    ensures var r := AddBlock(TABLES_P, ITEM_Q.block, []);
            r.Ok? && PopBlock(r.value, []) == Ok(Popped(TABLES_P.(outs := OUTS_LEFT), []))
  {
    var b := ITEM_Q.block;
    MixedAdded();
    MixedDropped();
    hide AddTransaction, RemoveTransaction, NumRctOuts, RemoveTopBlock;
    assert AddTransactions(TABLES_P, b, [], 0) == Ok(TABLES_Q);
    AppendThenRemoveTop(TABLES_Q, b, NumRctOuts(b, []));
  }

  /**
  Two accepted blocks with supported inputs and a pop, no batch and no failure: the pop deletes the
  output of the block that stays and keeps the one of the block it takes off.
  */
  lemma {:induction false} PopTakesWrongOutput()
    ensures var ops := [Add(ITEM_P), Add(ITEM_Q), Pop];
            && SupportedItem(ITEM_P) && SupportedItem(ITEM_Q)
            && ChainAfter(ops) == [ITEM_P] && Build([ITEM_P]) == Ok(TABLES_P)
            && Run(ops) == Store(TABLES_P.(outs := OUTS_LEFT), None)
            && 2 in Run(ops).tables.index && !Recorded(Run(ops).tables, 2) && !TablesOk(Run(ops).tables)
  {
    PlainAdded();
    MixedPopped();
    LostOutput();
    hide AddBlock, PopBlock, TablesOk, Recorded;
    BuildSnoc([], ITEM_P);
    assert [] + [ITEM_P] == [ITEM_P];
    var one, two := [Add(ITEM_P)], [Add(ITEM_P), Add(ITEM_Q)];
    RunSnoc([], Add(ITEM_P));
    assert [] + [Add(ITEM_P)] == one;
    RunSnoc(one, Add(ITEM_Q));
    assert one + [Add(ITEM_Q)] == two && [ITEM_P] + [ITEM_Q] == [ITEM_P, ITEM_Q];
    RunSnoc(two, Pop);
    assert two + [Pop] == [Add(ITEM_P), Add(ITEM_Q), Pop] && [ITEM_P, ITEM_Q][..1] == [ITEM_P];
  }

  lemma {:induction false} LostOutput()
    ensures var t := TABLES_P.(outs := OUTS_LEFT);
            2 in t.index && !Recorded(t, 2) && !TablesOk(t)
  {
    var t := TABLES_P.(outs := OUTS_LEFT);
    assert AmountList(t.outs, 5) == [];
    assert !OutputAt(t.outs, 2, PLAIN, 0, 0);
    assert t.index[2].txId == 0 && t.txs[0] == PLAIN && t.txOutputs[0][0] == 0 && |PLAIN.vout| == 1;
    assert !Recorded(t, 2);
  }

  // ----- A running total that is wrong -----

  const MINER_1 := Transaction(2, 2, [Gen], [TxOut(5, KeyTarget(8))])
  const MINER_2 := Transaction(3, 2, [Gen], [TxOut(5, KeyTarget(9))])
  const ITEM_1 := Item(Block(1, 0, 1, MINER_1, []), [])
  const ITEM_2 := Item(Block(4, 1, 1, MINER_2, []), [])

  lemma {:induction false} MinerOnly(t: Tables, b: Block)
    requires b.txHashes == [] && b.minerTx.vin == [Gen] && Storable(b.minerTx) && GoodOutputs(b.minerTx)
    requires b.minerTx.hash !in t.index && b.hash !in t.heights && b.majorVersion < 4
    requires |t.blocks| > 0 ==> b.prevId in t.heights && t.heights[b.prevId] == |t.blocks| - 1
    ensures var r := AddBlock(t, b, []);
            && r.Ok? && r.value.index.Keys == t.index.Keys + {b.minerTx.hash}
            && r.value.heights == t.heights[b.hash := |t.blocks|] && |r.value.blocks| == |t.blocks| + 1
  {
    hide AddTransaction, AddInputs, AddOutputs, GoodOutputs, NumRctOuts, AppendBlock;
    CoinbaseInputs(t.spent);
    Accepted(t, b.minerTx.hash, b.minerTx);
    assert AddTransactions(t, b, [], 0) == AddTransaction(t, b.minerTx.hash, b.minerTx);
    Appended(AddTransaction(t, b.minerTx.hash, b.minerTx).value, b, NumRctOuts(b, []));
  }

  lemma {:induction false} Appended(t: Tables, b: Block, numRct: nat)
    requires b.hash !in t.heights && b.majorVersion < 4
    requires |t.blocks| > 0 ==> b.prevId in t.heights && t.heights[b.prevId] == |t.blocks| - 1
    ensures var r := AppendBlock(t, b, numRct);
            && r.Ok? && r.value.index == t.index
            && r.value.heights == t.heights[b.hash := |t.blocks|] && |r.value.blocks| == |t.blocks| + 1
  {}

  lemma {:induction false} TotalsChainBuilds()
    ensures Build([ITEM_1]).Ok? && Build([ITEM_1, ITEM_2]).Ok?
  {
    var t := EMPTY_TABLES;
    assert GoodOutputs(MINER_1) && GoodOutputs(MINER_2);
    hide AddBlock, GoodOutputs;
    MinerOnly(t, ITEM_1.block);
    BuildSnoc([], ITEM_1);
    assert [] + [ITEM_1] == [ITEM_1];
    MinerOnly(AddBlock(t, ITEM_1.block, []).value, ITEM_2.block);
    BuildSnoc([ITEM_1], ITEM_2);
    assert [ITEM_1] + [ITEM_2] == [ITEM_1, ITEM_2];
  }

  lemma {:induction false} TotalsChainPlain()
    ensures PlainChain([ITEM_1]) && PlainChain([ITEM_1, ITEM_2])
  {
    assert MINER_1.vin[0] == Gen && MINER_2.vin[0] == Gen;
  }

  /** Two plain blocks of version 1: the second records one RingCT output where two are listed. */
  lemma {:induction false} TotalGoesWrong()
    ensures Build([ITEM_1, ITEM_2]).Ok? && PlainChain([ITEM_1, ITEM_2]) && !TotalRight([ITEM_1, ITEM_2])
  {
    var front, chain := [ITEM_1], [ITEM_1, ITEM_2];
    TotalsChainBuilds();
    TotalsChainPlain();
    assert chain[..1] == front && front[..0] == [];
    EmptyTotal([]);
    FirstTotal();
    hide Build, PlainChain, TotalRight;
    TotalStep(front);
    TotalStep(chain);
  }

  /** The first block lists one output under amount 0. */
  lemma {:induction false} FirstTotal()
    requires Build([ITEM_1]).Ok?
    ensures ZeroOn([ITEM_1]) == 1 && ZeroOn([]) == 0
  {
    TotalsChainPlain();
    EmptyOk();
    BuildSnoc([], ITEM_1);
    assert [] + [ITEM_1] == [ITEM_1];
    assert AmountList(EMPTY_TABLES.outs, 0) == [];
    hide AddBlock, TablesOk, RctPlain, SupportedItem, NotOverReported, ListedRight;
    assert RctPlain([ITEM_1][0]) && SupportedItem([ITEM_1][0]);
    FirstPlain();
    ReportIsGrowth(EMPTY_TABLES, ITEM_1);
  }

  lemma {:induction false} FirstPlain()
    ensures NotOverReported(ITEM_1.block.minerTx)
  {
    assert MINER_1.vin[0] == Gen;
  }

  // ----- Two miscounts that cancel out -----

  const MINER_R := Transaction(2, 2, [ToKey(6, 0, [])], [TxOut(5, KeyTarget(8))])
  const LISTED_R := Transaction(3, 2, [Gen], [TxOut(5, KeyTarget(9))])
  const ITEM_R := Item(Block(1, 0, 1, MINER_R, [3]), [LISTED_R])

  /** A miner transaction reported too high and a listed one too low: the count is right, the block not plain. */
  lemma {:induction false} MiscountsCancel()
    ensures AddBlock(EMPTY_TABLES, ITEM_R.block, ITEM_R.txs).Ok? && !RctPlain(ITEM_R)
    ensures NumRctOuts(ITEM_R.block, ITEM_R.txs) == Growth(EMPTY_TABLES, ITEM_R)
  {
    var t, b := EMPTY_TABLES, ITEM_R.block;
    EmptyOk();
    MiscountNumbers();
    SpendInputs({}, 6);
    CoinbaseInputs({} + {6});
    assert GoodOutputs(MINER_R) && GoodOutputs(LISTED_R);
    hide AddTransaction, AddTransactions, AddInputs, AddOutputs, TablesOk, GoodOutputs, UnderReport, OverReport,
         RctPlain, NumRctOuts;
    Accepted(t, 2, MINER_R);
    Accepted(AddTransaction(t, 2, MINER_R).value, 3, LISTED_R);
    OneListed(t, b, LISTED_R);
    AppendedFirst(AddTransactions(t, b, [LISTED_R], 1).value, b, NumRctOuts(b, [LISTED_R]));
    ReportIsGrowth(t, ITEM_R);
  }

  lemma {:induction false} AppendedFirst(t: Tables, b: Block, numRct: nat)
    requires t.blocks == [] && b.hash !in t.heights && b.majorVersion < 4
    ensures AppendBlock(t, b, numRct).Ok?
  {}

  lemma {:induction false} MiscountNumbers()
    ensures OverReport(MINER_R) == 1 && UnderReport([LISTED_R], 1) == 1 && !RctPlain(ITEM_R)
  {
    assert LISTED_R.vin[0] == Gen && MINER_R.vin[0] != Gen;
    CountZeroAllZero(MINER_R.vout);
    CountZeroAllZero(LISTED_R.vout);
    assert MINER_R.vout[0].amount == 5;
    assert UnderReport([LISTED_R], 0) == 0;
  }
}
