/**
The database object: its tables are fields that add_block and pop_block update step by step.
Every method is proved to do what the functions of BlockTables say, and to leave what they say
when it throws.
*/
module BlockchainDb {
  import opened Wrappers
  import opened BlockTables
  import opened BlockRuns

  datatype Status = Fine | Raised(error: Error)

  class BlockchainDB {
    var blocks: seq<Block>
    var info: seq<BlockInfo>
    var heights: map<Hash, nat>
    var index: map<Hash, TxIndex>
    var txs: map<nat, Transaction>
    var txOutputs: map<nat, seq<nat>>
    var outputTxs: map<nat, OutTx>
    var amounts: map<nat, seq<OutKey>>
    var spent: set<KeyImage>
    var batch: Option<Tables>  // what to go back to if the open batch is aborted

    function Outs(): Outputs
      reads this
    {
      Outputs(outputTxs, amounts)
    }

    function Current(): Tables
      reads this
    {
      Tables(blocks, info, heights, index, txs, txOutputs, Outs(), spent)
    }

    /** The object as a state of the runs in BlockRuns. */
    function State(): Store
      reads this
    {
      Store(Current(), batch)
    }

    constructor ()
      ensures State() == Run([])
    {
      blocks, info, heights, index, txs, txOutputs := [], [], map[], map[], map[], map[];
      outputTxs, amounts, spent, batch := map[], map[], {}, None;
    }

    /** Takes back the key images of all inputs. */
    method RemoveSpentKeys(vin: seq<TxIn>)
      modifies this`spent
      ensures spent == old(spent) - Images(vin)
    {
      for i := 0 to |vin|
        invariant spent == old(spent) - Images(vin[..i])
      {
        ImagesSnoc(vin, i);
        if vin[i].ToKey? { spent := spent - {vin[i].image}; }
      }
      assert vin[..|vin|] == vin;
    }

    /** Marks the key images of all inputs as spent, or aborts on an unsupported input. */
    method AddSpentKeys(vin: seq<TxIn>) returns (r: InputsResult, minerTx: bool)
      modifies this`spent
      ensures r == AddInputs(old(spent), vin, 0)
      ensures spent == r.spent
      ensures r.Added? ==> minerTx == HasGen(vin)
    {
      minerTx := false;
      for i := 0 to |vin|
        invariant AddInputs(old(spent), vin, 0) == AddInputs(spent, vin, i)
        invariant minerTx == (Gen in vin[..i])
      {
        assert vin[..i + 1] == vin[..i] + [vin[i]];
        match vin[i] {
          case ToKey(image, _, _) =>
            if image in spent { return Clash(spent), minerTx; }
            spent := spent + {image};
          case Gen => minerTx := true;
          case OtherIn =>
            RemoveSpentKeys(vin);
            return Aborted(spent), minerTx;
        }
      }
      assert vin[..|vin|] == vin;
      r := Added(spent);
    }

    method StoreOutput(txHash: Hash, out: TxOut, localIndex: nat, commitment: bool) returns (status: Status,
          amountIndex: nat)
      modifies this`outputTxs, this`amounts
      ensures Outcome(status, AddOutput(old(Outs()), txHash, out, localIndex, commitment, |blocks|), Outs())
      ensures status == Fine ==> amountIndex == |AmountList(old(Outs()), out.amount)|
    {
      amountIndex := 0;
      if !out.target.KeyTarget? { return Raised(WrongOutputType), amountIndex; }
      if out.amount == 0 && !commitment { return Raised(NoCommitment), amountIndex; }
      var id := |outputTxs|;
      var entries := if out.amount in amounts then amounts[out.amount] else [];
      outputTxs := outputTxs[id := OutTx(txHash, localIndex)];
      amounts := amounts[out.amount := entries + [OutKey(|entries|, id, out.target.key, |blocks|)]];
      status, amountIndex := Fine, |entries|;
    }

    method StoreOutputs(hash: Hash, tx: Transaction, minerTx: bool) returns (status: Status, indices: seq<nat>)
      requires minerTx == HasGen(tx.vin)
      modifies this`outputTxs, this`amounts
      ensures Outcome(status, AddOutputs(old(Outs()), hash, tx, |tx.vout|, |blocks|), Outs())
      ensures status == Fine ==> indices == OutputIndices(old(Outs()), hash, tx, |tx.vout|, |blocks|)
    {
      indices := [];
      ghost var before := Outs();
      hide AddOutput, AmountList;
      for i := 0 to |tx.vout|
        invariant AddOutputs(before, hash, tx, i, |blocks|) == Ok(Outs())
        invariant indices == OutputIndices(before, hash, tx, i, |blocks|)
      {
        var amountIndex;
        if minerTx && tx.version == 2 {
          status, amountIndex := StoreOutput(hash, tx.vout[i].(amount := 0), i, true);
        } else {
          status, amountIndex := StoreOutput(hash, tx.vout[i], i, tx.version > 1);
        }
        if status.Raised? {
          assert AddOutputs(before, hash, tx, i + 1, |blocks|) == Throw(status.error, Outs());
          AddOutputsFails(before, hash, tx, i + 1, |tx.vout|, |blocks|);
          return;
        }
        indices := indices + [amountIndex];
      }
      status := Fine;
    }

    /** Stores one transaction; the tables are exactly those of the specification, also when it throws. */
    method StoreTransaction(hash: Hash, tx: Transaction) returns (status: Status)
      modifies this`spent, this`index, this`txs, this`txOutputs, this`outputTxs, this`amounts
      ensures Outcome(status, AddTransaction(old(Current()), hash, tx), Current())
    {
      hide AddInputs, AddOutputs, OutputIndices;
      var inputs, minerTx := AddSpentKeys(tx.vin);
      if inputs.Clash? { return Raised(KeyImageExists); }
      if inputs.Aborted? { return Fine; }
      if hash in index { return Raised(TxExists); }
      var id := |txs|;
      index := index[hash := TxIndex(id, |blocks|)];
      if !Storable(tx) { return Raised(NotSerialized); }
      txs := txs[id := tx];
      var indices;
      status, indices := StoreOutputs(hash, tx, minerTx);
      if status.Raised? { return; }
      txOutputs := txOutputs[id := indices];
    }

    method DropOutput(amount: nat, amountIndex: nat) returns (status: Status)
      modifies this`outputTxs, this`amounts
      ensures Outcome(status, RemoveOutput(old(Outs()), amount, amountIndex), Outs())
    {
      if amount !in amounts { return Raised(OutputMissing); }
      var entries := amounts[amount];
      var p := FindEntry(entries, amountIndex);
      if p >= |entries| || entries[p].outputId !in outputTxs { return Raised(OutputMissing); }
      outputTxs := outputTxs - {entries[p].outputId};
      var rest := entries[..p] + entries[p + 1..];
      amounts := if rest == [] then amounts - {amount} else amounts[amount := rest];
      status := Fine;
    }

    /** Removes a transaction's outputs, last to first, from the lists they are looked for in. */
    method DropOutputs(tx: Transaction, indices: seq<nat>) returns (status: Status)
      modifies this`outputTxs, this`amounts
      ensures Outcome(status, RemoveOutputs(old(Outs()), tx, indices, |tx.vout|), Outs())
    {
      var pseudoRct := tx.version >= 2 && |tx.vin| == 1 && tx.vin[0].Gen?;
      ghost var before := Outs();
      var i := |tx.vout|;
      hide RemoveOutput, RemoveOutputs;
      while i > 0
        invariant 0 <= i <= |tx.vout|
        invariant RemoveOutputs(before, tx, indices, |tx.vout|) == RemoveOutputs(Outs(), tx, indices, i)
      {
        RemoveOutputsStep(Outs(), tx, indices, i);
        i := i - 1;
        if i >= |indices| { return Raised(OutputMissing); }
        status := DropOutput(if pseudoRct then 0 else tx.vout[i].amount, indices[i]);
        if status.Raised? { return; }
      }
      RemoveNoOutputs(Outs(), tx, indices);
      status := Fine;
    }

    /** Removes a stored transaction: its key images, its outputs, its data. */
    method DropTransaction(hash: Hash) returns (status: Status)
      modifies this`spent, this`index, this`txs, this`txOutputs, this`outputTxs, this`amounts
      ensures Outcome(status, RemoveTransaction(old(Current()), hash), Current())
    {
      hide RemoveOutputs, Images;
      if hash !in index || index[hash].txId !in txs { return Raised(TxMissing); }
      var id := index[hash].txId;
      var tx := txs[id];
      RemoveSpentKeys(tx.vin);
      txs := txs - {id};
      status := DropOutputs(tx, if id in txOutputs then txOutputs[id] else []);
      if status.Raised? { return; }
      txOutputs := txOutputs - {id};
      index := index - {hash};
    }

    /** Appends the block record itself. */
    method StoreBlock(blk: Block, numRct: nat) returns (status: Status)
      modifies this`blocks, this`info, this`heights
      ensures Outcome(status, AppendBlock(old(Current()), blk, numRct), Current())
    {
      var h := |blocks|;
      if blk.hash in heights { return Raised(BlockExists); }
      if h > 0 && (blk.prevId !in heights || heights[blk.prevId] != h - 1) { return Raised(ParentMissing); }
      blocks := blocks + [blk];
      var cum := numRct;
      if blk.majorVersion >= 4 {
        if h == 0 || h > |info| { return Raised(BlockMissing); }
        cum := cum + info[h - 1].cumRct;
      }
      info := info + [BlockInfo(blk.hash, cum)];
      heights := heights[blk.hash := h];
      status := Fine;
    }

    /** The base class's add_block: returns the height before; nothing is taken back here. */
    method AddBlockInTransaction(blk: Block, txList: seq<Transaction>) returns (status: Status, prevHeight: nat)
      modifies this
      ensures batch == old(batch) && prevHeight == |old(blocks)|
      ensures Outcome(status, BlockTables.AddBlock(old(Current()), blk, txList), Current())
    {
      hide AddTransaction, AppendBlock;
      prevHeight := |blocks|;
      if |blk.txHashes| != |txList| { return Raised(SizeMismatch), prevHeight; }
      ghost var before := Current();
      var numRct := 0;
      status := StoreTransaction(blk.minerTx.hash, blk.minerTx);
      if status.Raised? {
        AddTransactionsFails(before, blk, txList, 0, |txList|);
        return;
      }
      if blk.minerTx.version == 2 { numRct := numRct + |blk.minerTx.vout|; }
      assert txList[..0] == [];
      for i := 0 to |txList|
        invariant AddTransactions(before, blk, txList, i) == Ok(Current())
        invariant numRct == NumRctOuts(blk, txList[..i])
        invariant batch == old(batch)
      {
        status := StoreTransaction(blk.txHashes[i], txList[i]);
        if status.Raised? {
          AddTransactionsFails(before, blk, txList, i + 1, |txList|);
          return;
        }
        var zero := CountZeroOutputs(txList[i].vout);
        numRct := numRct + zero;
        assert txList[..i + 1][..i] == txList[..i];
      }
      assert txList[..|txList|] == txList;
      status := StoreBlock(blk, numRct);
    }

    /** Takes back what a throwing operation wrote, unless a batch is open. */
    method BlockTxnAbort(saved: Tables)
      modifies this
      ensures State() == if old(batch).Some? then old(State()) else Store(saved, None)
    {
      if batch.None? { Restore(saved); }
    }

    /** Adds a block and returns the new height. */
    method AddBlock(blk: Block, txList: seq<Transaction>) returns (status: Status, height: nat)
      modifies this
      ensures State() == Apply(old(State()), Add(Item(blk, txList)))
      ensures status == StatusOf(BlockTables.AddBlock(old(Current()), blk, txList))
      ensures status == Fine ==> height == |blocks| == |old(blocks)| + 1
    {
      hide AddTransactions, NumRctOuts;
      var saved := Current();
      var prevHeight;
      status, prevHeight := AddBlockInTransaction(blk, txList);
      height := prevHeight + 1;
      if status.Raised? { BlockTxnAbort(saved); } else { AddedHeight(saved, blk, txList); }
    }

    method Restore(t: Tables)
      modifies this
      ensures Current() == t && batch == old(batch)
    {
      blocks, info, heights, index, txs, txOutputs := t.blocks, t.info, t.heights, t.index, t.txs, t.txOutputs;
      outputTxs, amounts, spent := t.outs.outputTxs, t.outs.amounts, t.spent;
    }

    method StartBatch() returns (started: bool)
      modifies this`batch
      ensures State() == Apply(old(State()), BatchStart) && started == old(batch).None?
    {
      started := batch.None?;
      if started { batch := Some(Current()); }
    }

    /** Commits an open batch; without one it throws and changes nothing. */
    method StopBatch() returns (stopped: bool)
      modifies this`batch
      ensures State() == Apply(old(State()), BatchStop) && stopped == old(batch).Some?
    {
      stopped := batch.Some?;
      batch := None;
    }

    /** Goes back to where an open batch began; without one it throws and changes nothing. */
    method AbortBatch() returns (aborted: bool)
      modifies this
      ensures State() == Apply(old(State()), BatchAbort) && aborted == old(batch).Some?
    {
      aborted := batch.Some?;
      if aborted {
        Restore(batch.value);
        batch := None;
      }
    }

    /** The base class's pop_block; nothing is put back here. */
    method PopBlockInTransaction(txs0: seq<Transaction>) returns (status: Status, blk: Block, txList: seq<Transaction>)
      requires blocks != []
      modifies this
      ensures batch == old(batch) && blk == old(blocks)[|old(blocks)| - 1]
      ensures Outcome(status, BlockTables.PopBlock(old(Current()), txs0), Popped(Current(), txList))
    {
      hide RemoveTransaction;
      blk, txList := blocks[|blocks| - 1], txs0;
      ghost var before := Current();
      var h := |blocks|;
      if h > |info| { return Raised(BlockMissing), blk, txList; }
      blocks, heights := blocks[..h - 1], heights - {info[h - 1].hash};
      info := info[..h - 1] + info[h..];
      var i := |blk.txHashes|;
      while i > 0
        invariant 0 <= i <= |blk.txHashes|
        invariant BlockTables.PopBlock(before, txs0) == RemoveTransactions(Current(), blk, i, txList)
        invariant batch == old(batch)
      {
        i := i - 1;
        var hash := blk.txHashes[i];
        if hash !in index || index[hash].txId !in txs { return Raised(TxMissing), blk, txList; }
        txList := txList + [txs[index[hash].txId]];
        status := DropTransaction(hash);
        if status.Raised? { return; }
      }
      status := DropTransaction(blk.minerTx.hash);
    }

    /** Pops the top block and appends its transactions to the caller's list. */
    method PopBlock(txs0: seq<Transaction>) returns (status: Status, blk: Option<Block>, txList: seq<Transaction>)
      modifies this
      ensures var r := BlockTables.PopBlock(old(Current()), txs0);
              && State() == Settle(old(State()), After(r).tables, r.Throw?)
              && (txs0 == [] ==> State() == Apply(old(State()), Pop))
              && status == StatusOf(r) && txList == After(r).txs
              && (r.Ok? ==> old(blocks) != [] && blk == Some(old(blocks)[|old(blocks)| - 1]))
    {
      if blocks == [] { return Raised(BlockMissing), None, txs0; }
      hide RemoveTransactions;
      var saved := Current();
      var top;
      status, top, txList := PopBlockInTransaction(txs0);
      blk := Some(top);
      if status.Raised? { BlockTxnAbort(saved); }
    }
  }

  /** What a method reports for a specified result. */
  function StatusOf<T>(r: Result<T>): Status {
    match r
    case Ok(_) => Fine
    case Throw(e, _) => Raised(e)
  }

  /** The method reports the specified result and has left the specified state, thrown or not. */
  ghost predicate Outcome<T>(status: Status, spec: Result<T>, state: T) {
    status == StatusOf(spec) && state == After(spec)
  }

  lemma {:induction false} AddedHeight(t: Tables, b: Block, txs: seq<Transaction>)
    requires BlockTables.AddBlock(t, b, txs).Ok?
    ensures |BlockTables.AddBlock(t, b, txs).value.blocks| == |t.blocks| + 1
  {
    AddTransactionsBlocks(t, b, txs, |txs|);
    hide AddTransactions, NumRctOuts;
  }

  lemma {:induction false} AddTransactionsBlocks(t: Tables, b: Block, txs: seq<Transaction>, n: nat)
    requires n <= |txs| == |b.txHashes| && AddTransactions(t, b, txs, n).Ok?
    ensures AddTransactions(t, b, txs, n).value.blocks == t.blocks
    decreases n
  {
    hide AddTransaction;
    if n == 0 {
      AddTransactionFrame(t, b.minerTx.hash, b.minerTx);
    } else {
      AddTransactionsBlocks(t, b, txs, n - 1);
      AddTransactionFrame(AddTransactions(t, b, txs, n - 1).value, b.txHashes[n - 1], txs[n - 1]);
    }
  }

  method CountZeroOutputs(vout: seq<TxOut>) returns (n: nat)
    ensures n == CountZero(vout)
  {
    n := 0;
    for i := 0 to |vout|
      invariant n == CountZero(vout[..i])
    {
      if vout[i].amount == 0 { n := n + 1; }
      assert vout[..i + 1][..i] == vout[..i];
    }
    assert vout[..|vout|] == vout;
  }

  lemma {:induction false} RemoveOutputsStep(o: Outputs, tx: Transaction, indices: seq<nat>, n: nat)
    requires 0 < n <= |tx.vout|
    ensures n > |indices| ==> RemoveOutputs(o, tx, indices, n) == Throw(OutputMissing, o)
    ensures n <= |indices| ==>
              match RemoveOutput(o, RemovedAmount(tx, n - 1), indices[n - 1])
              case Ok(mid) => RemoveOutputs(o, tx, indices, n) == RemoveOutputs(mid, tx, indices, n - 1)
              case Throw(e, left) => RemoveOutputs(o, tx, indices, n) == Throw(e, left)
  {
    hide RemoveOutput;
  }

  lemma {:induction false} RemoveNoOutputs(o: Outputs, tx: Transaction, indices: seq<nat>)
    ensures RemoveOutputs(o, tx, indices, 0) == Ok(o)
  {}

  lemma {:induction false} AddTransactionsFails(t: Tables, b: Block, txs: seq<Transaction>, m: nat, n: nat)
    requires m <= n <= |txs| == |b.txHashes| && AddTransactions(t, b, txs, m).Throw?
    ensures AddTransactions(t, b, txs, n) == AddTransactions(t, b, txs, m)
    decreases n
  {
    if m < n { AddTransactionsFails(t, b, txs, m, n - 1); }
  }

  lemma {:induction false} ImagesSnoc(vin: seq<TxIn>, i: nat)
    requires i < |vin|
    ensures Images(vin[..i + 1]) == Images(vin[..i]) + if vin[i].ToKey? then {vin[i].image} else {}
  {
    var upTo := vin[..i + 1];
    forall k ensures k in Images(upTo) <==> k in Images(vin[..i]) || (vin[i].ToKey? && k == vin[i].image) {
      if k in Images(upTo) {
        var j :| 0 <= j < |upTo| && upTo[j].ToKey? && upTo[j].image == k;
        if j < i { assert vin[..i][j] == upTo[j]; }
      }
      if k in Images(vin[..i]) {
        var j :| 0 <= j < i && vin[..i][j].ToKey? && vin[..i][j].image == k;
        assert upTo[j] == vin[j];
      }
      if vin[i].ToKey? { assert upTo[i] == vin[i]; }
    }
  }

  lemma {:induction false} AddOutputsFails(o: Outputs, hash: Hash, tx: Transaction, m: nat, n: nat, height: nat)
    requires m <= n <= |tx.vout| && AddOutputs(o, hash, tx, m, height).Throw?
    ensures AddOutputs(o, hash, tx, n, height) == AddOutputs(o, hash, tx, m, height)
    decreases n
  {
    if m < n { AddOutputsFails(o, hash, tx, m, n - 1, height); }
  }
}
