/**
The block tables as the ancestry tools see them.  Adding a block only extends that view, and the
tools' search for an output's creator by public key finds the recorded creator exactly when no
transaction listed before it in the same block has an output with that key.
*/
module LedgerView {
  import opened Wrappers
  import opened BlockTables
  import opened BlockOutputs
  import opened BlockTheorems
  import opened BlockRuns
  import Ring = RingChain
  import Trace = AncestryTheorems

  // ----- The view -----

  function ViewIn(i: TxIn): Ring.TxIn {
    match i
    case Gen => Ring.Gen
    case ToKey(_, amount, offsets) => Ring.ToKey(amount, offsets)
    case OtherIn => Ring.OtherIn
  }

  function ViewOut(o: TxOut): Ring.TxOut {
    match o.target
    case KeyTarget(key) => Ring.KeyOut(key)
    case OtherTarget => Ring.OtherOut
  }

  function ViewTx(tx: Transaction): Ring.Transaction {
    Ring.Transaction(tx.hash,
                     seq(|tx.vin|, i requires 0 <= i < |tx.vin| => ViewIn(tx.vin[i])),
                     seq(|tx.vout|, i requires 0 <= i < |tx.vout| => ViewOut(tx.vout[i])))
  }

  function ViewBlock(b: Block): Ring.Block {
    Ring.Block(ViewTx(b.minerTx), b.txHashes)
  }

  function ViewBlocks(blocks: seq<Block>): seq<Ring.Block> {
    seq(|blocks|, h requires 0 <= h < |blocks| => ViewBlock(blocks[h]))
  }

  function ViewTxs(t: Tables): map<Hash, Ring.Transaction> {
    map hash | hash in t.index && t.index[hash].txId in t.txs :: ViewTx(t.txs[t.index[hash].txId])
  }

  function ViewOutputs(o: Outputs): map<Ring.Ancestor, Ring.OutputData> {
    map a: nat, k: nat | a in o.amounts && k < |o.amounts[a]| ::
      Ring.Ancestor(a, k) := Ring.OutputData(o.amounts[a][k].height, o.amounts[a][k].key)
  }

  function View(t: Tables): Ring.Db {
    Ring.Db(ViewBlocks(t.blocks), ViewTxs(t), ViewOutputs(t.outs))
  }

  // ----- Adding extends the view -----

  ghost predicate Extended(t: Tables, later: Tables) {
    && (forall hash :: hash in t.index ==> hash in later.index && later.index[hash] == t.index[hash])
    && (forall id :: id in t.txs ==> id in later.txs && later.txs[id] == t.txs[id])
    && Grown(t.outs, later.outs)
    && t.blocks <= later.blocks
  }

  lemma {:induction false} StoredExtends(t: Tables, hash: Hash, tx: Transaction, next: Tables)
    requires TablesOk(t) && Stored(t, hash, tx, next)
    ensures Extended(t, next)
  {
    hide Grown, OutsOk, Recorded, AddOutputs, OutputIndices;
    AddOutputsKeeps(t.outs, hash, tx, |tx.vout|, |t.blocks|);
  }

  lemma {:induction false} AddTransactionExtends(t: Tables, hash: Hash, tx: Transaction)
    requires TablesOk(t) && AddTransaction(t, hash, tx).Ok?
    ensures Extended(t, AddTransaction(t, hash, tx).value)
  {
    if AddInputs(t.spent, tx.vin, 0).Added? {
      StoredExtends(t, hash, tx, AddTransaction(t, hash, tx).value);
    }
  }

  lemma {:induction false} ExtendedTransitive(t: Tables, mid: Tables, later: Tables)
    requires Extended(t, mid) && Extended(mid, later)
    ensures Extended(t, later)
  {
    GrownTransitive(t.outs, mid.outs, later.outs);
    hide Grown;
  }

  lemma {:induction false} AddTransactionsExtends(t: Tables, b: Block, txs: seq<Transaction>, n: nat)
    requires n <= |txs| == |b.txHashes| && TablesOk(t) && AddTransactions(t, b, txs, n).Ok?
    ensures Extended(t, AddTransactions(t, b, txs, n).value)
    decreases n
  {
    hide AddTransaction, TablesOk, Extended;
    if n == 0 {
      AddTransactionExtends(t, b.minerTx.hash, b.minerTx);
    } else {
      AddTransactionsExtends(t, b, txs, n - 1);
      AddTransactionsKeeps(t, b, txs, n - 1);
      var mid := AddTransactions(t, b, txs, n - 1).value;
      AddTransactionExtends(mid, b.txHashes[n - 1], txs[n - 1]);
      ExtendedTransitive(t, mid, AddTransactions(t, b, txs, n).value);
    }
  }

  lemma {:induction false} ViewOutputsGrow(o: Outputs, later: Outputs, m: Ring.Ancestor)
    requires Grown(o, later) && m in ViewOutputs(o)
    ensures m in ViewOutputs(later) && ViewOutputs(later)[m] == ViewOutputs(o)[m]
  {
    assert AmountList(o, m.amount) <= AmountList(later, m.amount);
  }

  lemma {:induction false} ViewTxsGrow(t: Tables, later: Tables, hash: Hash)
    requires Extended(t, later) && hash in ViewTxs(t)
    ensures hash in ViewTxs(later) && ViewTxs(later)[hash] == ViewTxs(t)[hash]
  {
    hide ViewTx, Grown;
  }

  lemma {:induction false} ViewBlocksGrow(blocks: seq<Block>, later: seq<Block>)
    requires blocks <= later
    ensures ViewBlocks(blocks) <= ViewBlocks(later)
  {
    hide ViewBlock;
  }

  lemma {:induction false} ViewExtends(t: Tables, later: Tables)
    requires Extended(t, later)
    ensures Trace.Extends(View(t), View(later))
  {
    hide ViewTxs, ViewOutputs, ViewBlocks, Grown;
    ViewBlocksGrow(t.blocks, later.blocks);
    forall m | m in ViewOutputs(t.outs)
      ensures m in ViewOutputs(later.outs) && ViewOutputs(later.outs)[m] == ViewOutputs(t.outs)[m]
    {
      ViewOutputsGrow(t.outs, later.outs, m);
    }
    forall hash | hash in ViewTxs(t) ensures hash in ViewTxs(later) && ViewTxs(later)[hash] == ViewTxs(t)[hash] {
      ViewTxsGrow(t, later, hash);
    }
  }

  /** Adding a block, whatever it holds, extends what the ancestry tools see. */
  lemma {:induction false} AddBlockExtendsView(t: Tables, it: Item)
    requires TablesOk(t) && AddBlock(t, it.block, it.txs).Ok?
    ensures Trace.Extends(View(t), View(AddBlock(t, it.block, it.txs).value))
  {
    var n := |it.txs|;
    var mid := AddTransactions(t, it.block, it.txs, n).value;
    AddTransactionsExtends(t, it.block, it.txs, n);
    hide AddTransactions, Grown, TablesOk;
    ViewExtends(t, AddBlock(t, it.block, it.txs).value);
  }

  // ----- Every listed output has a recorded creator -----

  /** Entry k of amount a is output r.localIndex of stored transaction r.txHash, of the entry's height. */
  ghost predicate Created(t: Tables, e: OutKey, a: nat) {
    && e.outputId in t.outs.outputTxs
    && var r := t.outs.outputTxs[e.outputId];
    && r.txHash in t.index && t.index[r.txHash].txId in t.txs
    && t.index[r.txHash].height == e.height
    && var tx := t.txs[t.index[r.txHash].txId];
    && r.localIndex < |tx.vout|
    && StoredOut(tx, r.localIndex).amount == a
    && tx.vout[r.localIndex].target == KeyTarget(e.key)
  }

  ghost predicate AllCreated(t: Tables) {
    forall a: nat, k: nat :: k < |AmountList(t.outs, a)| ==> Created(t, AmountList(t.outs, a)[k], a)
  }

  lemma {:induction false} CreatedExtended(t: Tables, later: Tables, e: OutKey, a: nat)
    requires Extended(t, later) && Created(t, e, a)
    ensures Created(later, e, a)
  {}

  /** What the entries added by a transaction look like. */
  ghost predicate FromTx(o: Outputs, e: OutKey, a: nat, hash: Hash, tx: Transaction, n: nat, height: nat)
    requires n <= |tx.vout|
  {
    && e.height == height && e.outputId in o.outputTxs
    && var r := o.outputTxs[e.outputId];
    && r.txHash == hash && r.localIndex < n
    && StoredOut(tx, r.localIndex).amount == a
    && tx.vout[r.localIndex].target == KeyTarget(e.key)
  }

  lemma {:induction false} FromTxGrown(o: Outputs, later: Outputs, e: OutKey, a: nat, hash: Hash, tx: Transaction,
        n: nat, height: nat)
    requires n < |tx.vout| && Grown(o, later) && FromTx(o, e, a, hash, tx, n, height)
    ensures FromTx(later, e, a, hash, tx, n + 1, height)
  {}

  lemma {:induction false} LastEntry(o: Outputs, hash: Hash, tx: Transaction, i: nat, height: nat)
    requires i < |tx.vout| && AddOutput(o, hash, StoredOut(tx, i), i, HasCommitments(tx), height).Ok?
    ensures var a := StoredOut(tx, i).amount;
            var next := AddOutput(o, hash, StoredOut(tx, i), i, HasCommitments(tx), height).value;
            && |AmountList(next, a)| == |AmountList(o, a)| + 1
            && FromTx(next, AmountList(next, a)[|AmountList(o, a)|], a, hash, tx, i + 1, height)
  {
    AddOutputShape(o, hash, StoredOut(tx, i), i, HasCommitments(tx), height);
    hide AddOutput, AmountList;
  }

  lemma {:induction false} NewEntries(o: Outputs, hash: Hash, tx: Transaction, n: nat, height: nat, a: nat, k: nat)
    requires n <= |tx.vout| && OutsOk(o) && AddOutputs(o, hash, tx, n, height).Ok?
    requires |AmountList(o, a)| <= k < |AmountList(AddOutputs(o, hash, tx, n, height).value, a)|
    ensures var next := AddOutputs(o, hash, tx, n, height).value;
            FromTx(next, AmountList(next, a)[k], a, hash, tx, n, height)
    decreases n
  {
    hide AddOutput, OutsOk, FromTx, AmountList;
    if n > 0 {
      var mid, out := AddOutputs(o, hash, tx, n - 1, height).value, StoredOut(tx, n - 1);
      var next := AddOutputs(o, hash, tx, n, height).value;
      AddOutputsKeeps(o, hash, tx, n - 1, height);
      if k < |AmountList(mid, a)| {
        AddOutputGrows(mid, hash, out, n - 1, HasCommitments(tx), height);
        NewEntries(o, hash, tx, n - 1, height, a, k);
        assert AmountList(mid, a) <= AmountList(next, a);
        FromTxGrown(mid, next, AmountList(mid, a)[k], a, hash, tx, n - 1, height);
      } else {
        AddOutputShape(mid, hash, out, n - 1, HasCommitments(tx), height);
        LastEntry(mid, hash, tx, n - 1, height);
      }
    }
  }

  lemma {:induction false} AddTransactionCreated(t: Tables, hash: Hash, tx: Transaction)
    requires TablesOk(t) && AllCreated(t) && SupportedInputs(tx.vin) && AddTransaction(t, hash, tx).Ok?
    ensures var next := AddTransaction(t, hash, tx).value;
            AllCreated(next) && GetTx(next, hash) == Some(tx)
  {
    var next := AddTransaction(t, hash, tx).value;
    AddInputsInverse(t.spent, tx.vin);
    AddTransactionExtends(t, hash, tx);
    forall a: nat, k: nat | k < |AmountList(next.outs, a)| ensures Created(next, AmountList(next.outs, a)[k], a) {
      if k < |AmountList(t.outs, a)| {
        assert AmountList(t.outs, a) <= AmountList(next.outs, a);
        CreatedExtended(t, next, AmountList(t.outs, a)[k], a);
      } else {
        NewEntries(t.outs, hash, tx, |tx.vout|, |t.blocks|, a, k);
      }
    }
  }

  // ----- Blocks list what is stored, and only that -----

  /** The block's miner transaction and all listed transactions can be looked up. */
  ghost predicate BlockStored(t: Tables, b: Block) {
    && GetTx(t, b.minerTx.hash) == Some(b.minerTx)
    && forall j :: 0 <= j < |b.txHashes| ==> GetTx(t, b.txHashes[j]).Some?
  }

  /** A stored transaction is listed in the block of its height, or among those of the block in progress. */
  ghost predicate Placed(t: Tables, hash: Hash, current: seq<Hash>)
    requires hash in t.index
  {
    var h := t.index[hash].height;
    (h < |t.blocks| && hash in Ids(t.blocks[h])) || (h == |t.blocks| && hash in current)
  }

  ghost predicate Ledger(t: Tables, current: seq<Hash>) {
    && AllCreated(t)
    && (forall h :: 0 <= h < |t.blocks| ==> BlockStored(t, t.blocks[h]))
    && (forall hash :: hash in t.index ==> Placed(t, hash, current))
    && (forall j :: 0 <= j < |current| ==> GetTx(t, current[j]).Some?)
  }

  lemma {:induction false} GetTxExtended(t: Tables, later: Tables, hash: Hash)
    requires Extended(t, later) && GetTx(t, hash).Some?
    ensures GetTx(later, hash) == GetTx(t, hash)
  {
    hide Grown;
  }

  lemma {:induction false} BlockStoredExtended(t: Tables, later: Tables, b: Block)
    requires Extended(t, later) && BlockStored(t, b)
    ensures BlockStored(later, b)
  {
    hide Extended, GetTx;
    GetTxExtended(t, later, b.minerTx.hash);
    forall j | 0 <= j < |b.txHashes| ensures GetTx(later, b.txHashes[j]).Some? {
      GetTxExtended(t, later, b.txHashes[j]);
    }
  }

  lemma {:induction false} AddTransactionPlaced(t: Tables, hash: Hash, tx: Transaction, current: seq<Hash>, h: Hash)
    requires (forall k :: k in t.index ==> Placed(t, k, current)) && AddTransaction(t, hash, tx).Ok?
    requires h in AddTransaction(t, hash, tx).value.index
    ensures Placed(AddTransaction(t, hash, tx).value, h, current + [hash])
  {
    AddTransactionFrame(t, hash, tx);
    if h in t.index && h != hash { assert Placed(t, h, current); }
    hide AddOutputs, OutputIndices, AddInputs;
  }

  lemma {:induction false} AddTransactionLedger(t: Tables, hash: Hash, tx: Transaction, current: seq<Hash>)
    requires TablesOk(t) && Ledger(t, current) && SupportedInputs(tx.vin) && AddTransaction(t, hash, tx).Ok?
    ensures Ledger(AddTransaction(t, hash, tx).value, current + [hash])
    ensures GetTx(AddTransaction(t, hash, tx).value, hash) == Some(tx)
  {
    var next := AddTransaction(t, hash, tx).value;
    AddTransactionCreated(t, hash, tx);
    AddTransactionExtends(t, hash, tx);
    AddTransactionFrame(t, hash, tx);
    forall k | k in next.index ensures Placed(next, k, current + [hash]) {
      AddTransactionPlaced(t, hash, tx, current, k);
    }
    hide AddTransaction, AllCreated, Extended, BlockStored, Placed, GetTx, TablesOk;
    forall h | 0 <= h < |next.blocks| ensures BlockStored(next, next.blocks[h]) {
      BlockStoredExtended(t, next, t.blocks[h]);
    }
    forall j | 0 <= j < |current + [hash]| ensures GetTx(next, (current + [hash])[j]).Some? {
      if j < |current| { GetTxExtended(t, next, current[j]); }
    }
  }

  lemma {:induction false} AddTransactionsLedger(t: Tables, it: Item, n: nat)
    requires n <= |it.txs| == |it.block.txHashes| && TablesOk(t) && Ledger(t, []) && SupportedItem(it)
    requires AddTransactions(t, it.block, it.txs, n).Ok?
    ensures var next := AddTransactions(t, it.block, it.txs, n).value;
            && Ledger(next, [it.block.minerTx.hash] + it.block.txHashes[..n])
            && GetTx(next, it.block.minerTx.hash) == Some(it.block.minerTx)
    decreases n
  {
    hide AddTransaction, Ledger, TablesOk, GetTx;
    var b := it.block;
    if n == 0 {
      AddTransactionLedger(t, b.minerTx.hash, b.minerTx, []);
      assert [] + [b.minerTx.hash] == [b.minerTx.hash] + b.txHashes[..0];
    } else {
      AddTransactionsLedger(t, it, n - 1);
      AddTransactionsKeeps(t, b, it.txs, n - 1);
      var mid := AddTransactions(t, b, it.txs, n - 1).value;
      AddTransactionLedger(mid, b.txHashes[n - 1], it.txs[n - 1], [b.minerTx.hash] + b.txHashes[..n - 1]);
      AddTransactionExtends(mid, b.txHashes[n - 1], it.txs[n - 1]);
      GetTxExtended(mid, AddTransactions(t, b, it.txs, n).value, b.minerTx.hash);
      assert [b.minerTx.hash] + b.txHashes[..n - 1] + [b.txHashes[n - 1]] == [b.minerTx.hash] + b.txHashes[..n];
    }
  }

  lemma {:induction false} AppendLedger(t: Tables, b: Block, numRct: nat)
    requires Ledger(t, Ids(b)) && GetTx(t, b.minerTx.hash) == Some(b.minerTx) && AppendBlock(t, b, numRct).Ok?
    ensures Ledger(AppendBlock(t, b, numRct).value, [])
  {
    var next := AppendBlock(t, b, numRct).value;
    assert forall j :: 0 <= j < |b.txHashes| ==> b.txHashes[j] == Ids(b)[j + 1];
    forall hash | hash in next.index ensures Placed(next, hash, []) {
      assert Placed(t, hash, Ids(b));
    }
    assert BlockStored(t, b);
    forall h | 0 <= h < |next.blocks| ensures BlockStored(next, next.blocks[h]) {
      assert h < |t.blocks| ==> BlockStored(t, t.blocks[h]);
    }
    forall a: nat, k: nat | k < |AmountList(next.outs, a)| ensures Created(next, AmountList(next.outs, a)[k], a) {
      assert Created(t, AmountList(t.outs, a)[k], a);
    }
  }

  lemma {:induction false} EmptyLedger()
    ensures Ledger(EMPTY_TABLES, [])
  {}

  /** On every chain: each listed output has a stored creator, listed in the block of the output's height. */
  lemma {:induction false} BuildLedger(chain: seq<Item>)
    requires Build(chain).Ok? && AllSupported(chain)
    ensures Ledger(Build(chain).value, [])
  {
    if chain == [] {
      EmptyLedger();
    } else {
      var front, it := chain[..|chain| - 1], chain[|chain| - 1];
      BuildLedger(front);
      BuildOk(front);
      hide Ledger, TablesOk, AddTransactions, AppendBlock, SupportedItem;
      AddTransactionsLedger(Build(front).value, it, |it.txs|);
      assert [it.block.minerTx.hash] + it.block.txHashes[..|it.txs|] == Ids(it.block);
      var mid := AddTransactions(Build(front).value, it.block, it.txs, |it.txs|).value;
      AppendLedger(mid, it.block, NumRctOuts(it.block, it.txs));
    }
  }

  // ----- The key search against the record -----

  /** The stored transaction has an output with this key. */
  ghost predicate KeyAt(t: Tables, hash: Hash, key: PublicKey) {
    GetTx(t, hash).Some? && Ring.HasKey(ViewTx(GetTx(t, hash).value).vout, key)
  }

  lemma {:induction false} StoredOutputsTyped(t: Tables, hash: Hash)
    requires TablesOk(t) && GetTx(t, hash).Some?
    ensures Ring.OtherOut !in ViewTx(GetTx(t, hash).value).vout
  {
    var id := t.index[hash].txId;
    var tx := t.txs[id];
    assert Recorded(t, hash);
    forall i | 0 <= i < |tx.vout| ensures ViewOut(tx.vout[i]) != Ring.OtherOut {
      assert OutputAt(t.outs, hash, tx, i, t.txOutputs[id][i]);
    }
  }

  /** On a stored transaction the scan of the outputs answers yes or no. */
  lemma {:induction false} ScanDecides(t: Tables, hash: Hash, key: PublicKey)
    requires TablesOk(t) && GetTx(t, hash).Some?
    ensures Ring.FindKey(ViewTx(GetTx(t, hash).value).vout, key)
            == if KeyAt(t, hash, key) then Ring.Found else Ring.Absent
  {
    StoredOutputsTyped(t, hash);
    Ring.FindKeyMeaning(ViewTx(GetTx(t, hash).value).vout, key);
  }

  lemma {:induction false} ViewHasTx(t: Tables, hash: Hash)
    requires GetTx(t, hash).Some?
    ensures hash in View(t).txs && View(t).txs[hash] == ViewTx(GetTx(t, hash).value)
  {}

  lemma {:induction false} ListSearchFindsFirst(t: Tables, hashes: seq<Hash>, key: PublicKey, j: nat)
    requires TablesOk(t) && j < |hashes| && KeyAt(t, hashes[j], key)
    requires forall i :: 0 <= i < |hashes| ==> GetTx(t, hashes[i]).Some?
    requires forall i :: 0 <= i < j ==> !KeyAt(t, hashes[i], key)
    ensures Ring.SearchTxs(View(t), hashes, key) == Some(hashes[j])
    decreases j
  {
    hide KeyAt, TablesOk, GetTx, View, ViewTx;
    ViewHasTx(t, hashes[0]);
    ScanDecides(t, hashes[0], key);
    if j > 0 {
      assert forall i :: 0 <= i < |hashes| - 1 ==> hashes[1..][i] == hashes[i + 1];
      ListSearchFindsFirst(t, hashes[1..], key, j - 1);
    }
  }

  lemma {:induction false} SearchFindsFirst(t: Tables, b: Block, key: PublicKey, j: nat)
    requires TablesOk(t) && BlockStored(t, b) && j < |Ids(b)| && KeyAt(t, Ids(b)[j], key)
    requires forall i :: 0 <= i < j ==> !KeyAt(t, Ids(b)[i], key)
    ensures Ring.SearchBlock(View(t), ViewBlock(b), key) == Some(Ids(b)[j])
  {
    hide KeyAt, TablesOk, GetTx, View;
    ScanDecides(t, b.minerTx.hash, key);
    if j > 0 {
      assert !KeyAt(t, Ids(b)[0], key);
      assert forall i :: 0 <= i < |b.txHashes| ==> b.txHashes[i] == Ids(b)[i + 1];
      forall i | 0 <= i < j - 1 ensures !KeyAt(t, b.txHashes[i], key) {
        assert !KeyAt(t, Ids(b)[i + 1], key);
      }
      ListSearchFindsFirst(t, b.txHashes, key, j - 1);
    }
  }

  lemma {:induction false} FirstWithKey(t: Tables, ids: seq<Hash>, key: PublicKey, p: nat) returns (j: nat)
    requires p < |ids| && KeyAt(t, ids[p], key)
    ensures j <= p && KeyAt(t, ids[j], key) && forall i :: 0 <= i < j ==> !KeyAt(t, ids[i], key)
  {
    hide KeyAt;
    j := 0;
    while !KeyAt(t, ids[j], key)
      invariant j <= p && forall i :: 0 <= i < j ==> !KeyAt(t, ids[i], key)
      decreases p - j
    {
      j := j + 1;
    }
  }

  /** The recorded creator of an entry, the block that lists it, and its key. */
  lemma {:induction false} CreatorInBlock(t: Tables, e: OutKey, a: nat)
    requires Ledger(t, []) && Created(t, e, a)
    ensures var creator := t.outs.outputTxs[e.outputId].txHash;
            e.height < |t.blocks| && creator in Ids(t.blocks[e.height]) && KeyAt(t, creator, e.key)
  {
    var r := t.outs.outputTxs[e.outputId];
    assert Placed(t, r.txHash, []);
    var tx := GetTx(t, r.txHash).value;
    assert ViewTx(tx).vout[r.localIndex] == Ring.KeyOut(e.key);
  }

  lemma {:induction false} OriginIsBlockSearch(t: Tables, a: nat, k: nat)
    requires k < |AmountList(t.outs, a)| && AmountList(t.outs, a)[k].height < |t.blocks|
    ensures var e := AmountList(t.outs, a)[k];
            Ring.Origin(View(t), Ring.Ancestor(a, k)) == Ring.SearchBlock(View(t), ViewBlock(t.blocks[e.height]), e.key)
  {
    assert Ring.Ancestor(a, k) in ViewOutputs(t.outs);
    hide ViewTxs;
  }

  /** The creator is the first with the key exactly when no earlier id has it. */
  lemma {:induction false} FirstIsCreator(t: Tables, ids: seq<Hash>, key: PublicKey, creator: Hash, j: nat)
    requires creator in ids && KeyAt(t, creator, key) && j <= Ring.IndexOf(ids, creator)
    requires j < |ids| && KeyAt(t, ids[j], key) && forall i :: 0 <= i < j ==> !KeyAt(t, ids[i], key)
    ensures Ring.IndexOf(ids, creator) < |ids|
    ensures ids[j] == creator <==> forall i :: 0 <= i < Ring.IndexOf(ids, creator) ==> !KeyAt(t, ids[i], key)
  {
    hide KeyAt;
    Ring.IndexOfFirst(ids, creator);
  }

  /** The key search finds the recorded creator of entry k of amount a. */
  ghost predicate FindsCreator(t: Tables, a: nat, k: nat)
    requires k < |AmountList(t.outs, a)| && AmountList(t.outs, a)[k].outputId in t.outs.outputTxs
  {
    Ring.Origin(View(t), Ring.Ancestor(a, k)) == Some(t.outs.outputTxs[AmountList(t.outs, a)[k].outputId].txHash)
  }

  /** Nothing listed in the block before the creator has an output with the key. */
  ghost predicate NoEarlierKey(t: Tables, ids: seq<Hash>, creator: Hash, key: PublicKey) {
    forall i :: 0 <= i < Ring.IndexOf(ids, creator) && i < |ids| ==> !KeyAt(t, ids[i], key)
  }

  lemma {:induction false} SearchAgainstRecord(t: Tables, a: nat, k: nat)
    requires TablesOk(t) && Ledger(t, []) && k < |AmountList(t.outs, a)|
    ensures var e := AmountList(t.outs, a)[k];
            && e.outputId in t.outs.outputTxs && e.height < |t.blocks|
            && Ring.Origin(View(t), Ring.Ancestor(a, k)).Some?
            && (FindsCreator(t, a, k)
                <==> NoEarlierKey(t, Ids(t.blocks[e.height]), t.outs.outputTxs[e.outputId].txHash, e.key))
  {
    var e := AmountList(t.outs, a)[k];
    assert Created(t, e, a);
    CreatorInBlock(t, e, a);
    var b, creator := t.blocks[e.height], t.outs.outputTxs[e.outputId].txHash;
    assert BlockStored(t, b);
    hide TablesOk, Ledger, BlockStored, KeyAt, View, Created, Ids, Ring.Origin, AmountList;
    Ring.IndexOfFirst(Ids(b), creator);
    var j := FirstWithKey(t, Ids(b), e.key, Ring.IndexOf(Ids(b), creator));
    SearchFindsFirst(t, b, e.key, j);
    OriginIsBlockSearch(t, a, k);
    FirstIsCreator(t, Ids(b), e.key, creator, j);
  }

  /**
  On every chain and for every listed output: the search by key finds some creator, and finds the
  recorded one exactly when nothing listed before that one in its block has an output with the key.
  */
  lemma {:induction false} SearchFindsCreator(chain: seq<Item>, a: nat, k: nat)
    requires Build(chain).Ok? && AllSupported(chain) && k < |AmountList(Build(chain).value.outs, a)|
    ensures var t := Build(chain).value;
            var e := AmountList(t.outs, a)[k];
            && e.outputId in t.outs.outputTxs && e.height < |t.blocks|
            && Ring.Origin(View(t), Ring.Ancestor(a, k)).Some?
            && (FindsCreator(t, a, k)
                <==> NoEarlierKey(t, Ids(t.blocks[e.height]), t.outs.outputTxs[e.outputId].txHash, e.key))
  {
    BuildOk(chain);
    BuildLedger(chain);
    hide Build, TablesOk, Ledger, FindsCreator, NoEarlierKey, AmountList, Ring.Origin;
    SearchAgainstRecord(Build(chain).value, a, k);
  }

  // A block whose miner transaction and one listed transaction have an output with the same key.
  const TWIN_TX := Transaction(3, 1, [], [TxOut(7, KeyTarget(9))])
  const TWIN_MINER := Transaction(2, 1, [Gen], [TxOut(5, KeyTarget(9))])
  const TWIN_BLOCK := Block(1, 0, 1, TWIN_MINER, [3])
  const MINER_OUTS := Outputs(map[0 := OutTx(2, 0)], map[5 := [OutKey(0, 0, 9, 0)]])
  const TWIN_OUTS := Outputs(map[0 := OutTx(2, 0), 1 := OutTx(3, 0)],
                             map[5 := [OutKey(0, 0, 9, 0)], 7 := [OutKey(0, 1, 9, 0)]])

  lemma {:induction false} TwinOutputs()
    ensures AddOutputs(EMPTY_TABLES.outs, 2, TWIN_MINER, 1, 0) == Ok(MINER_OUTS)
    ensures AddOutputs(MINER_OUTS, 3, TWIN_TX, 1, 0) == Ok(TWIN_OUTS)
  {
    var e1, e2: OutKey := OutKey(0, 0, 9, 0), OutKey(0, 1, 9, 0);
    var o := EMPTY_TABLES.outs;
    assert [] + [e1] == [e1] && [] + [e2] == [e2];
    assert o.outputTxs[0 := OutTx(2, 0)] == MINER_OUTS.outputTxs && o.amounts[5 := [e1]] == MINER_OUTS.amounts;
    OneOutput(o, 2, TWIN_MINER, 0, MINER_OUTS);
    assert |MINER_OUTS.outputTxs| == 1;
    assert MINER_OUTS.outputTxs[1 := OutTx(3, 0)] == TWIN_OUTS.outputTxs;
    assert MINER_OUTS.amounts[7 := [e2]] == TWIN_OUTS.amounts;
    OneOutput(MINER_OUTS, 3, TWIN_TX, 0, TWIN_OUTS);
  }

  lemma {:induction false} TwinTransactions()
    ensures var r := AddTransactions(EMPTY_TABLES, TWIN_BLOCK, [TWIN_TX], 1);
            && r.Ok? && r.value.outs == TWIN_OUTS && r.value.blocks == [] && r.value.heights == map[]
            && r.value.spent == {} && r.value.index.Keys == {2, 3}
  {
    TwinOutputs();
    hide AddOutputs, OutputIndices;
    assert AddInputs({}, TWIN_MINER.vin, 0) == Added({});
    assert AddInputs({}, TWIN_TX.vin, 0) == Added({});
    var t1 := AddTransaction(EMPTY_TABLES, 2, TWIN_MINER);
    assert t1.Ok? && t1.value.outs == MINER_OUTS && 3 !in t1.value.index && t1.value.spent == {};
    assert AddTransactions(EMPTY_TABLES, TWIN_BLOCK, [TWIN_TX], 0) == t1;
  }

  lemma {:induction false} TwinBuilds()
    ensures var r := Build([Item(TWIN_BLOCK, [TWIN_TX])]);
            && r.Ok? && r.value.outs == TWIN_OUTS && r.value.blocks == [TWIN_BLOCK]
            && r.value.heights == map[1 := 0] && r.value.spent == {} && r.value.index.Keys == {2, 3}
  {
    TwinTransactions();
    hide AddTransactions;
    var chain := [Item(TWIN_BLOCK, [TWIN_TX])];
    assert chain[..0] == [];
    assert Build(chain) == AddBlock(EMPTY_TABLES, TWIN_BLOCK, [TWIN_TX]);
  }

  /** The listed transaction's output is traced to the miner transaction. */
  lemma {:induction false} SameKeyMisleads()
    ensures var r := Build([Item(TWIN_BLOCK, [TWIN_TX])]);
            && r.Ok? && r.value.outs == TWIN_OUTS
            && TWIN_OUTS.outputTxs[TWIN_OUTS.amounts[7][0].outputId] == OutTx(3, 0)
            && Ring.Origin(View(r.value), Ring.Ancestor(7, 0)) == Some(2)
  {
    var chain := [Item(TWIN_BLOCK, [TWIN_TX])];
    TwinBuilds();
    BuildOk(chain);
    assert SupportedItem(chain[0]);
    BuildLedger(chain);
    var t := Build(chain).value;
    assert BlockStored(t, TWIN_BLOCK);
    TwinMinerKey(t);
    hide Build, Ledger, TablesOk, BlockStored, KeyAt, ViewTxs, SupportedItem;
    OriginIsBlockSearch(t, 7, 0);
    SearchFindsFirst(t, TWIN_BLOCK, 9, 0);
  }

  lemma {:induction false} TwinMinerKey(t: Tables)
    requires BlockStored(t, TWIN_BLOCK)
    ensures Ids(TWIN_BLOCK)[0] == 2 && KeyAt(t, 2, 9)
  {
    assert ViewTx(TWIN_MINER).vout[0] == Ring.KeyOut(9);
  }

  lemma {:induction false} OneOutput(o: Outputs, hash: Hash, tx: Transaction, height: nat, next: Outputs)
    requires |tx.vout| == 1 && AddOutput(o, hash, StoredOut(tx, 0), 0, HasCommitments(tx), height) == Ok(next)
    ensures AddOutputs(o, hash, tx, 1, height) == Ok(next)
  {
    assert AddOutputs(o, hash, tx, 0, height) == Ok(o);
  }

  /** A chain of coinbase-mined blocks gives the tracers what they assume about miner transactions. */
  lemma {:induction false} MinersAreStored(chain: seq<Item>)
    requires Build(chain).Ok? && AllSupported(chain)
    requires forall i :: 0 <= i < |chain| ==> Ring.IsCoinbase(ViewTx(chain[i].block.minerTx))
    ensures Ring.MinersStored(View(Build(chain).value))
  {
    var t := Build(chain).value;
    BuildOk(chain);
    BuildLedger(chain);
    hide Build, TablesOk, GetTx;
    forall h | 0 <= h < |t.blocks|
      ensures var id := ViewBlocks(t.blocks)[h].minerTx.id; id in View(t).txs && Ring.IsCoinbase(View(t).txs[id])
    {
      assert BlockStored(t, t.blocks[h]);
      ViewHasTx(t, t.blocks[h].minerTx.hash);
    }
  }
}
