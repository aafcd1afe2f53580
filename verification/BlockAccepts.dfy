/** Exactly which blocks the database accepts, and which chains of blocks can be built. */
module BlockAccepts {
  import opened Wrappers
  import opened BlockTables
  import opened BlockTheorems
  import opened BlockRuns

  // ----- Two lists together -----

  lemma {:induction false} DistinctJoin<T>(a: seq<T>, b: seq<T>)
    ensures Distinct(a + b) <==> Distinct(a) && Distinct(b) && Elements(a) !! Elements(b)
    ensures Elements(a + b) == Elements(a) + Elements(b)
  {
    var all, n := a + b, |a|;
    assert forall i :: 0 <= i < n ==> all[i] == a[i];
    assert forall i :: 0 <= i < |b| ==> all[n + i] == b[i];
    if Distinct(all) {
      forall i, j | 0 <= i < n && 0 <= j < |b| ensures a[i] != b[j] {
        assert all[i] != all[n + j];
      }
      forall i, j | 0 <= i < j < |b| ensures b[i] != b[j] {
        assert all[n + i] != all[n + j];
      }
    }
    if Distinct(a) && Distinct(b) && Elements(a) !! Elements(b) {
      forall i, j | 0 <= i < j < |all| ensures all[i] != all[j] {
        if i < n && j >= n { assert all[i] in Elements(a) && all[j] in Elements(b); }
        if i >= n { assert all[i] == b[i - n] && all[j] == b[j - n]; }
      }
    }
  }

  /** The new list has no repetition and nothing in common with what is there. */
  ghost predicate New<T>(s: seq<T>, there: set<T>) {
    Distinct(s) && Elements(s) !! there
  }

  lemma {:induction false} NewJoin<T>(a: seq<T>, b: seq<T>, there: set<T>)
    ensures New(a + b, there) <==> New(a, there) && New(b, there + Elements(a))
    ensures there + Elements(a + b) == there + Elements(a) + Elements(b)
  {
    DistinctJoin(a, b);
    hide Distinct;
  }

  lemma {:induction false} NewOne<T>(x: T, there: set<T>)
    ensures New([x], there) <==> x !in there
    ensures Elements([x]) == {x}
  {
    assert x in [x];
  }

  // ----- The transactions of a block -----

  predicate GoodTx(tx: Transaction) {
    (tx.version == 1 || tx.version == 2) && GoodOutputs(tx)
  }

  /** The miner transaction and the first n listed ones have a known version and good outputs. */
  predicate GoodTxs(it: Item, n: nat)
    requires n <= |it.txs|
  {
    GoodTx(it.block.minerTx) && forall i :: 0 <= i < n ==> GoodTx(it.txs[i])
  }

  ghost predicate TxsAccepted(t: Tables, it: Item, n: nat)
    requires n <= |it.txs| == |it.block.txHashes|
  {
    && GoodTxs(it, n)
    && New([it.block.minerTx.hash] + it.block.txHashes[..n], t.index.Keys)
    && New(TxImages(it, n), t.spent)
  }

  lemma {:induction false} NextTx(t: Tables, hash: Hash, tx: Transaction)
    requires SupportedInputs(tx.vin)
    ensures var r := AddTransaction(t, hash, tx);
            && (r.Ok? <==> GoodTx(tx) && New([hash], t.index.Keys) && New(ImageList(tx.vin, 0), t.spent))
            && (r.Ok? ==> && r.value.index.Keys == t.index.Keys + {hash}
                          && r.value.spent == t.spent + Elements(ImageList(tx.vin, 0)))
  {
    AddTransactionIff(t, hash, tx);
    NewOne(hash, t.index.Keys);
    hide AddTransaction, ImageList, Distinct, Elements, GoodOutputs;
  }

  /** The transactions of a block are stored exactly when all are good and hashes and images are new. */
  lemma {:induction false} AddTransactionsIff(t: Tables, it: Item, n: nat)
    requires n <= |it.txs| == |it.block.txHashes| && SupportedItem(it)
    ensures var r, ids := AddTransactions(t, it.block, it.txs, n), [it.block.minerTx.hash] + it.block.txHashes[..n];
            && (r.Ok? <==> TxsAccepted(t, it, n))
            && (r.Ok? ==> && r.value.index.Keys == t.index.Keys + Elements(ids)
                          && r.value.spent == t.spent + Elements(TxImages(it, n)))
    decreases n
  {
    var b := it.block;
    hide AddTransaction, New, Elements, GoodTx, ImageList, SupportedInputs;
    if n == 0 {
      assert [b.minerTx.hash] + b.txHashes[..0] == [b.minerTx.hash];
      NextTx(t, b.minerTx.hash, b.minerTx);
      NewOne(b.minerTx.hash, t.index.Keys);
    } else {
      var ids, hash := [b.minerTx.hash] + b.txHashes[..n - 1], b.txHashes[n - 1];
      var images := ImageList(it.txs[n - 1].vin, 0);
      assert [b.minerTx.hash] + b.txHashes[..n] == ids + [hash];
      AddTransactionsIff(t, it, n - 1);
      NewJoin(ids, [hash], t.index.Keys);
      NewJoin(TxImages(it, n - 1), images, t.spent);
      NewOne(hash, t.index.Keys);
      if AddTransactions(t, b, it.txs, n - 1).Ok? {
        var mid := AddTransactions(t, b, it.txs, n - 1).value;
        NextTx(mid, hash, it.txs[n - 1]);
        assert TxsAccepted(t, it, n) <==> AddTransaction(mid, hash, it.txs[n - 1]).Ok?;
      } else {
        assert !TxsAccepted(t, it, n);
      }
    }
  }

  // ----- One block -----

  /** The block record is new, follows the top block, and from version 4 on there is one to follow. */
  predicate Follows(t: Tables, b: Block) {
    && b.hash !in t.heights
    && (t.blocks != [] ==> b.prevId in t.heights && t.heights[b.prevId] == |t.blocks| - 1)
    && (b.majorVersion >= 4 ==> t.blocks != [])
  }

  lemma {:induction false} AppendIff(t: Tables, b: Block, numRct: nat)
    requires |t.info| == |t.blocks|
    ensures var r := AppendBlock(t, b, numRct);
            && (r.Ok? <==> Follows(t, b))
            && (r.Ok? ==> && r.value.blocks == t.blocks + [b] && r.value.heights == t.heights[b.hash := |t.blocks|]
                          && r.value.index == t.index && r.value.spent == t.spent)
            && (r.Throw? ==> r.left == if r.error == BlockMissing then t.(blocks := t.blocks + [b]) else t)
            && (r.Throw? && r.error == BlockMissing <==>
                  b.hash !in t.heights && t.blocks == [] && b.majorVersion >= 4)
  {}

  ghost predicate BlockAccepted(t: Tables, it: Item) {
    |it.txs| == |it.block.txHashes| && TxsAccepted(t, it, |it.txs|) && Follows(t, it.block)
  }

  /**
  A block with supported inputs is accepted exactly when its lists have the same size, all its
  transactions have a known version and good outputs, their hashes and key images are new and
  without repetition, and the block is new and follows the top block.
  */
  lemma {:induction false} AddBlockIff(t: Tables, it: Item)
    requires TablesOk(t) && SupportedItem(it)
    ensures var r := AddBlock(t, it.block, it.txs);
            && (r.Ok? <==> BlockAccepted(t, it))
            && (r.Ok? ==> && r.value.index.Keys == t.index.Keys + Elements(Ids(it.block))
                          && r.value.spent == t.spent + Elements(TxImages(it, |it.txs|))
                          && r.value.heights == t.heights[it.block.hash := |t.blocks|])
  {
    var b, n := it.block, |it.txs|;
    hide AddTransactions, AppendBlock, TablesOk, SupportedItem, TxsAccepted, Elements, TxImages, NumRctOuts;
    if |b.txHashes| == n {
      AddTransactionsIff(t, it, n);
      assert [b.minerTx.hash] + b.txHashes[..n] == Ids(b);
      if AddTransactions(t, b, it.txs, n).Ok? {
        var mid := AddTransactions(t, b, it.txs, n).value;
        AddTransactionsKeeps(t, b, it.txs, n);
        InfoLength(mid);
        AppendIff(mid, b, NumRctOuts(b, it.txs));
      }
    }
  }

  // ----- Whole chains -----

  function ChainIds(chain: seq<Item>): seq<Hash> {
    if chain == [] then [] else ChainIds(chain[..|chain| - 1]) + Ids(chain[|chain| - 1].block)
  }

  /** Each block's hash leads to its height, and nothing else does. */
  ghost predicate HeightsAre(t: Tables, chain: seq<Item>) {
    && (forall i :: 0 <= i < |chain| ==> chain[i].block.hash in t.heights && t.heights[chain[i].block.hash] == i)
    && (forall hash :: hash in t.heights ==> t.heights[hash] < |chain| && chain[t.heights[hash]].block.hash == hash)
  }

  predicate GoodBlock(it: Item) {
    |it.txs| == |it.block.txHashes| && GoodTxs(it, |it.txs|)
  }

  predicate GoodBlocks(chain: seq<Item>) {
    forall i :: 0 <= i < |chain| ==> GoodBlock(chain[i])
  }

  /** The block's hash is new to the chain, and it names the last block; only a later one may have version 4. */
  predicate LinksTo(chain: seq<Item>, b: Block) {
    && (forall i :: 0 <= i < |chain| ==> chain[i].block.hash != b.hash)
    && (chain != [] ==> b.prevId == chain[|chain| - 1].block.hash)
    && (b.majorVersion >= 4 ==> chain != [])
  }

  /** Different block hashes, each block names the one before it, and the first is below version 4. */
  ghost predicate Linked(chain: seq<Item>) {
    && (forall i, j :: 0 <= i < j < |chain| ==> chain[i].block.hash != chain[j].block.hash)
    && (forall i :: 0 < i < |chain| ==> chain[i].block.prevId == chain[i - 1].block.hash)
    && (chain != [] ==> chain[0].block.majorVersion < 4)
  }

  /** What can be seen of a chain without any table. */
  ghost predicate Buildable(chain: seq<Item>) {
    GoodBlocks(chain) && Distinct(ChainIds(chain)) && Distinct(ChainImages(chain)) && Linked(chain)
  }

  lemma {:induction false} LinkedSnoc(chain: seq<Item>, it: Item)
    ensures Linked(chain + [it]) <==> Linked(chain) && LinksTo(chain, it.block)
  {
    var all, n := chain + [it], |chain|;
    assert all[n] == it && forall i :: 0 <= i < n ==> all[i] == chain[i];
    if Linked(all) {
      forall i, j | 0 <= i < j < n ensures chain[i].block.hash != chain[j].block.hash {
        assert all[i].block.hash != all[j].block.hash;
      }
      forall i | 0 < i < n ensures chain[i].block.prevId == chain[i - 1].block.hash {
        assert all[i].block.prevId == all[i - 1].block.hash;
      }
    }
  }

  lemma {:induction false} GoodSnoc(chain: seq<Item>, it: Item)
    ensures GoodBlocks(chain + [it]) <==> GoodBlocks(chain) && GoodBlock(it)
  {
    var all := chain + [it];
    hide GoodBlock;
    assert all[|chain|] == it && forall i :: 0 <= i < |chain| ==> all[i] == chain[i];
  }

  lemma {:induction false} BuildableSnoc(chain: seq<Item>, it: Item)
    ensures Buildable(chain + [it])
       <==> && Buildable(chain) && GoodBlock(it) && LinksTo(chain, it.block)
            && New(Ids(it.block), Elements(ChainIds(chain)))
            && New(TxImages(it, |it.txs|), Elements(ChainImages(chain)))
  {
    assert (chain + [it])[..|chain|] == chain;
    hide GoodBlock, GoodBlocks, Linked, LinksTo, Distinct, Ids, TxImages;
    LinkedSnoc(chain, it);
    GoodSnoc(chain, it);
    DistinctJoin(ChainIds(chain), Ids(it.block));
    DistinctJoin(ChainImages(chain), TxImages(it, |it.txs|));
  }

  ghost predicate Holds(t: Tables, chain: seq<Item>) {
    t.index.Keys == Elements(ChainIds(chain)) && t.spent == Elements(ChainImages(chain)) && HeightsAre(t, chain)
  }

  lemma {:induction false} HoldsNext(t: Tables, chain: seq<Item>, it: Item)
    requires Holds(t, chain) && |t.blocks| == |chain| && TablesOk(t) && SupportedItem(it)
    requires AddBlock(t, it.block, it.txs).Ok?
    ensures Holds(AddBlock(t, it.block, it.txs).value, chain + [it])
  {
    hide AddBlock, TablesOk, SupportedItem, BlockAccepted, Ids, TxImages, Elements;
    assert (chain + [it])[..|chain|] == chain;
    AddBlockIff(t, it);
    NewHash(t, it);
    DistinctJoin(ChainIds(chain), Ids(it.block));
    DistinctJoin(ChainImages(chain), TxImages(it, |it.txs|));
    HeightsGrow(t, chain, it);
  }

  /** The tables of a chain hold its hashes, its images and its heights, and nothing else. */
  lemma {:induction false} BuiltTables(chain: seq<Item>)
    requires AllSupported(chain) && Build(chain).Ok?
    ensures Holds(Build(chain).value, chain)
  {
    hide AddBlock, TablesOk, SupportedItem, Holds;
    if chain == [] {
      NothingHeld();
    } else {
      var front, it := chain[..|chain| - 1], chain[|chain| - 1];
      BuiltTables(front);
      BuildOk(front);
      HoldsNext(Build(front).value, front, it);
      assert front + [it] == chain;
    }
  }

  lemma {:induction false} NothingHeld()
    ensures Holds(EMPTY_TABLES, [])
  {}

  lemma {:induction false} NewHash(t: Tables, it: Item)
    requires BlockAccepted(t, it)
    ensures it.block.hash !in t.heights
  {}

  lemma {:induction false} HeightsGrow(t: Tables, chain: seq<Item>, it: Item)
    requires HeightsAre(t, chain) && it.block.hash !in t.heights
    ensures HeightsAre(t.(heights := t.heights[it.block.hash := |chain|]), chain + [it])
  {
    var all := chain + [it];
    assert forall i :: 0 <= i < |chain| ==> all[i] == chain[i];
  }

  /** The heights say that the block is new and that its parent is the last one. */
  lemma {:induction false} FollowsIff(t: Tables, chain: seq<Item>, b: Block)
    requires HeightsAre(t, chain) && |t.blocks| == |chain|
    ensures Follows(t, b) <==> LinksTo(chain, b)
  {
    if b.hash in t.heights { assert chain[t.heights[b.hash]].block.hash == b.hash; }
  }

  /** Given what is built, the next block is accepted exactly when the longer chain is buildable. */
  lemma {:induction false} NextBlock(t: Tables, chain: seq<Item>, it: Item)
    requires Buildable(chain) && |t.blocks| == |chain| && HeightsAre(t, chain)
    requires t.index.Keys == Elements(ChainIds(chain)) && t.spent == Elements(ChainImages(chain))
    ensures BlockAccepted(t, it) <==> Buildable(chain + [it])
  {
    var n := |it.txs|;
    assert |it.block.txHashes| == n ==> [it.block.minerTx.hash] + it.block.txHashes[..n] == Ids(it.block);
    hide New, Elements, GoodTxs, TxImages, Ids, HeightsAre, Follows, Buildable, LinksTo, ChainIds, ChainImages;
    FollowsIff(t, chain, it.block);
    BuildableSnoc(chain, it);
  }

  /**
  A chain of blocks with supported inputs can be built exactly when, over the whole chain, all
  transaction hashes, all key images and all block hashes are different, each block names the one
  before it, all transactions have a known version and good outputs, all lists have the same size
  as their hashes, and the first block is below version 4.
  */
  lemma {:induction false} BuildIff(chain: seq<Item>)
    requires AllSupported(chain)
    ensures Build(chain).Ok? <==> Buildable(chain)
  {
    if chain != [] {
      hide AddBlock, TablesOk, SupportedItem, BlockAccepted, Buildable, HeightsAre, Elements, ChainIds, ChainImages;
      var front, it := chain[..|chain| - 1], chain[|chain| - 1];
      BuildIff(front);
      assert front + [it] == chain;
      BuildableSnoc(front, it);
      if Build(front).Ok? {
        BuiltTables(front);
        assert Holds(Build(front).value, front);
        BuildOk(front);
        AddBlockIff(Build(front).value, it);
        NextBlock(Build(front).value, front, it);
      }
    }
  }
}
