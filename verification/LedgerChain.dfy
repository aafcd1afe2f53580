/**
What the tracers assume about a chain follows from how blocks are added, given what consensus
checks of a block: its miner transaction is a coinbase, and its rings name outputs already listed.
*/
module LedgerChain {
  import opened Wrappers
  import opened BlockTables
  import opened BlockOutputs
  import opened BlockTheorems
  import opened BlockRuns
  import opened LedgerView
  import Ring = RingChain
  import Trace = AncestryTheorems
  import Forward = AncestryForward

  // ----- Each id is listed at one height -----

  ghost predicate ListedAt(t: Tables, b: Block, h: nat) {
    forall j :: 0 <= j < |Ids(b)| ==> Ids(b)[j] in t.index && t.index[Ids(b)[j]].height == h
  }

  /** All blocks list transactions of their own height only, and so does the block in progress. */
  ghost predicate Listed(t: Tables, current: seq<Hash>) {
    && (forall h :: 0 <= h < |t.blocks| ==> ListedAt(t, t.blocks[h], h))
    && (forall j :: 0 <= j < |current| ==> current[j] in t.index && t.index[current[j]].height == |t.blocks|)
  }

  /** The transaction's inputs can be followed, and its ring members are entries of earlier height. */
  ghost predicate RingsBefore(t: Tables, tx: Transaction, height: nat) {
    && Ring.GoodInputs(ViewTx(tx))
    && forall m :: m in Ring.RingMembers(ViewTx(tx)) ==>
                  m.offset < |AmountList(t.outs, m.amount)| && AmountList(t.outs, m.amount)[m.offset].height < height
  }

  ghost predicate AllRingsBefore(t: Tables) {
    forall hash :: hash in t.index && t.index[hash].txId in t.txs ==>
                     RingsBefore(t, t.txs[t.index[hash].txId], t.index[hash].height)
  }

  /** What consensus has checked before a block is added to these tables. */
  ghost predicate Checked(t: Tables, it: Item) {
    && Ring.IsCoinbase(ViewTx(it.block.minerTx))
    && forall i :: 0 <= i < |it.txs| ==> RingsListed(t, it.txs[i])
  }

  ghost predicate RingsListed(t: Tables, tx: Transaction) {
    && Ring.GoodInputs(ViewTx(tx))
    && forall m :: m in Ring.RingMembers(ViewTx(tx)) ==> m.offset < |AmountList(t.outs, m.amount)|
  }

  lemma {:induction false} RingsBeforeExtended(t: Tables, later: Tables, tx: Transaction, height: nat)
    requires Extended(t, later) && RingsBefore(t, tx, height)
    ensures RingsBefore(later, tx, height)
  {
    hide Ring.RingMembers;
    forall m | m in Ring.RingMembers(ViewTx(tx))
      ensures var entries := AmountList(later.outs, m.amount);
              m.offset < |entries| && entries[m.offset].height < height
    {
      assert AmountList(t.outs, m.amount) <= AmountList(later.outs, m.amount);
    }
  }

  /** Outputs listed before a block is added have a lower height. */
  lemma {:induction false} ListedRingsBefore(t: Tables, tx: Transaction)
    requires Ledger(t, []) && RingsListed(t, tx)
    ensures RingsBefore(t, tx, |t.blocks|)
  {
    hide Ring.RingMembers;
    forall m | m in Ring.RingMembers(ViewTx(tx)) ensures AmountList(t.outs, m.amount)[m.offset].height < |t.blocks| {
      var e := AmountList(t.outs, m.amount)[m.offset];
      assert Created(t, e, m.amount);
      CreatorInBlock(t, e, m.amount);
    }
  }

  lemma {:induction false} ListedExtended(t: Tables, later: Tables, current: seq<Hash>)
    requires Listed(t, current) && Extended(t, later) && later.blocks == t.blocks
    ensures Listed(later, current)
  {
    hide Grown, Ids;
    forall h | 0 <= h < |later.blocks| ensures ListedAt(later, later.blocks[h], h) {
      assert ListedAt(t, t.blocks[h], h);
    }
  }

  lemma {:induction false} AddedIsStored(t: Tables, hash: Hash, tx: Transaction)
    requires SupportedInputs(tx.vin) && AddTransaction(t, hash, tx).Ok?
    ensures Stored(t, hash, tx, AddTransaction(t, hash, tx).value)
  {
    AddInputsInverse(t.spent, tx.vin);
    hide AddInputs, AddOutputs, OutputIndices, Images;
  }

  lemma {:induction false} AddTransactionListed(t: Tables, hash: Hash, tx: Transaction, current: seq<Hash>)
    requires TablesOk(t) && Listed(t, current) && AllRingsBefore(t) && RingsBefore(t, tx, |t.blocks|)
    requires SupportedInputs(tx.vin) && AddTransaction(t, hash, tx).Ok?
    ensures var next := AddTransaction(t, hash, tx).value;
            Listed(next, current + [hash]) && AllRingsBefore(next)
  {
    hide AddTransaction, AddOutputs, OutputIndices, TablesOk, RingsBefore, Extended, ListedAt, SupportedInputs;
    var next := AddTransaction(t, hash, tx).value;
    AddTransactionExtends(t, hash, tx);
    AddedIsStored(t, hash, tx);
    ListedExtended(t, next, current);
    RingsBeforeExtended(t, next, tx, |t.blocks|);
    forall h | h in next.index && next.index[h].txId in next.txs
      ensures RingsBefore(next, next.txs[next.index[h].txId], next.index[h].height)
    {
      if h != hash {
        StoredBefore(t, h);
        RingsBeforeExtended(t, next, t.txs[t.index[h].txId], t.index[h].height);
      }
    }
  }

  lemma {:induction false} StoredBefore(t: Tables, hash: Hash)
    requires TablesOk(t) && hash in t.index
    ensures t.index[hash].txId in t.txs && t.index[hash].txId < |t.txs|
  {
    assert Recorded(t, hash);
  }

  lemma {:induction false} AddTransactionsListed(t: Tables, it: Item, n: nat)
    requires n <= |it.txs| == |it.block.txHashes| && TablesOk(t) && Ledger(t, []) && SupportedItem(it)
    requires Listed(t, []) && AllRingsBefore(t) && Checked(t, it) && AddTransactions(t, it.block, it.txs, n).Ok?
    ensures var next := AddTransactions(t, it.block, it.txs, n).value;
            Listed(next, [it.block.minerTx.hash] + it.block.txHashes[..n]) && AllRingsBefore(next)
    decreases n
  {
    hide AddTransaction, Ledger, TablesOk, Listed, AllRingsBefore, RingsBefore, RingsListed;
    var b := it.block;
    if n == 0 {
      assert RingsBefore(t, b.minerTx, |t.blocks|) by { CoinbaseRingsBefore(t, b.minerTx); }
      AddTransactionListed(t, b.minerTx.hash, b.minerTx, []);
      assert [] + [b.minerTx.hash] == [b.minerTx.hash] + b.txHashes[..0];
    } else {
      AddTransactionsListed(t, it, n - 1);
      AddTransactionsKeeps(t, b, it.txs, n - 1);
      AddTransactionsExtends(t, b, it.txs, n - 1);
      var mid := AddTransactions(t, b, it.txs, n - 1).value;
      ListedRingsBefore(t, it.txs[n - 1]);
      RingsBeforeExtended(t, mid, it.txs[n - 1], |t.blocks|);
      AddTransactionListed(mid, b.txHashes[n - 1], it.txs[n - 1], [b.minerTx.hash] + b.txHashes[..n - 1]);
      assert [b.minerTx.hash] + b.txHashes[..n - 1] + [b.txHashes[n - 1]] == [b.minerTx.hash] + b.txHashes[..n];
    }
  }

  lemma {:induction false} CoinbaseRingsBefore(t: Tables, tx: Transaction)
    requires Ring.IsCoinbase(ViewTx(tx))
    ensures RingsBefore(t, tx, |t.blocks|)
  {}

  lemma {:induction false} AppendListed(t: Tables, b: Block, numRct: nat)
    requires Listed(t, Ids(b)) && AllRingsBefore(t) && AppendBlock(t, b, numRct).Ok?
    ensures var next := AppendBlock(t, b, numRct).value;
            Listed(next, []) && AllRingsBefore(next)
  {
    var next := AppendBlock(t, b, numRct).value;
    hide Ids, Ring.RingMembers;
    forall h | 0 <= h < |next.blocks| ensures ListedAt(next, next.blocks[h], h) {
      assert h < |t.blocks| ==> ListedAt(t, t.blocks[h], h);
    }
    forall hash | hash in next.index && next.index[hash].txId in next.txs
      ensures RingsBefore(next, next.txs[next.index[hash].txId], next.index[hash].height)
    {
      assert RingsBefore(t, t.txs[t.index[hash].txId], t.index[hash].height);
    }
  }

  /** Every block was checked against the tables it was added to. */
  ghost predicate AllChecked(chain: seq<Item>) {
    chain == [] || (AllChecked(chain[..|chain| - 1])
                    && (Build(chain[..|chain| - 1]).Ok? ==>
                          Checked(Build(chain[..|chain| - 1]).value, chain[|chain| - 1])))
  }

  lemma {:induction false} FollowableSupported(tx: Transaction)
    requires Ring.GoodInputs(ViewTx(tx))
    ensures SupportedInputs(tx.vin)
  {
    forall i | 0 <= i < |tx.vin| ensures tx.vin[i] != OtherIn {
      assert ViewTx(tx).vin[i] == ViewIn(tx.vin[i]);
    }
  }

  lemma {:induction false} CheckedItemSupported(t: Tables, it: Item)
    requires Checked(t, it)
    ensures SupportedItem(it)
  {
    hide ViewTx, SupportedInputs, Ring.RingMembers;
    FollowableSupported(it.block.minerTx);
    forall i | 0 <= i < |it.txs| ensures SupportedInputs(it.txs[i].vin) {
      assert RingsListed(t, it.txs[i]);
      FollowableSupported(it.txs[i]);
    }
  }

  /** Checked blocks have supported inputs only. */
  lemma {:induction false} CheckedSupported(chain: seq<Item>)
    requires Build(chain).Ok? && AllChecked(chain)
    ensures AllSupported(chain)
  {
    hide AddBlock, Checked, SupportedItem;
    if chain != [] {
      var front := chain[..|chain| - 1];
      CheckedSupported(front);
      CheckedItemSupported(Build(front).value, chain[|chain| - 1]);
      assert forall i :: 0 <= i < |front| ==> front[i] == chain[i];
    }
  }

  lemma {:induction false} BuildListed(chain: seq<Item>)
    requires Build(chain).Ok? && AllSupported(chain) && AllChecked(chain)
    ensures Listed(Build(chain).value, []) && AllRingsBefore(Build(chain).value)
  {
    if chain != [] {
      var front, it := chain[..|chain| - 1], chain[|chain| - 1];
      BuildListed(front);
      BuildOk(front);
      BuildLedger(front);
      hide Ledger, TablesOk, AddTransactions, AppendBlock, SupportedItem, Listed, AllRingsBefore, Checked;
      AddTransactionsListed(Build(front).value, it, |it.txs|);
      assert [it.block.minerTx.hash] + it.block.txHashes[..|it.txs|] == Ids(it.block);
      var mid := AddTransactions(Build(front).value, it.block, it.txs, |it.txs|).value;
      AppendListed(mid, it.block, NumRctOuts(it.block, it.txs));
    }
  }

  // ----- Chain positions -----

  /** Which block a chain position falls into. */
  lemma {:induction false} BlockOfPosition(db: Ring.Db, p: nat, hi: nat) returns (h: nat)
    requires hi <= |db.blocks| && p < Trace.Start(db, hi)
    ensures h < hi && Trace.Start(db, h) <= p < Trace.Start(db, h + 1)
    decreases hi
  {
    hide Ring.ChainOrder;
    if hi == 0 {
      EmptyStart(db);
      assert false;
    } else if Trace.Start(db, hi - 1) <= p {
      h := hi - 1;
    } else {
      h := BlockOfPosition(db, p, hi - 1);
    }
  }

  lemma {:induction false} EmptyStart(db: Ring.Db)
    ensures Trace.Start(db, 0) == 0
  {}

  lemma {:induction false} StartsIncrease(db: Ring.Db, g: nat, h: nat)
    requires g <= h <= |db.blocks|
    ensures Trace.Start(db, g) <= Trace.Start(db, h) <= |Ring.ChainOrder(db.blocks)|
    decreases h - g
  {
    Trace.ChainOrderPrefix(db.blocks, h);
    if g < h {
      Trace.ChainOrderAt(db, g);
      StartsIncrease(db, g + 1, h);
    }
  }

  lemma {:induction false} ViewTxids(t: Tables, h: nat)
    requires h < |t.blocks|
    ensures Ring.BlockTxids(View(t).blocks[h]) == Ids(t.blocks[h])
  {}

  /** Entry j of block h's ids stands j places after the block's start in the chain order. */
  lemma {:induction false} OrderAt(t: Tables, h: nat, j: nat)
    requires h < |t.blocks| && j < |Ids(t.blocks[h])|
    ensures h < |View(t).blocks|
    ensures Trace.Start(View(t), h) + j < Trace.Start(View(t), h + 1) <= |Ring.ChainOrder(View(t).blocks)|
    ensures Ring.ChainOrder(View(t).blocks)[Trace.Start(View(t), h) + j] == Ids(t.blocks[h])[j]
  {
    var db := View(t);
    ViewTxids(t, h);
    ViewHeight(t);
    hide View, Ids, Ring.ChainOrder, Trace.Start, Ring.BlockTxids;
    Trace.ChainOrderAt(db, h);
    var order, s, n := Ring.ChainOrder(db.blocks), Trace.Start(db, h), |Ids(t.blocks[h])|;
    assert order[s + j] == order[s..s + n][j];
  }

  lemma {:induction false} HeightOfListed(t: Tables, hash: Hash, h: nat)
    requires Listed(t, []) && h < |t.blocks| && hash in Ids(t.blocks[h])
    ensures hash in t.index && t.index[hash].height == h
  {
    assert ListedAt(t, t.blocks[h], h);
  }

  /** An id listed at height h, and at no other height, stands in block h's stretch of the chain order. */
  lemma {:induction false} PositionOfListed(t: Tables, hash: Hash, h: nat)
    requires Listed(t, []) && h < |t.blocks| && hash in Ids(t.blocks[h])
    ensures h < |View(t).blocks|
    ensures Trace.Start(View(t), h) <= Ring.Pos(View(t), hash) < Trace.Start(View(t), h + 1)
  {
    var db := View(t);
    hide View, Ids, Ring.ChainOrder, Trace.Start, Listed;
    var j :| 0 <= j < |Ids(t.blocks[h])| && Ids(t.blocks[h])[j] == hash;
    OrderAt(t, h, j);
    Ring.IndexOfFirst(Ring.ChainOrder(db.blocks), hash);
    FullStart(db);
    var p := Ring.Pos(db, hash);
    var g := BlockOfPosition(db, p, |db.blocks|);
    HeightAtPosition(t, p, g);
    HeightOfListed(t, hash, h);
  }

  lemma {:induction false} FullStart(db: Ring.Db)
    ensures Trace.Start(db, |db.blocks|) == |Ring.ChainOrder(db.blocks)|
  {
    assert db.blocks[..|db.blocks|] == db.blocks;
  }

  lemma {:induction false} HeightAtPosition(t: Tables, p: nat, g: nat)
    requires Listed(t, []) && g < |View(t).blocks| && p < |Ring.ChainOrder(View(t).blocks)|
    requires Trace.Start(View(t), g) <= p < Trace.Start(View(t), g + 1)
    ensures var hash := Ring.ChainOrder(View(t).blocks)[p];
            hash in t.index && t.index[hash].height == g
  {
    hide View, Ids, Ring.ChainOrder, Listed, Trace.Start;
    ViewHeight(t);
    SpanOf(t, g);
    var j := p - Trace.Start(View(t), g);
    OrderAt(t, g, j);
    HeightOfListed(t, Ids(t.blocks[g])[j], g);
  }

  lemma {:induction false} SpanOf(t: Tables, g: nat)
    requires g < |t.blocks|
    ensures g < |View(t).blocks|
    ensures Trace.Start(View(t), g + 1) == Trace.Start(View(t), g) + |Ids(t.blocks[g])|
  {
    ViewHeight(t);
    ViewTxids(t, g);
    hide View, Ids, Ring.ChainOrder, Trace.Start, Ring.BlockTxids;
    Trace.ChainOrderAt(View(t), g);
  }

  // ----- The tracers' assumptions hold -----

  lemma {:induction false} OriginListed(t: Tables, m: Ring.Ancestor)
    requires m.offset < |AmountList(t.outs, m.amount)| && Ring.Origin(View(t), m).Some?
    ensures var e := AmountList(t.outs, m.amount)[m.offset];
            e.height < |t.blocks| && Ring.Origin(View(t), m).value in Ids(t.blocks[e.height])
  {
    Ring.OriginMeaning(View(t), m);
    hide Ring.Origin, Ring.HasKey, ViewTxs;
  }

  lemma {:induction false} OriginEarlier(t: Tables, hash: Hash, m: Ring.Ancestor)
    requires Ledger(t, []) && Listed(t, []) && AllRingsBefore(t)
    requires hash in View(t).txs && m in Ring.Members(View(t), hash) && Ring.Origin(View(t), m).Some?
    ensures Ring.Pos(View(t), Ring.Origin(View(t), m).value) < Ring.Pos(View(t), hash)
  {
    var db, o := View(t), Ring.Origin(View(t), m).value;
    assert RingsBefore(t, t.txs[t.index[hash].txId], t.index[hash].height);
    OriginListed(t, m);
    assert Placed(t, hash, []);
    var g, h := AmountList(t.outs, m.amount)[m.offset].height, t.index[hash].height;
    hide View, Ring.Origin, Ring.Members, Ring.Pos, Listed, Ledger, AllRingsBefore, AmountList, Ids;
    PositionOfListed(t, o, g);
    PositionOfListed(t, hash, h);
    ViewHeight(t);
    StartsIncrease(db, g + 1, h);
  }

  lemma {:induction false} ViewHeight(t: Tables)
    ensures |View(t).blocks| == |t.blocks|
  {}

  /**
  On every chain of checked blocks the database that the tracers read meets all they assume: rings
  only name outputs whose creators stand earlier in chain order, and miner transactions are stored
  coinbases.
  */
  lemma {:induction false} TracersApply(chain: seq<Item>)
    requires Build(chain).Ok? && AllChecked(chain)
    ensures Trace.Chain(View(Build(chain).value))
  {
    var t := Build(chain).value;
    CheckedSupported(chain);
    BuildLedger(chain);
    BuildListed(chain);
    CheckedMiners(chain);
    MinersAreStored(chain);
    hide Build, Ledger, Listed, AllRingsBefore, View, Ring.Members, Ring.Origin, Ring.Pos, Ring.MinersStored;
    forall hash, m | hash in View(t).txs && m in Ring.Members(View(t), hash) && Ring.Origin(View(t), m).Some?
      ensures Ring.Pos(View(t), Ring.Origin(View(t), m).value) < Ring.Pos(View(t), hash)
    {
      OriginEarlier(t, hash, m);
    }
  }

  lemma {:induction false} CheckedMiners(chain: seq<Item>)
    requires Build(chain).Ok? && AllChecked(chain)
    ensures forall i :: 0 <= i < |chain| ==> Ring.IsCoinbase(ViewTx(chain[i].block.minerTx))
  {
    if chain != [] {
      hide RingsListed, ViewTx, AddBlock;
      CheckedMiners(chain[..|chain| - 1]);
      assert forall i :: 0 <= i < |chain| - 1 ==> chain[..|chain| - 1][i] == chain[i];
    }
  }

  // ----- The tracers succeed -----

  lemma {:induction false} StoredDecodes(t: Tables, hash: Hash)
    requires TablesOk(t) && AllRingsBefore(t) && GetTx(t, hash).Some?
    ensures Forward.LookupTx(View(t), hash).Some?
  {
    StoredOutputsTyped(t, hash);
    ViewHasTx(t, hash);
    var tx := GetTx(t, hash).value;
    assert RingsBefore(t, tx, t.index[hash].height);
    var outs := ViewTx(tx).vout;
    forall i | 0 <= i < |outs| ensures outs[i].KeyOut? {
      assert outs[i] in outs;
    }
    hide View, ViewTx, TablesOk, AllRingsBefore;
  }

  /** Where every listed transaction decodes, both ways of searching the list agree. */
  lemma {:induction false} DecodedSearchSame(db: Ring.Db, hashes: seq<Hash>, key: PublicKey)
    requires forall i :: 0 <= i < |hashes| ==> Forward.LookupTx(db, hashes[i]).Some?
    ensures Forward.SearchDecoded(db, hashes, key) == Ring.SearchTxs(db, hashes, key)
  {
    if hashes != [] {
      Forward.FindKeyTyped(db.txs[hashes[0]].vout, key);
      assert forall i :: 0 <= i < |hashes| - 1 ==> hashes[1..][i] == hashes[i + 1];
      DecodedSearchSame(db, hashes[1..], key);
    }
  }

  lemma {:induction false} DecodedOriginSame(db: Ring.Db, m: Ring.Ancestor)
    requires Ring.Origin(db, m).Some?
    requires forall hash :: hash in db.blocks[db.outputs[m].height].txHashes ==> Forward.LookupTx(db, hash).Some?
    ensures Forward.DecodedOrigin(db, m).Some?
  {
    var hashes := db.blocks[db.outputs[m].height].txHashes;
    assert forall i :: 0 <= i < |hashes| ==> hashes[i] in hashes;
    DecodedSearchSame(db, hashes, db.outputs[m].pubkey);
    hide Forward.LookupTx, Forward.SearchDecoded, Ring.SearchTxs;
  }

  lemma {:induction false} BlockDecodes(t: Tables, h: nat, hash: Hash)
    requires TablesOk(t) && Ledger(t, []) && AllRingsBefore(t) && h < |t.blocks| && hash in t.blocks[h].txHashes
    ensures Forward.LookupTx(View(t), hash).Some?
  {
    assert BlockStored(t, t.blocks[h]);
    hide TablesOk, AllRingsBefore, GetTx, View;
    StoredDecodes(t, hash);
  }

  lemma {:induction false} MemberResolves(t: Tables, m: Ring.Ancestor)
    requires TablesOk(t) && Ledger(t, []) && AllRingsBefore(t) && m.offset < |AmountList(t.outs, m.amount)|
    ensures Forward.DecodedOrigin(View(t), m).Some?
  {
    hide TablesOk, Ledger, AllRingsBefore, Forward.LookupTx, ViewTxs, FindsCreator, NoEarlierKey, ViewTx;
    SearchAgainstRecord(t, m.amount, m.offset);
    assert m == Ring.Ancestor(m.amount, m.offset);
    var h := AmountList(t.outs, m.amount)[m.offset].height;
    assert View(t).outputs[m].height == h;
    forall hash | hash in View(t).blocks[h].txHashes ensures Forward.LookupTx(View(t), hash).Some? {
      BlockDecodes(t, h, hash);
    }
    DecodedOriginSame(View(t), m);
  }

  lemma {:induction false} ListedResolves(t: Tables, hash: Hash)
    requires TablesOk(t) && Ledger(t, []) && AllRingsBefore(t) && GetTx(t, hash).Some?
    ensures Trace.Resolves(View(t), hash)
  {
    StoredDecodes(t, hash);
    ViewHasTx(t, hash);
    assert RingsBefore(t, t.txs[t.index[hash].txId], t.index[hash].height);
    hide TablesOk, Ledger, AllRingsBefore, View, Forward.LookupTx, Forward.DecodedOrigin;
    forall m | m in Ring.Members(View(t), hash) ensures Forward.DecodedOrigin(View(t), m).Some? {
      MemberResolves(t, m);
    }
  }

  lemma {:induction false} ListedStored(t: Tables, h: nat, hash: Hash, includeCoinbase: bool)
    requires Ledger(t, []) && h < |t.blocks| && hash in Forward.BlockList(View(t).blocks[h], includeCoinbase)
    ensures GetTx(t, hash).Some?
  {
    var b := t.blocks[h];
    assert BlockStored(t, b);
    assert hash == b.minerTx.hash || hash in b.txHashes;
    hide GetTx;
  }

  lemma {:induction false} PassSucceeds(t: Tables, includeCoinbase: bool)
    requires TablesOk(t) && Ledger(t, []) && AllRingsBefore(t)
    ensures Forward.ForwardRun(View(t), map[], 0, |View(t).blocks|, includeCoinbase).Some?
  {
    var db := View(t);
    ViewHeight(t);
    hide TablesOk, Ledger, AllRingsBefore, GetTx, View, Trace.Resolves, Forward.BlockList;
    forall h, hash | 0 <= h < |db.blocks| && hash in Forward.BlockList(db.blocks[h], includeCoinbase)
      ensures Trace.Resolves(db, hash)
    {
      ListedStored(t, h, hash, includeCoinbase);
      ListedResolves(t, hash);
    }
    Trace.RunResolves(db, map[], 0, |db.blocks|, includeCoinbase);
  }

  /**
  On every chain of checked blocks the forward pass runs to its end, so that all that is proved
  about it, and its agreement with the backward tracer, holds of every transaction on the chain.
  */
  lemma {:induction false} TracersSucceed(chain: seq<Item>, includeCoinbase: bool)
    requires Build(chain).Ok? && AllChecked(chain)
    ensures var db := View(Build(chain).value);
            Forward.ForwardRun(db, map[], 0, |db.blocks|, includeCoinbase).Some?
  {
    CheckedSupported(chain);
    BuildOk(chain);
    BuildLedger(chain);
    BuildListed(chain);
    hide Build, TablesOk, Ledger, AllRingsBefore, View, Forward.ForwardRun;
    PassSucceeds(Build(chain).value, includeCoinbase);
  }

  // ----- Paths through the stored transactions -----

  /** Offset j of input k of the stored transaction, which is no coinbase. */
  ghost predicate Spends(t: Tables, hash: Hash, k: nat, j: nat) {
    && GetTx(t, hash).Some? && GetTx(t, hash).value.vin != [Gen]
    && k < |GetTx(t, hash).value.vin| && GetTx(t, hash).value.vin[k].ToKey?
    && j < |GetTx(t, hash).value.vin[k].offsets|
  }

  ghost function Spent(t: Tables, hash: Hash, k: nat, j: nat): Ring.Ancestor
    requires Spends(t, hash, k, j)
  {
    var i := GetTx(t, hash).value.vin[k];
    Ring.Ancestor(i.amount, i.offsets[j])
  }

  /** p picks an input and one of its offsets, then the same in the transaction found to have created that output. */
  ghost predicate IsLedgerPath(t: Tables, hash: Hash, p: seq<(nat, nat)>)
    decreases |p|
  {
    && 0 < |p|
    && Spends(t, hash, p[0].0, p[0].1)
    && var o := Ring.Origin(View(t), Spent(t, hash, p[0].0, p[0].1));
    && (1 < |p| ==> o.Some? && IsLedgerPath(t, o.value, p[1..]))
  }

  ghost function LedgerPathEnd(t: Tables, hash: Hash, p: seq<(nat, nat)>): Ring.Ancestor
    requires IsLedgerPath(t, hash, p)
    decreases |p|
  {
    var m := Spent(t, hash, p[0].0, p[0].1);
    if |p| == 1 then m else LedgerPathEnd(t, Ring.Origin(View(t), m).value, p[1..])
  }

  ghost predicate LedgerPathTo(t: Tables, hash: Hash, p: seq<(nat, nat)>, a: Ring.Ancestor) {
    IsLedgerPath(t, hash, p) && LedgerPathEnd(t, hash, p) == a
  }

  lemma {:induction false} SpendsIsNames(t: Tables, hash: Hash, k: nat, j: nat)
    ensures Spends(t, hash, k, j) <==> Ring.Names(View(t), hash, k, j)
    ensures Spends(t, hash, k, j) ==> Spent(t, hash, k, j) == Ring.Named(View(t), hash, k, j)
  {
    if GetTx(t, hash).Some? {
      ViewHasTx(t, hash);
      var tx := GetTx(t, hash).value;
      assert Ring.IsCoinbase(ViewTx(tx)) <==> tx.vin == [Gen];
    }
  }

  /** Walking the stored transactions is walking what the tracers read. */
  lemma {:induction false} LedgerPathIs(t: Tables, hash: Hash, p: seq<(nat, nat)>)
    ensures IsLedgerPath(t, hash, p) <==> Ring.IsRingPath(View(t), hash, p)
    ensures IsLedgerPath(t, hash, p) ==> LedgerPathEnd(t, hash, p) == Ring.RingPathEnd(View(t), hash, p)
    decreases |p|
  {
    if p != [] {
      hide Spends, Spent, Ring.Names, Ring.Named, View, Ring.Origin;
      SpendsIsNames(t, hash, p[0].0, p[0].1);
      if |p| > 1 && Spends(t, hash, p[0].0, p[0].1) {
        var o := Ring.Origin(View(t), Spent(t, hash, p[0].0, p[0].1));
        if o.Some? { LedgerPathIs(t, o.value, p[1..]); }
      }
    }
  }

  /**
  The whole path from add_block to the tracers: on every chain of checked blocks, for every listed
  transaction, the forward pass stores exactly the outputs some ring path reaches, and the backward
  tracer finds the same ones.
  */
  lemma {:induction false} LedgerAncestry(chain: seq<Item>, includeCoinbase: bool, hash: Hash, a: Ring.Ancestor)
    requires Build(chain).Ok? && AllChecked(chain)
    requires hash in Ring.ChainOrder(View(Build(chain).value).blocks)
    ensures var db := View(Build(chain).value);
            && Trace.Chain(db) && Ring.Traceable(db, hash)
            && var r := Forward.ForwardRun(db, map[], 0, |db.blocks|, includeCoinbase);
            && r.Some?
            && (a in Forward.GetAncestry(r.value, hash) <==> exists p :: LedgerPathTo(Build(chain).value, hash, p, a))
            && (a in Forward.GetAncestry(r.value, hash) <==> Ring.PathCount(db, hash, a) > 0)
  {
    TracersApply(chain);
    TracersSucceed(chain, includeCoinbase);
    var t, db := Build(chain).value, View(Build(chain).value);
    hide Build, View, AllChecked, Forward.ForwardRun, IsLedgerPath, LedgerPathEnd, Ring.IsRingPath, Ring.RingPathEnd;
    Trace.FullPassExact(db, includeCoinbase, hash);
    Trace.ForwardCorrect(db, includeCoinbase, hash, a);
    forall p ensures LedgerPathTo(t, hash, p, a) <==> Ring.RingPathTo(db, hash, p, a) {
      LedgerPathIs(t, hash, p);
    }
    Ring.AncestorsAreCounted(db, hash, 0, a);
  }

  // ----- Sessions while the ledger grows -----

  lemma {:induction false} ExtendsTransitive(db: Ring.Db, mid: Ring.Db, later: Ring.Db)
    requires Trace.Extends(db, mid) && Trace.Extends(mid, later)
    ensures Trace.Extends(db, later)
  {}

  lemma {:induction false} ExtendsReflexive(db: Ring.Db)
    ensures Trace.Extends(db, db)
  {}

  /** What the tracers read when the chain has its first h blocks. */
  ghost function ViewAt(chain: seq<Item>, h: nat): Ring.Db
    requires h <= |chain| && Build(chain[..h]).Ok?
  {
    View(Build(chain[..h]).value)
  }

  lemma {:induction false} ViewStep(chain: seq<Item>, h: nat)
    requires h < |chain| && Build(chain[..h]).Ok? && Build(chain[..h + 1]).Ok?
    ensures Trace.Extends(ViewAt(chain, h), ViewAt(chain, h + 1))
  {
    hide AddBlock, View, TablesOk, Trace.Extends, Build;
    var front, it := chain[..h], chain[h];
    assert chain[..h + 1] == front + [it];
    BuildOk(front);
    BuildSnoc(front, it);
    AddBlockExtendsView(Build(front).value, it);
  }

  /** The view of a chain extends the view of each of its beginnings. */
  lemma {:induction false} ViewsGrow(chain: seq<Item>, i: nat, j: nat)
    requires i <= j <= |chain| && Build(chain).Ok?
    ensures Build(chain[..i]).Ok? && Build(chain[..j]).Ok?
    ensures Trace.Extends(ViewAt(chain, i), ViewAt(chain, j))
    decreases j - i
  {
    hide Build, ViewAt, Trace.Extends;
    PrefixBuilds(chain, i);
    PrefixBuilds(chain, j);
    if i == j {
      ExtendsReflexive(ViewAt(chain, i));
    } else {
      ViewsGrow(chain, i, j - 1);
      ViewStep(chain, j - 1);
      ExtendsTransitive(ViewAt(chain, i), ViewAt(chain, j - 1), ViewAt(chain, j));
    }
  }

  lemma {:induction false} CheckedPrefix(chain: seq<Item>, k: nat)
    requires k <= |chain| && AllChecked(chain)
    ensures AllChecked(chain[..k])
    decreases |chain|
  {
    if k == |chain| {
      assert chain[..k] == chain;
    } else {
      CheckedPrefix(chain[..|chain| - 1], k);
      assert chain[..|chain| - 1][..k] == chain[..k];
    }
  }

  /** Session i reads the database as it was when the chain had heights[i] blocks. */
  ghost predicate SessionsOn(chain: seq<Item>, heights: seq<nat>, ss: seq<Trace.Session>) {
    && |heights| == |ss|
    && (forall i :: 0 <= i < |ss| ==> heights[i] <= |chain| && Build(chain[..heights[i]]).Ok?
                                      && ss[i].db == ViewAt(chain, heights[i]))
    && (forall i :: 0 < i < |ss| ==> heights[i - 1] <= heights[i])
  }

  /** Sessions made while a checked chain grows see proper, growing chains on which a fresh pass succeeds. */
  lemma {:induction false} LedgerSessions(chain: seq<Item>, heights: seq<nat>, ss: seq<Trace.Session>)
    requires Build(chain).Ok? && AllChecked(chain) && SessionsOn(chain, heights, ss)
    ensures Trace.Growing(ss)
    ensures forall i :: 0 <= i < |ss| ==> Trace.FreshPassSucceeds(ss[i].db, ss[i].opts.includeCoinbase)
  {
    hide Build, View, AllChecked, Trace.Chain, Trace.Extends, Forward.ForwardRun;
    forall i | 0 <= i < |ss|
      ensures Trace.Chain(ss[i].db) && Trace.FreshPassSucceeds(ss[i].db, ss[i].opts.includeCoinbase)
    {
      CheckedPrefix(chain, heights[i]);
      TracersApply(chain[..heights[i]]);
      TracersSucceed(chain[..heights[i]], ss[i].opts.includeCoinbase);
    }
    forall i | 0 < i < |ss| ensures Trace.Extends(ss[i - 1].db, ss[i].db) {
      ViewsGrow(chain, heights[i - 1], heights[i]);
    }
  }

  /**
  Any sessions of the forward tracer while a checked chain grows: the last one succeeds, and if it
  is not stopped early every transaction on the chain has its exact ancestry.
  */
  method TraceLedger(ghost chain: seq<Item>, ghost heights: seq<nat>, ss: seq<Trace.Session>)
    returns (ok: bool, state: Forward.AncestryState)
    requires Build(chain).Ok? && AllChecked(chain) && SessionsOn(chain, heights, ss) && ss != []
    ensures var last := ss[|ss| - 1];
            && ok && Trace.Chain(last.db)
            && (Trace.Uninterrupted(last) ==> Trace.Complete(last.db, state.ancestry))
  {
    LedgerSessions(chain, heights, ss);
    ok, state := Trace.RunSessions(ss);
  }

  // ----- Checked chains exist -----

  const RING_MINER := Transaction(5, 1, [Gen], [])
  const RING_TX := Transaction(6, 1, [ToKey(8, 5, [0])], [])
  const RING_BLOCK := Block(4, 1, 1, RING_MINER, [6])
  const RING_CHAIN := [Item(TWIN_BLOCK, [TWIN_TX]), Item(RING_BLOCK, [RING_TX])]

  lemma {:induction false} TwinChecked()
    ensures Checked(EMPTY_TABLES, Item(TWIN_BLOCK, [TWIN_TX]))
  {
    assert ViewTx(TWIN_MINER).vin[0] == Ring.Gen;
    assert ViewTx(TWIN_TX).vin == [];
    assert Ring.RingMembers(ViewTx(TWIN_TX)) == [];
  }

  lemma {:induction false} RingMembersOf()
    ensures Ring.GoodInputs(ViewTx(RING_TX)) && Ring.RingMembers(ViewTx(RING_TX)) == [Ring.Ancestor(5, 0)]
  {
    var tx, ring := ViewTx(RING_TX), Ring.Ring(5, [0]);
    assert tx.vin[0] == Ring.ToKey(5, [0]);
    assert Ring.Rings(tx.vin) == [ring];
    assert Ring.Flatten([ring]) == Ring.MembersOfRing(ring) + Ring.Flatten([ring][1..]);
  }

  lemma {:induction false} RingChecked(t: Tables)
    requires t.outs == TWIN_OUTS
    ensures Checked(t, Item(RING_BLOCK, [RING_TX]))
  {
    RingMembersOf();
    assert ViewTx(RING_MINER).vin[0] == Ring.Gen;
    hide Ring.RingMembers, ViewTx;
    assert |AmountList(t.outs, 5)| == 1;
  }

  lemma {:induction false} RingBlockAdds(t: Tables)
    requires t.spent == {} && t.index.Keys == {2, 3} && t.blocks == [TWIN_BLOCK] && t.heights == map[1 := 0]
    ensures var r := AddBlock(t, RING_BLOCK, [RING_TX]);
            r.Ok? && r.value.blocks == [TWIN_BLOCK, RING_BLOCK] && GetTx(r.value, 6) == Some(RING_TX)
  {
    CoinbaseInputs({});
    Accepted(t, 5, RING_MINER);
    var t1 := AddTransaction(t, 5, RING_MINER).value;
    assert AddInputs({8}, RING_TX.vin, 1) == Added({8});
    assert {} + {8} == {8};
    Accepted(t1, 6, RING_TX);
    OneListed(t, RING_BLOCK, RING_TX);
    hide AddTransaction, AddInputs, AddOutputs;
    assert [TWIN_BLOCK] + [RING_BLOCK] == [TWIN_BLOCK, RING_BLOCK];
  }

  lemma {:induction false} RingChainBuilds()
    ensures var first := Item(TWIN_BLOCK, [TWIN_TX]);
            && Build([]) == Ok(EMPTY_TABLES) && Build([first]).Ok? && Build([first]).value.outs == TWIN_OUTS
            && Build(RING_CHAIN).Ok? && GetTx(Build(RING_CHAIN).value, 6) == Some(RING_TX)
  {
    var first, second := Item(TWIN_BLOCK, [TWIN_TX]), Item(RING_BLOCK, [RING_TX]);
    TwinBuilds();
    hide AddBlock, GetTx;
    RingBlockAdds(Build([first]).value);
    assert [first] + [second] == RING_CHAIN;
    BuildSnoc([first], second);
  }

  /** A checked chain whose last transaction has a ring: one path leads from it to the output it names. */
  lemma {:induction false} RingChainIsChecked()
    ensures Build(RING_CHAIN).Ok? && AllChecked(RING_CHAIN)
    ensures LedgerPathTo(Build(RING_CHAIN).value, 6, [(0, 0)], Ring.Ancestor(5, 0))
  {
    var first := Item(TWIN_BLOCK, [TWIN_TX]);
    RingChainBuilds();
    TwinChecked();
    RingChecked(Build([first]).value);
    assert RING_CHAIN[..1] == [first] && [first][..0] == [];
    hide Checked, Build, ViewTx, View;
    assert AllChecked([]);
    assert AllChecked([first]);
    assert Spends(Build(RING_CHAIN).value, 6, 0, 0);
  }
}
