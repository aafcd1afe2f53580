/**
The forward tracer: one pass over the chain that stores every transaction's ancestor set, with
three optional caches and a saved state from which a later run resumes.

`ForwardRun` is the pass without caches, as a function of the database alone.  `AncestryState` is
the program's state; its methods are the cached pass and are proved to compute `ForwardRun`.
*/
module AncestryForward {
  import opened Wrappers
  import opened RingChain

  type Ancestry = map<Hash, set<Ancestor>>

  // ----- Decoded transactions -----

  datatype TxData = TxData(vin: seq<Ring>, vout: seq<PublicKey>, coinbase: bool)

  predicate WellTyped(tx: Transaction) {
    GoodInputs(tx) && forall i :: 0 <= i < |tx.vout| ==> tx.vout[i].KeyOut?
  }

  function OutKeys(vout: seq<TxOut>): seq<PublicKey>
    requires forall i :: 0 <= i < |vout| ==> vout[i].KeyOut?
  {
    seq(|vout|, i requires 0 <= i < |vout| => vout[i].key)
  }

  function Decode(tx: Transaction): Option<TxData> {
    if WellTyped(tx)
    then Some(TxData(if IsCoinbase(tx) then [] else Rings(tx.vin), OutKeys(tx.vout), IsCoinbase(tx)))
    else None
  }

  /** Decodes a transaction; an input or output of another type is an error. */
  method ReadTxData(tx: Transaction) returns (r: Option<TxData>)
    ensures r == Decode(tx)
    ensures var lone := |tx.vin| == 1 && tx.vin[0].Gen?;
            && (r.Some? <==> && (lone || forall k :: 0 <= k < |tx.vin| ==> tx.vin[k].ToKey?)
                             && forall k :: 0 <= k < |tx.vout| ==> tx.vout[k].KeyOut?)
            && (r.Some? ==> r.value.coinbase == lone && |r.value.vin| == (if lone then 0 else |tx.vin|)
                            && |r.value.vout| == |tx.vout|)
    ensures r.Some? ==> forall k :: 0 <= k < |r.value.vin| ==>
                                      tx.vin[k] == ToKey(r.value.vin[k].amount, r.value.vin[k].offsets)
    ensures r.Some? ==> forall k :: 0 <= k < |tx.vout| ==> tx.vout[k] == KeyOut(r.value.vout[k])
  {
    var vin := [];
    if !IsCoinbase(tx) {
      for i := 0 to |tx.vin|
        invariant vin == Rings(tx.vin)[..i]
        invariant forall k :: 0 <= k < i ==> tx.vin[k].ToKey?
      {
        if !tx.vin[i].ToKey? { return None; }
        vin := vin + [RingOf(tx.vin[i])];
      }
    }
    var vout := [];
    for i := 0 to |tx.vout|
      invariant |vout| == i
      invariant forall k :: 0 <= k < i ==> tx.vout[k] == KeyOut(vout[k])
    {
      if !tx.vout[i].KeyOut? { return None; }
      vout := vout + [tx.vout[i].key];
    }
    assert !IsCoinbase(tx) ==> vin == Rings(tx.vin);
    assert vout == OutKeys(tx.vout);
    r := Some(TxData(vin, vout, IsCoinbase(tx)));
  }

  function LookupTx(db: Db, t: Hash): Option<TxData> {
    if t in db.txs then Decode(db.txs[t]) else None
  }

  /** Like the backward search, but each listed transaction is decoded as a whole first. */
  function SearchDecoded(db: Db, hashes: seq<Hash>, key: PublicKey): Option<Hash> {
    if hashes == [] then None
    else match LookupTx(db, hashes[0])
      case None => None
      case Some(data) => if key in data.vout then Some(hashes[0]) else SearchDecoded(db, hashes[1..], key)
  }

  function DecodedOrigin(db: Db, m: Ancestor): Option<Hash> {
    if m !in db.outputs || db.outputs[m].height >= |db.blocks| then None
    else
      var b := db.blocks[db.outputs[m].height];
      match FindKey(b.minerTx.vout, db.outputs[m].pubkey)
      case Found => Some(b.minerTx.id)
      case BadOutput => None
      case Absent => SearchDecoded(db, b.txHashes, db.outputs[m].pubkey)
  }

  lemma {:induction false} FindKeyTyped(vout: seq<TxOut>, key: PublicKey)
    requires forall i :: 0 <= i < |vout| ==> vout[i].KeyOut?
    ensures FindKey(vout, key) == if key in OutKeys(vout) then Found else Absent
  {
    if vout != [] {
      FindKeyTyped(vout[1..], key);
      assert OutKeys(vout) == [vout[0].key] + OutKeys(vout[1..]);
    }
  }

  lemma {:induction false} SearchDecodedAgrees(db: Db, hashes: seq<Hash>, key: PublicKey)
    requires SearchDecoded(db, hashes, key).Some?
    ensures SearchTxs(db, hashes, key) == SearchDecoded(db, hashes, key)
  {
    FindKeyTyped(db.txs[hashes[0]].vout, key);
    if FindKey(db.txs[hashes[0]].vout, key).Absent? { SearchDecodedAgrees(db, hashes[1..], key); }
  }

  /** Where the forward search finds a creator, the backward search finds the same one. */
  lemma {:induction false} DecodedOriginAgrees(db: Db, m: Ancestor)
    requires DecodedOrigin(db, m).Some?
    ensures Origin(db, m) == DecodedOrigin(db, m)
  {
    var b := db.blocks[db.outputs[m].height];
    if FindKey(b.minerTx.vout, db.outputs[m].pubkey).Absent? {
      SearchDecodedAgrees(db, b.txHashes, db.outputs[m].pubkey);
    }
  }

  /** The first j + 1 listed transactions decode, and the last of them is the first with the key. */
  ghost predicate FirstDecoded(db: Db, hashes: seq<Hash>, key: PublicKey, j: nat) {
    && j < |hashes| && (forall i :: 0 <= i <= j ==> LookupTx(db, hashes[i]).Some?)
    && KeyOut(key) in db.txs[hashes[j]].vout
    && forall i :: 0 <= i < j ==> KeyOut(key) !in db.txs[hashes[i]].vout
  }

  lemma {:induction false} OutKeysIff(vout: seq<TxOut>, key: PublicKey)
    requires forall i :: 0 <= i < |vout| ==> vout[i].KeyOut?
    ensures key in OutKeys(vout) <==> KeyOut(key) in vout
  {
    if KeyOut(key) in vout {
      var i :| 0 <= i < |vout| && vout[i] == KeyOut(key);
      assert OutKeys(vout)[i] == key;
    }
  }

  lemma {:induction false} FirstDecodedStep(db: Db, hashes: seq<Hash>, key: PublicKey, j: nat)
    requires hashes != [] && LookupTx(db, hashes[0]).Some? && KeyOut(key) !in db.txs[hashes[0]].vout
    ensures FirstDecoded(db, hashes[1..], key, j) <==> FirstDecoded(db, hashes, key, j + 1)
  {
    hide Decode;
    var rest := hashes[1..];
    assert forall i :: 0 <= i < |rest| ==> rest[i] == hashes[i + 1];
    if FirstDecoded(db, hashes, key, j + 1) {
      forall i | 0 <= i <= j ensures LookupTx(db, rest[i]).Some? {
        assert LookupTx(db, hashes[i + 1]).Some?;
      }
      forall i | 0 <= i < j ensures KeyOut(key) !in db.txs[rest[i]].vout {
        assert KeyOut(key) !in db.txs[hashes[i + 1]].vout;
      }
    }
  }

  /** The search over decoded transactions finds the first with the key, all up to it having decoded. */
  lemma {:induction false} SearchDecodedIff(db: Db, hashes: seq<Hash>, key: PublicKey, o: Hash)
    ensures SearchDecoded(db, hashes, key) == Some(o)
       <==> exists j: nat :: FirstDecoded(db, hashes, key, j) && hashes[j] == o
  {
    if hashes != [] && LookupTx(db, hashes[0]).Some? {
      var vout := db.txs[hashes[0]].vout;
      OutKeysIff(vout, key);
      if KeyOut(key) in vout {
        assert FirstDecoded(db, hashes, key, 0);
      } else {
        SearchDecodedIff(db, hashes[1..], key, o);
        forall j: nat ensures FirstDecoded(db, hashes[1..], key, j) <==> FirstDecoded(db, hashes, key, j + 1) {
          FirstDecodedStep(db, hashes, key, j);
        }
        if SearchDecoded(db, hashes, key) == Some(o) {
          var j: nat :| FirstDecoded(db, hashes[1..], key, j) && hashes[1..][j] == o;
          assert FirstDecoded(db, hashes, key, j + 1) && hashes[j + 1] == o;
        }
        if exists j: nat :: FirstDecoded(db, hashes, key, j) && hashes[j] == o {
          var j: nat :| FirstDecoded(db, hashes, key, j) && hashes[j] == o;
          assert FirstDecoded(db, hashes[1..], key, j - 1) && hashes[1..][j - 1] == o;
        }
      }
    }
  }

  // ----- The pass without caches -----

  function GetAncestry(anc: Ancestry, t: Hash): set<Ancestor> {
    if t in anc then anc[t] else {}
  }

  function AddAncestry(anc: Ancestry, t: Hash, s: set<Ancestor>): Ancestry {
    anc[t := GetAncestry(anc, t) + s]
  }

  function AddMember(anc: Ancestry, t: Hash, m: Ancestor, o: Hash): Ancestry {
    var named := AddAncestry(anc, t, {m});
    AddAncestry(named, t, GetAncestry(named, o))
  }

  function ForwardMembers(db: Db, anc: Ancestry, t: Hash, ms: seq<Ancestor>): Option<Ancestry>
    decreases |ms|
  {
    if ms == [] then Some(anc)
    else match DecodedOrigin(db, ms[0])
      case None => None
      case Some(o) => ForwardMembers(db, AddMember(anc, t, ms[0], o), t, ms[1..])
  }

  function ForwardTx(db: Db, anc: Ancestry, t: Hash): Option<Ancestry> {
    match LookupTx(db, t)
    case None => None
    case Some(data) =>
      if data.coinbase then Some(AddAncestry(anc, t, {})) else ForwardMembers(db, anc, t, Flatten(data.vin))
  }

  function ForwardTxs(db: Db, anc: Ancestry, ts: seq<Hash>): Option<Ancestry>
    decreases |ts|
  {
    if ts == [] then Some(anc)
    else match ForwardTx(db, anc, ts[0])
      case None => None
      case Some(next) => ForwardTxs(db, next, ts[1..])
  }

  function BlockList(b: Block, includeCoinbase: bool): seq<Hash> {
    (if includeCoinbase then [b.minerTx.id] else []) + b.txHashes
  }

  /** Processes blocks lo, lo+1, ..., hi-1. */
  function ForwardRun(db: Db, anc: Ancestry, lo: nat, hi: nat, includeCoinbase: bool): Option<Ancestry>
    requires lo <= hi <= |db.blocks|
    decreases hi - lo
  {
    if lo == hi then Some(anc)
    else match ForwardTxs(db, anc, BlockList(db.blocks[lo], includeCoinbase))
      case None => None
      case Some(next) => ForwardRun(db, next, lo + 1, hi, includeCoinbase)
  }

  /** Where a run that starts at `from` and sees the stop request after block `stopAt` ends. */
  function RunEnd(db: Db, from: nat, stopAt: nat): (end: nat)
    ensures from <= |db.blocks| ==> from <= end <= |db.blocks|
  {
    var last := if stopAt < from then from else stopAt;
    if from >= |db.blocks| then from else if last < |db.blocks| then last + 1 else |db.blocks|
  }

  // ----- The cached pass -----

  datatype Options = Options(cacheOutputs: bool, cacheTxes: bool, cacheBlocks: bool, includeCoinbase: bool)

  const EMPTY_BLOCK := Block(Transaction(0, [], []), [])

  function Resize(cache: seq<Block>, n: nat): seq<Block> {
    if n <= |cache| then cache[..n] else cache + seq(n - |cache|, _ => EMPTY_BLOCK)
  }

  ghost predicate TxCacheOk(db: Db, cache: map<Hash, TxData>) {
    forall t :: t in cache ==> LookupTx(db, t) == Some(cache[t])
  }

  ghost predicate OutputCacheOk(db: Db, cache: map<Ancestor, Hash>) {
    forall m :: m in cache ==> DecodedOrigin(db, m) == Some(cache[m])
  }

  /** Each entry is unused or correct; nothing says that an entry exists. */
  ghost predicate BlockCacheOk(db: Db, cache: seq<Block>) {
    forall h :: 0 <= h < |cache| ==> cache[h].minerTx.vin == [] || (h < |db.blocks| && cache[h] == db.blocks[h])
  }

  lemma {:induction false} BlockCacheStore(db: Db, cache: seq<Block>, h: nat)
    requires BlockCacheOk(db, cache) && h < |db.blocks|
    ensures BlockCacheOk(db, Resize(cache, h + 1)[h := db.blocks[h]])
  {}

  class AncestryState {
    var height: nat
    var ancestry: Ancestry
    var outputCache: map<Ancestor, Hash>
    var txCache: map<Hash, TxData>
    var blockCache: seq<Block>

    ghost predicate Coherent(db: Db)
      reads this
    {
      TxCacheOk(db, txCache) && OutputCacheOk(db, outputCache) && BlockCacheOk(db, blockCache)
    }

    constructor ()
      ensures height == 0 && ancestry == map[]
      ensures forall db :: Coherent(db)
    {
      height, ancestry, outputCache, txCache, blockCache := 0, map[], map[], map[], [];
    }

    method FetchTx(db: Db, txid: Hash, cacheTxes: bool) returns (r: Option<TxData>)
      requires Coherent(db)
      modifies this`txCache
      ensures Coherent(db)
      ensures r == LookupTx(db, txid)
    {
      if txid in txCache { return Some(txCache[txid]); }
      if txid !in db.txs { return None; }
      r := ReadTxData(db.txs[txid]);
      if r.Some? && cacheTxes { txCache := txCache[txid := r.value]; }
    }

    method FetchBlock(db: Db, h: nat, cacheBlocks: bool) returns (r: Option<Block>)
      requires Coherent(db)
      modifies this`blockCache
      ensures Coherent(db)
      ensures r == if h < |db.blocks| then Some(db.blocks[h]) else None
    {
      if h < |blockCache| && blockCache[h].minerTx.vin != [] { return Some(blockCache[h]); }
      if h >= |db.blocks| { return None; }
      r := Some(db.blocks[h]);
      if cacheBlocks {
        BlockCacheStore(db, blockCache, h);
        blockCache := Resize(blockCache, h + 1);
        blockCache := blockCache[h := db.blocks[h]];
      }
    }

    /** The search of one block for the output's key, with the output cache in front of it. */
    method FindCreator(db: Db, m: Ancestor, b: Block, opts: Options) returns (r: Option<Hash>)
      requires Coherent(db)
      requires m in db.outputs && db.outputs[m].height < |db.blocks| && b == db.blocks[db.outputs[m].height]
      modifies this`txCache, this`outputCache
      ensures Coherent(db)
      ensures r == DecodedOrigin(db, m)
    {
      if m in outputCache { return Some(outputCache[m]); }
      var key := db.outputs[m].pubkey;
      for i := 0 to |b.minerTx.vout|
        invariant FindKey(b.minerTx.vout, key) == FindKey(b.minerTx.vout[i..], key)
        invariant Coherent(db)
      {
        match b.minerTx.vout[i] {
          case OtherOut => return None;
          case KeyOut(k) =>
            if k == key {
              if opts.cacheOutputs { outputCache := outputCache[m := b.minerTx.id]; }
              return Some(b.minerTx.id);
            }
        }
      }
      for i := 0 to |b.txHashes|
        invariant DecodedOrigin(db, m) == SearchDecoded(db, b.txHashes[i..], key)
        invariant Coherent(db)
      {
        var data := FetchTx(db, b.txHashes[i], opts.cacheTxes);
        if data.None? { return None; }
        if key in data.value.vout {
          if opts.cacheOutputs { outputCache := outputCache[m := b.txHashes[i]]; }
          return Some(b.txHashes[i]);
        }
      }
      r := None;
    }

    method ProcessMember(db: Db, txid: Hash, m: Ancestor, opts: Options) returns (ok: bool)
      requires Coherent(db)
      modifies this`ancestry, this`outputCache, this`txCache, this`blockCache
      ensures Coherent(db)
      ensures ok <==> DecodedOrigin(db, m).Some?
      ensures ok ==> ancestry == AddMember(old(ancestry), txid, m, DecodedOrigin(db, m).value)
    {
      if m !in db.outputs { return false; }
      ancestry := AddAncestry(ancestry, txid, {m});
      var b := FetchBlock(db, db.outputs[m].height, opts.cacheBlocks);
      if b.None? { return false; }
      var creator := FindCreator(db, m, b.value, opts);
      if creator.None? { return false; }
      ancestry := AddAncestry(ancestry, txid, GetAncestry(ancestry, creator.value));
      ok := true;
    }

    method ProcessRing(db: Db, txid: Hash, ring: Ring, opts: Options, ghost after: seq<Ancestor>) returns (ok: bool)
      requires Coherent(db)
      modifies this`ancestry, this`outputCache, this`txCache, this`blockCache
      ensures Coherent(db)
      ensures ok ==> ForwardMembers(db, old(ancestry), txid, MembersOfRing(ring) + after)
                     == ForwardMembers(db, ancestry, txid, after)
      ensures !ok ==> ForwardMembers(db, old(ancestry), txid, MembersOfRing(ring) + after).None?
    {
      ghost var ms := MembersOfRing(ring) + after;
      ghost var before := ancestry;
      for j := 0 to |ring.offsets|
        invariant Coherent(db)
        invariant ForwardMembers(db, before, txid, ms) == ForwardMembers(db, ancestry, txid, ms[j..])
      {
        var m := Ancestor(ring.amount, ring.offsets[j]);
        assert ms[j..][0] == m && ms[j..][1..] == ms[j + 1..];
        ok := ProcessMember(db, txid, m, opts);
        if !ok { return; }
      }
      assert ms[|ring.offsets|..] == after;
      ok := true;
    }

    method ProcessTx(db: Db, txid: Hash, opts: Options) returns (ok: bool)
      requires Coherent(db)
      modifies this`ancestry, this`outputCache, this`txCache, this`blockCache
      ensures Coherent(db)
      ensures ok <==> ForwardTx(db, old(ancestry), txid).Some?
      ensures ok ==> ancestry == ForwardTx(db, old(ancestry), txid).value
    {
      var fetched := FetchTx(db, txid, opts.cacheTxes);
      if fetched.None? { return false; }
      var data := fetched.value;
      if data.coinbase {
        ancestry := AddAncestry(ancestry, txid, {});
        return true;
      }
      assert data.vin[0..] == data.vin;
      for i := 0 to |data.vin|
        invariant Coherent(db)
        invariant ForwardTx(db, old(ancestry), txid) == ForwardMembers(db, ancestry, txid, Flatten(data.vin[i..]))
      {
        assert data.vin[i..][1..] == data.vin[i + 1..];
        ok := ProcessRing(db, txid, data.vin[i], opts, Flatten(data.vin[i + 1..]));
        if !ok { return; }
      }
      assert data.vin[|data.vin|..] == [];
      ok := true;
    }

    method ProcessBlock(db: Db, h: nat, opts: Options) returns (ok: bool)
      requires Coherent(db) && h < |db.blocks|
      modifies this`ancestry, this`outputCache, this`txCache, this`blockCache
      ensures Coherent(db)
      ensures var r := ForwardTxs(db, old(ancestry), BlockList(db.blocks[h], opts.includeCoinbase));
              (ok <==> r.Some?) && (ok ==> ancestry == r.value)
    {
      var b := db.blocks[h];
      if opts.cacheBlocks {
        BlockCacheStore(db, blockCache, h);
        blockCache := Resize(blockCache, h + 1);
        blockCache := blockCache[h := b];
      }
      var txids := BlockList(b, opts.includeCoinbase);
      assert txids[0..] == txids;
      for i := 0 to |txids|
        invariant Coherent(db)
        invariant ForwardTxs(db, old(ancestry), txids) == ForwardTxs(db, ancestry, txids[i..])
      {
        assert txids[i..][1..] == txids[i + 1..];
        ok := ProcessTx(db, txids[i], opts);
        if !ok { return; }
      }
      ok := true;
    }

    /**
    One run of the program over the database as it is now, stopped by a request seen after block
    `stopAt`.  Whatever is cached, it succeeds exactly when the uncached pass does and leaves the
    same ancestry; the height recorded is that of the last block done, not the next one.
    */
    method Run(db: Db, opts: Options, stopAt: nat) returns (ok: bool)
      requires Coherent(db)
      modifies this
      ensures Coherent(db)
      ensures old(height) >= |db.blocks| ==> ok && ancestry == old(ancestry) && height == old(height)
      ensures old(height) < |db.blocks| ==>
                var end := RunEnd(db, old(height), stopAt);
                var r := ForwardRun(db, old(ancestry), old(height), end, opts.includeCoinbase);
                (ok <==> r.Some?) && (ok ==> ancestry == r.value && height == end - 1)
      ensures ok && old(height) < |db.blocks| ==>
                && old(height) <= height < |db.blocks|
                && (stopAt <= height || height == |db.blocks| - 1)
                && (old(height) < height ==> height <= stopAt)
    {
      var h := height;
      if h >= |db.blocks| { return true; }
      ghost var end := RunEnd(db, h, stopAt);
      ghost var inc := opts.includeCoinbase;
      ghost var from := h;
      hide ForwardTxs, BlockList, TxCacheOk, OutputCacheOk, BlockCacheOk;
      while h < |db.blocks|
        invariant from <= h <= |db.blocks|
        invariant h < end || (h == end && h == |db.blocks|)
        invariant Coherent(db)
        invariant height == if h == from then from else h - 1
        invariant ForwardRun(db, old(ancestry), from, end, inc) == ForwardRun(db, ancestry, h, end, inc)
      {
        ok := ProcessBlock(db, h, opts);
        if !ok { return; }
        height := h;
        if h >= stopAt { return true; }
        h := h + 1;
      }
      ok := true;
    }
  }
}
