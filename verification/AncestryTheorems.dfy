/**
What the forward tracer computes: exactly the reachable outputs of every transaction it has
passed, whatever was cached, however often it was stopped and resumed while the chain grew, and
in agreement with the backward tracer.
*/
module AncestryTheorems {
  import opened Wrappers
  import opened RingChain
  import opened AncestryForward
  import Backward = AncestryBackward

  ghost predicate Chain(db: Db) {
    OriginsEarlier(db) && MinersStored(db)
  }

  // ----- Correctness of one pass -----

  ghost predicate Sound(db: Db, anc: Ancestry)
    requires OriginsEarlier(db)
  {
    forall t :: GetAncestry(anc, t) <= Ancestors(db, t)
  }

  ghost predicate Exact(db: Db, anc: Ancestry, t: Hash)
    requires OriginsEarlier(db)
  {
    Traceable(db, t) && GetAncestry(anc, t) == Ancestors(db, t)
  }

  /** Everything before chain position k has its exact ancestry; everything else at most its own. */
  ghost predicate Done(db: Db, anc: Ancestry, k: nat)
    requires OriginsEarlier(db)
  {
    Sound(db, anc) && forall t :: Pos(db, t) < k ==> Exact(db, anc, t)
  }

  lemma {:induction false} AddMemberKeeps(db: Db, anc: Ancestry, t: Hash, m: Ancestor, o: Hash)
    requires OriginsEarlier(db)
    requires forall s :: Pos(db, s) < Pos(db, t) ==> Exact(db, anc, s)
    ensures forall s :: Pos(db, s) < Pos(db, t) ==> Exact(db, AddMember(anc, t, m, o), s)
  {
    forall s | Pos(db, s) < Pos(db, t) ensures Exact(db, AddMember(anc, t, m, o), s) {
      assert Exact(db, anc, s);
    }
  }

  lemma {:induction false} AddMemberAt(anc: Ancestry, t: Hash, m: Ancestor, o: Hash)
    requires o != t
    ensures GetAncestry(AddMember(anc, t, m, o), t) == GetAncestry(anc, t) + {m} + GetAncestry(anc, o)
    ensures forall s :: s != t ==> GetAncestry(AddMember(anc, t, m, o), s) == GetAncestry(anc, s)
  {}

  lemma {:induction false} MembersExact(db: Db, anc: Ancestry, t: Hash, i: nat)
    requires OriginsEarlier(db) && t in db.txs && i <= |Members(db, t)|
    requires forall s :: Pos(db, s) < Pos(db, t) ==> Exact(db, anc, s)
    requires ForwardMembers(db, anc, t, Members(db, t)[i..]).Some?
    ensures var next := ForwardMembers(db, anc, t, Members(db, t)[i..]).value;
            && GetAncestry(next, t) == GetAncestry(anc, t) + AncestorsFrom(db, t, i)
            && TraceableFrom(db, t, i)
            && forall s :: s != t ==> GetAncestry(next, s) == GetAncestry(anc, s)
    decreases |Members(db, t)| - i
  {
    if i < |Members(db, t)| {
      var m := Members(db, t)[i];
      ForwardMembersStep(db, anc, t, i);
      DecodedOriginAgrees(db, m);
      var o := Origin(db, m).value;
      assert Pos(db, o) < Pos(db, t) && Exact(db, anc, o);
      AddMemberKeeps(db, anc, t, m, o);
      AddMemberAt(anc, t, m, o);
      hide Exact, Pos, AddMember, GetAncestry, ForwardMembers, Members;
      MembersExact(db, AddMember(anc, t, m, o), t, i + 1);
    }
  }

  lemma {:induction false} ForwardMembersStep(db: Db, anc: Ancestry, t: Hash, i: nat)
    requires i < |Members(db, t)| && ForwardMembers(db, anc, t, Members(db, t)[i..]).Some?
    ensures var o := DecodedOrigin(db, Members(db, t)[i]);
            && o.Some?
            && ForwardMembers(db, anc, t, Members(db, t)[i..])
               == ForwardMembers(db, AddMember(anc, t, Members(db, t)[i], o.value), t, Members(db, t)[i + 1..])
  {
    var ms := Members(db, t)[i..];
    assert ms[0] == Members(db, t)[i] && ms[1..] == Members(db, t)[i + 1..];
  }

  lemma {:induction false} TxExact(db: Db, anc: Ancestry, t: Hash)
    requires OriginsEarlier(db) && Sound(db, anc)
    requires forall s :: Pos(db, s) < Pos(db, t) ==> Exact(db, anc, s)
    requires ForwardTx(db, anc, t).Some?
    ensures var next := ForwardTx(db, anc, t).value;
            && Exact(db, next, t)
            && forall s :: s != t ==> GetAncestry(next, s) == GetAncestry(anc, s)
  {
    assert GetAncestry(anc, t) <= Ancestors(db, t);
    if !IsCoinbase(db.txs[t]) {
      assert Members(db, t)[0..] == Members(db, t);
      MembersExact(db, anc, t, 0);
    }
  }

  lemma {:induction false} TxDone(db: Db, anc: Ancestry, k: nat)
    requires OriginsEarlier(db) && Done(db, anc, k) && k < |ChainOrder(db.blocks)|
    requires ForwardTx(db, anc, ChainOrder(db.blocks)[k]).Some?
    ensures Done(db, ForwardTx(db, anc, ChainOrder(db.blocks)[k]).value, k + 1)
  {
    hide ForwardTx, ChainOrder, IndexOf, Traceable, Ancestors, OriginsEarlier;
    var t := ChainOrder(db.blocks)[k];
    var next := ForwardTx(db, anc, t).value;
    IndexOfFirst(ChainOrder(db.blocks), t);
    TxExact(db, anc, t);
    forall s ensures GetAncestry(next, s) <= Ancestors(db, s) {
      assert GetAncestry(anc, s) <= Ancestors(db, s);
    }
    forall s | Pos(db, s) < k + 1 ensures Exact(db, next, s) {
      IndexOfFirst(ChainOrder(db.blocks), s);
      if s != t {
        assert Pos(db, s) < k;
        assert Exact(db, anc, s);
      }
    }
  }

  lemma {:induction false} TxsDone(db: Db, anc: Ancestry, k: nat, ts: seq<Hash>)
    requires OriginsEarlier(db) && Done(db, anc, k)
    requires k + |ts| <= |ChainOrder(db.blocks)| && ChainOrder(db.blocks)[k..k + |ts|] == ts
    requires ForwardTxs(db, anc, ts).Some?
    ensures Done(db, ForwardTxs(db, anc, ts).value, k + |ts|)
    decreases |ts|
  {
    if ts != [] {
      assert ts[0] == ChainOrder(db.blocks)[k];
      assert ts[1..] == ChainOrder(db.blocks)[k + 1..k + |ts|];
      TxDone(db, anc, k);
      TxsDone(db, ForwardTx(db, anc, ts[0]).value, k + 1, ts[1..]);
    }
  }

  /** A miner transaction that is left out reads as having no ancestors, which is right. */
  lemma {:induction false} MinerDone(db: Db, anc: Ancestry, k: nat, h: nat)
    requires Chain(db) && Done(db, anc, k) && h < |db.blocks|
    requires k < |ChainOrder(db.blocks)| && ChainOrder(db.blocks)[k] == db.blocks[h].minerTx.id
    ensures Done(db, anc, k + 1)
  {
    var t := db.blocks[h].minerTx.id;
    assert GetAncestry(anc, t) <= Ancestors(db, t);
    forall s | Pos(db, s) < k + 1 ensures Exact(db, anc, s) {
      IndexOfFirst(ChainOrder(db.blocks), s);
      if s != t {
        assert Pos(db, s) < k;
        assert Exact(db, anc, s);
      }
    }
  }

  /** The chain position at which block h starts. */
  function Start(db: Db, h: nat): nat
    requires h <= |db.blocks|
  {
    |ChainOrder(db.blocks[..h])|
  }

  lemma {:induction false} ChainOrderPrefix(blocks: seq<Block>, h: nat)
    requires h <= |blocks|
    ensures ChainOrder(blocks[..h]) <= ChainOrder(blocks)
    decreases |blocks|
  {
    if h == |blocks| {
      assert blocks[..h] == blocks;
    } else {
      var front := blocks[..|blocks| - 1];
      assert front[..h] == blocks[..h];
      ChainOrderPrefix(front, h);
    }
  }

  lemma {:induction false} ChainOrderAt(db: Db, h: nat)
    requires h < |db.blocks|
    ensures var n := |BlockTxids(db.blocks[h])|;
            && Start(db, h + 1) == Start(db, h) + n <= |ChainOrder(db.blocks)|
            && ChainOrder(db.blocks)[Start(db, h)..Start(db, h) + n] == BlockTxids(db.blocks[h])
  {
    var upTo := db.blocks[..h + 1];
    assert upTo[..|upTo| - 1] == db.blocks[..h];
    ChainOrderPrefix(db.blocks, h + 1);
    var order, s := ChainOrder(db.blocks), Start(db, h);
    assert order[..Start(db, h + 1)] == ChainOrder(upTo);
    assert order[s..Start(db, h + 1)] == ChainOrder(upTo)[s..];
  }

  lemma {:induction false} BlockDone(db: Db, anc: Ancestry, h: nat, includeCoinbase: bool)
    requires Chain(db) && h < |db.blocks| && Done(db, anc, Start(db, h))
    requires ForwardTxs(db, anc, BlockList(db.blocks[h], includeCoinbase)).Some?
    ensures Done(db, ForwardTxs(db, anc, BlockList(db.blocks[h], includeCoinbase)).value, Start(db, h + 1))
  {
    var k, order, txids := Start(db, h), ChainOrder(db.blocks), BlockTxids(db.blocks[h]);
    ChainOrderAt(db, h);
    if includeCoinbase {
      TxsDone(db, anc, k, txids);
    } else {
      assert order[k] == order[k..k + |txids|][0] == db.blocks[h].minerTx.id;
      assert order[k + 1..k + |txids|] == order[k..k + |txids|][1..] == db.blocks[h].txHashes;
      MinerDone(db, anc, k, h);
      assert BlockList(db.blocks[h], includeCoinbase) == db.blocks[h].txHashes;
      TxsDone(db, anc, k + 1, db.blocks[h].txHashes);
    }
  }

  /** After blocks lo..hi every transaction of the chain before block hi has its exact ancestry. */
  lemma {:induction false} RunDone(db: Db, anc: Ancestry, lo: nat, hi: nat, includeCoinbase: bool)
    requires Chain(db) && lo <= hi <= |db.blocks| && Done(db, anc, Start(db, lo))
    requires ForwardRun(db, anc, lo, hi, includeCoinbase).Some?
    ensures Done(db, ForwardRun(db, anc, lo, hi, includeCoinbase).value, Start(db, hi))
    decreases hi - lo
  {
    if lo < hi {
      BlockDone(db, anc, lo, includeCoinbase);
      RunDone(db, ForwardTxs(db, anc, BlockList(db.blocks[lo], includeCoinbase)).value, lo + 1, hi, includeCoinbase);
    }
  }

  lemma {:induction false} FreshDone(db: Db)
    requires OriginsEarlier(db)
    ensures Done(db, map[], 0)
  {}

  /** A full pass from scratch gives every transaction on the chain its exact ancestry. */
  lemma {:induction false} FullPassExact(db: Db, includeCoinbase: bool, t: Hash)
    requires Chain(db) && t in ChainOrder(db.blocks)
    requires ForwardRun(db, map[], 0, |db.blocks|, includeCoinbase).Some?
    ensures Exact(db, ForwardRun(db, map[], 0, |db.blocks|, includeCoinbase).value, t)
  {
    FreshDone(db);
    RunDone(db, map[], 0, |db.blocks|, includeCoinbase);
    assert db.blocks[..|db.blocks|] == db.blocks;
    IndexOfFirst(ChainOrder(db.blocks), t);
  }

  /** A full pass from scratch finds, for every transaction on the chain, exactly the reachable outputs. */
  lemma {:induction false} ForwardCorrect(db: Db, includeCoinbase: bool, t: Hash, a: Ancestor)
    requires Chain(db) && t in ChainOrder(db.blocks)
    requires ForwardRun(db, map[], 0, |db.blocks|, includeCoinbase).Some?
    ensures a in GetAncestry(ForwardRun(db, map[], 0, |db.blocks|, includeCoinbase).value, t)
       <==> exists p :: RingPathTo(db, t, p, a)
  {
    FullPassExact(db, includeCoinbase, t);
    AncestorsAreReachable(db, t, a);
  }

  /** Whether miner transactions are listed changes no answer, not even for miner transactions. */
  lemma {:induction false} CoinbaseFlagIrrelevant(db: Db, t: Hash)
    requires Chain(db) && t in ChainOrder(db.blocks)
    requires ForwardRun(db, map[], 0, |db.blocks|, true).Some? && ForwardRun(db, map[], 0, |db.blocks|, false).Some?
    ensures GetAncestry(ForwardRun(db, map[], 0, |db.blocks|, true).value, t)
            == GetAncestry(ForwardRun(db, map[], 0, |db.blocks|, false).value, t)
  {
    FullPassExact(db, true, t);
    FullPassExact(db, false, t);
  }

  // ----- When a pass succeeds -----

  /** The transaction decodes and each of its ring members has a creator. */
  predicate Resolves(db: Db, t: Hash) {
    && LookupTx(db, t).Some?
    && forall m :: m in Members(db, t) ==> DecodedOrigin(db, m).Some?
  }

  lemma {:induction false} MembersResolve(db: Db, anc: Ancestry, t: Hash, ms: seq<Ancestor>)
    ensures ForwardMembers(db, anc, t, ms).Some? <==> forall m :: m in ms ==> DecodedOrigin(db, m).Some?
    decreases |ms|
  {
    if ms != [] && DecodedOrigin(db, ms[0]).Some? {
      MembersResolve(db, AddMember(anc, t, ms[0], DecodedOrigin(db, ms[0]).value), t, ms[1..]);
    }
  }

  lemma {:induction false} TxResolves(db: Db, anc: Ancestry, t: Hash)
    ensures ForwardTx(db, anc, t).Some? <==> Resolves(db, t)
  {
    MembersResolve(db, anc, t, Members(db, t));
  }

  lemma {:induction false} TxsResolve(db: Db, anc: Ancestry, ts: seq<Hash>)
    ensures ForwardTxs(db, anc, ts).Some? <==> forall t :: t in ts ==> Resolves(db, t)
    decreases |ts|
  {
    if ts != [] {
      TxResolves(db, anc, ts[0]);
      assert forall t :: t in ts <==> t == ts[0] || t in ts[1..];
      if ForwardTx(db, anc, ts[0]).Some? { TxsResolve(db, ForwardTx(db, anc, ts[0]).value, ts[1..]); }
    }
  }

  /** A run succeeds exactly when each transaction it lists resolves, whatever ancestry it starts from. */
  lemma {:induction false} RunResolves(db: Db, anc: Ancestry, lo: nat, hi: nat, includeCoinbase: bool)
    requires lo <= hi <= |db.blocks|
    ensures ForwardRun(db, anc, lo, hi, includeCoinbase).Some?
       <==> forall h, t :: lo <= h < hi && t in BlockList(db.blocks[h], includeCoinbase) ==> Resolves(db, t)
    decreases hi - lo
  {
    if lo < hi {
      var ts := BlockList(db.blocks[lo], includeCoinbase);
      TxsResolve(db, anc, ts);
      if ForwardTxs(db, anc, ts).Some? {
        RunResolves(db, ForwardTxs(db, anc, ts).value, lo + 1, hi, includeCoinbase);
      }
    }
  }

  // ----- Agreement of the two tracers -----

  /**
  For every transaction the forward pass has passed, the backward tracer succeeds, and the keys of
  any counter map that meets its contract are the forward ancestor set.
  */
  lemma {:induction false} TracersAgree(db: Db, includeCoinbase: bool, t: Hash, counts: map<Ancestor, nat>)
    requires Chain(db) && t in ChainOrder(db.blocks)
    requires ForwardRun(db, map[], 0, |db.blocks|, includeCoinbase).Some?
    requires forall a :: a in counts <==> PathCount(db, t, a) > 0
    ensures Traceable(db, t)
    ensures var forward := GetAncestry(ForwardRun(db, map[], 0, |db.blocks|, includeCoinbase).value, t);
            counts.Keys == forward && Backward.GetDeduplicatedAncestry(counts) == |forward|
  {
    var anc := ForwardRun(db, map[], 0, |db.blocks|, includeCoinbase).value;
    FullPassExact(db, includeCoinbase, t);
    forall a ensures a in counts <==> a in GetAncestry(anc, t) {
      AncestorsAreCounted(db, t, 0, a);
    }
    assert counts.Keys == GetAncestry(anc, t);
  }

  // ----- A growing chain -----

  /** The later database holds everything the earlier one holds, unchanged. */
  ghost predicate Extends(db: Db, later: Db) {
    && db.blocks <= later.blocks
    && (forall t :: t in db.txs ==> t in later.txs && later.txs[t] == db.txs[t])
    && (forall m :: m in db.outputs ==> m in later.outputs && later.outputs[m] == db.outputs[m])
  }

  lemma {:induction false} SearchGrows(db: Db, later: Db, hashes: seq<Hash>, key: PublicKey)
    requires Extends(db, later)
    ensures SearchTxs(db, hashes, key).Some? ==> SearchTxs(later, hashes, key) == SearchTxs(db, hashes, key)
    ensures SearchDecoded(db, hashes, key).Some? ==> SearchDecoded(later, hashes, key) == SearchDecoded(db, hashes, key)
  {
    if hashes != [] { SearchGrows(db, later, hashes[1..], key); }
  }

  lemma {:induction false} OriginGrows(db: Db, later: Db, m: Ancestor)
    requires Extends(db, later)
    ensures Origin(db, m).Some? ==> Origin(later, m) == Origin(db, m)
    ensures DecodedOrigin(db, m).Some? ==> DecodedOrigin(later, m) == DecodedOrigin(db, m)
  {
    if m in db.outputs && db.outputs[m].height < |db.blocks| {
      var h := db.outputs[m].height;
      assert later.blocks[h] == db.blocks[h];
      SearchGrows(db, later, db.blocks[h].txHashes, db.outputs[m].pubkey);
    }
  }

  lemma {:induction false} CachesGrow(db: Db, later: Db, txCache: map<Hash, TxData>, outputCache: map<Ancestor, Hash>,
        blockCache: seq<Block>)
    requires Extends(db, later)
    requires TxCacheOk(db, txCache) && OutputCacheOk(db, outputCache) && BlockCacheOk(db, blockCache)
    ensures TxCacheOk(later, txCache) && OutputCacheOk(later, outputCache) && BlockCacheOk(later, blockCache)
  {
    forall m | m in outputCache ensures DecodedOrigin(later, m) == Some(outputCache[m]) {
      OriginGrows(db, later, m);
    }
  }

  /** What resolves on a chain resolves on a longer one. */
  lemma {:induction false} ResolvesGrows(db: Db, later: Db, t: Hash)
    requires Extends(db, later) && Resolves(db, t)
    ensures Resolves(later, t)
  {
    forall m | m in Members(later, t) ensures DecodedOrigin(later, m).Some? {
      OriginGrows(db, later, m);
    }
  }

  /** Ancestor sets never shrink as the chain grows. */
  lemma {:induction false} AncestorsGrow(db: Db, later: Db, t: Hash, i: nat)
    requires OriginsEarlier(db) && OriginsEarlier(later) && Extends(db, later) && t in db.txs
    requires i <= |Members(db, t)|
    ensures AncestorsFrom(db, t, i) <= AncestorsFrom(later, t, i)
    decreases Pos(db, t), |Members(db, t)| - i
  {
    if i < |Members(db, t)| {
      var m := Members(db, t)[i];
      AncestorsGrow(db, later, t, i + 1);
      if Origin(db, m).Some? {
        OriginGrows(db, later, m);
        var o := Origin(db, m).value;
        if o in db.txs { AncestorsGrow(db, later, o, 0); }
      }
    }
  }

  /** Once a transaction is traceable, growth changes nothing about it. */
  lemma {:induction false} TraceableStays(db: Db, later: Db, t: Hash, i: nat)
    requires OriginsEarlier(db) && OriginsEarlier(later) && Extends(db, later) && t in db.txs
    requires i <= |Members(db, t)| && TraceableFrom(db, t, i)
    ensures TraceableFrom(later, t, i) && AncestorsFrom(later, t, i) == AncestorsFrom(db, t, i)
    decreases Pos(db, t), |Members(db, t)| - i
  {
    if i < |Members(db, t)| {
      var m := Members(db, t)[i];
      TraceableStays(db, later, t, i + 1);
      OriginGrows(db, later, m);
      TraceableStays(db, later, Origin(db, m).value, 0);
    }
  }

  lemma {:induction false} DoneGrows(db: Db, later: Db, anc: Ancestry, h: nat)
    requires OriginsEarlier(db) && OriginsEarlier(later) && Extends(db, later)
    requires h <= |db.blocks| && Done(db, anc, Start(db, h))
    ensures Done(later, anc, Start(later, h))
  {
    forall t ensures GetAncestry(anc, t) <= Ancestors(later, t) {
      assert GetAncestry(anc, t) <= Ancestors(db, t);
      if t in db.txs { AncestorsGrow(db, later, t, 0); }
    }
    assert later.blocks[..h] == db.blocks[..h];
    ChainOrderPrefix(db.blocks, h);
    ChainOrderPrefix(later.blocks, h);
    forall t | Pos(later, t) < Start(later, h) ensures Exact(later, anc, t) {
      var k := Pos(later, t);
      IndexOfFirst(ChainOrder(later.blocks), t);
      IndexOfFirst(ChainOrder(db.blocks), t);
      assert ChainOrder(db.blocks)[k] == ChainOrder(db.blocks[..h])[k] == t;
      assert Exact(db, anc, t);
      TraceableStays(db, later, t, 0);
    }
  }

  // ----- Interrupted and resumed runs -----

  datatype Session = Session(db: Db, opts: Options, stopAt: nat)

  /** Each session sees a proper chain that extends the one before it. */
  ghost predicate Growing(ss: seq<Session>) {
    && (forall i :: 0 <= i < |ss| ==> Chain(ss[i].db))
    && (forall i :: 0 < i < |ss| ==> Extends(ss[i - 1].db, ss[i].db))
  }

  /** Every transaction listed below the height resolves. */
  ghost predicate Passed(db: Db, height: nat) {
    forall h, t :: 0 <= h < height && h < |db.blocks| && t in db.blocks[h].txHashes ==> Resolves(db, t)
  }

  /** Progress a session may resume from: all blocks below the recorded height are done. */
  ghost predicate Resumable(db: Db, anc: Ancestry, height: nat)
    requires OriginsEarlier(db)
  {
    height <= |db.blocks| && Done(db, anc, Start(db, height)) && Passed(db, height)
  }

  /** Every transaction on the chain has its exact ancestry, and all listed ones resolve. */
  ghost predicate Complete(db: Db, anc: Ancestry)
    requires OriginsEarlier(db)
  {
    Passed(db, |db.blocks|) && forall t :: t in ChainOrder(db.blocks) ==> Exact(db, anc, t)
  }

  lemma {:induction false} RunPasses(db: Db, anc: Ancestry, from: nat, end: nat, includeCoinbase: bool)
    requires from <= end <= |db.blocks| && Passed(db, from) && ForwardRun(db, anc, from, end, includeCoinbase).Some?
    ensures Passed(db, end)
  {
    RunResolves(db, anc, from, end, includeCoinbase);
    hide ForwardRun, Resolves;
    forall h, t | 0 <= h < end && t in db.blocks[h].txHashes ensures Resolves(db, t) {
      if h >= from { assert t in BlockList(db.blocks[h], includeCoinbase); }
    }
  }

  /** A successful run leaves progress to resume from, and all of it if it was not stopped early. */
  lemma {:induction false} RunResumable(db: Db, anc: Ancestry, from: nat, stopAt: nat, includeCoinbase: bool)
    requires Chain(db) && from < |db.blocks| && Resumable(db, anc, from)
    requires ForwardRun(db, anc, from, RunEnd(db, from, stopAt), includeCoinbase).Some?
    ensures var end := RunEnd(db, from, stopAt);
            var next := ForwardRun(db, anc, from, end, includeCoinbase).value;
            && Resumable(db, next, end - 1)
            && (|db.blocks| <= stopAt + 1 ==> Complete(db, next))
  {
    var end := RunEnd(db, from, stopAt);
    RunDone(db, anc, from, end, includeCoinbase);
    RunPasses(db, anc, from, end, includeCoinbase);
    var next := ForwardRun(db, anc, from, end, includeCoinbase).value;
    ChainOrderAt(db, end - 1);
    hide Done, Resolves, ForwardRun;
    DoneShorter(db, next, Start(db, end - 1), Start(db, end));
    if |db.blocks| <= stopAt + 1 { NothingLeft(db, next, end); }
  }

  lemma {:induction false} DoneShorter(db: Db, anc: Ancestry, k: nat, n: nat)
    requires OriginsEarlier(db) && k <= n && Done(db, anc, n)
    ensures Done(db, anc, k)
  {}

  lemma {:induction false} ResumableGrows(db: Db, later: Db, anc: Ancestry, height: nat)
    requires OriginsEarlier(db) && OriginsEarlier(later) && Extends(db, later) && Resumable(db, anc, height)
    ensures Resumable(later, anc, height)
  {
    DoneGrows(db, later, anc, height);
    forall h, t | 0 <= h < height && t in later.blocks[h].txHashes ensures Resolves(later, t) {
      assert later.blocks[h] == db.blocks[h];
      ResolvesGrows(db, later, t);
    }
  }

  lemma {:induction false} NothingLeft(db: Db, anc: Ancestry, height: nat)
    requires OriginsEarlier(db) && height >= |db.blocks| && Resumable(db, anc, height)
    ensures Complete(db, anc)
  {
    assert db.blocks[..|db.blocks|] == db.blocks;
    forall t | t in ChainOrder(db.blocks) ensures Exact(db, anc, t) {
      IndexOfFirst(ChainOrder(db.blocks), t);
    }
  }

  predicate Uninterrupted(s: Session) {
    |s.db.blocks| <= s.stopAt + 1
  }

  /** Everything the session will look at, starting from a height, resolves. */
  ghost predicate SessionResolves(s: Session, from: nat) {
    var end := RunEnd(s.db, from, s.stopAt);
    forall h, t :: from <= h < end && h < |s.db.blocks| && t in BlockList(s.db.blocks[h], s.opts.includeCoinbase) ==>
                     Resolves(s.db, t)
  }

  ghost predicate FreshPassSucceeds(db: Db, includeCoinbase: bool) {
    ForwardRun(db, map[], 0, |db.blocks|, includeCoinbase).Some?
  }

  /** A session succeeds wherever a fresh pass over the whole chain would. */
  lemma {:induction false} FreshPassResolves(s: Session, from: nat)
    requires FreshPassSucceeds(s.db, s.opts.includeCoinbase)
    ensures SessionResolves(s, from)
  {
    RunResolves(s.db, map[], 0, |s.db.blocks|, s.opts.includeCoinbase);
    hide ForwardRun, Resolves, BlockList;
  }

  lemma {:induction false} SessionResult(s: Session, anc: Ancestry, from: nat)
    requires from <= |s.db.blocks|
    ensures ForwardRun(s.db, anc, from, RunEnd(s.db, from, s.stopAt), s.opts.includeCoinbase).Some?
       <==> SessionResolves(s, from)
  {
    RunResolves(s.db, anc, from, RunEnd(s.db, from, s.stopAt), s.opts.includeCoinbase);
    hide ForwardRun, Resolves, BlockList;
  }

  /**
  One session on a saved state: it succeeds exactly when everything it looks at resolves, whatever
  was saved or cached.  It ends in a state to save, or leaves the saved state alone.
  */
  method RunSession(state: AncestryState, s: Session) returns (ok: bool)
    requires Chain(s.db) && state.Coherent(s.db) && Resumable(s.db, state.ancestry, state.height)
    modifies state
    ensures state.Coherent(s.db) && Resumable(s.db, state.ancestry, state.height)
    ensures ok <==> SessionResolves(s, old(state.height))
    ensures ok && Uninterrupted(s) ==> Complete(s.db, state.ancestry)
    ensures !ok ==> state.ancestry == old(state.ancestry) && state.height == old(state.height)
  {
    hide Resumable, Complete, ForwardRun, TxCacheOk, OutputCacheOk, BlockCacheOk, SessionResolves, OriginsEarlier,
         MinersStored, RunEnd;
    var height, ancestry := state.height, state.ancestry;
    ResumableHeight(s.db, ancestry, height);
    SessionResult(s, ancestry, height);
    var outputs, txes, blocks := state.outputCache, state.txCache, state.blockCache;
    ok := state.Run(s.db, s.opts, s.stopAt);
    if !ok {
      state.height, state.ancestry := height, ancestry;
      state.outputCache, state.txCache, state.blockCache := outputs, txes, blocks;
    } else if height < |s.db.blocks| {
      RunResumable(s.db, ancestry, height, s.stopAt, s.opts.includeCoinbase);
    } else {
      NothingLeft(s.db, ancestry, height);
      NothingToDo(s, height);
    }
  }

  lemma {:induction false} ResumableHeight(db: Db, anc: Ancestry, height: nat)
    requires OriginsEarlier(db) && Resumable(db, anc, height)
    ensures height <= |db.blocks|
  {}

  lemma {:induction false} NothingToDo(s: Session, from: nat)
    requires from >= |s.db.blocks|
    ensures SessionResolves(s, from)
  {}

  /**
  Any number of sessions, with any cache flags and any stops, starting from no saved state.  A
  session that fails leaves the saved state alone; the next one starts from it.  The last session
  succeeds wherever a fresh pass would.  If it succeeds and is not stopped early, every transaction
  on the chain reads its exact ancestry, however the work was split.
  */
  method RunSessions(ss: seq<Session>) returns (ok: bool, state: AncestryState)
    requires Growing(ss) && ss != []
    ensures var last := ss[|ss| - 1];
            && (FreshPassSucceeds(last.db, last.opts.includeCoinbase) ==> ok)
            && (ok && Uninterrupted(last) ==> Complete(last.db, state.ancestry))
  {
    state := new AncestryState();
    FreshDone(ss[0].db);
    hide SessionResolves, FreshPassSucceeds, Resolves, Done, TxCacheOk, OutputCacheOk, BlockCacheOk, Extends;
    ok := RunSession(state, ss[0]);
    if FreshPassSucceeds(ss[0].db, ss[0].opts.includeCoinbase) { FreshPassResolves(ss[0], 0); }
    for i := 1 to |ss|
      invariant fresh(state)
      invariant state.Coherent(ss[i - 1].db) && Resumable(ss[i - 1].db, state.ancestry, state.height)
      invariant FreshPassSucceeds(ss[i - 1].db, ss[i - 1].opts.includeCoinbase) ==> ok
      invariant ok && Uninterrupted(ss[i - 1]) ==> Complete(ss[i - 1].db, state.ancestry)
    {
      CachesGrow(ss[i - 1].db, ss[i].db, state.txCache, state.outputCache, state.blockCache);
      ResumableGrows(ss[i - 1].db, ss[i].db, state.ancestry, state.height);
      var from := state.height;
      ok := RunSession(state, ss[i]);
      if FreshPassSucceeds(ss[i].db, ss[i].opts.includeCoinbase) { FreshPassResolves(ss[i], from); }
    }
  }

  /**
  Completed sessions read like one fresh uncached pass over the whole chain.  That pass succeeds
  without miner transactions; where it also succeeds with them, it gives the same answers.
  */
  lemma {:induction false} ResumeEqualsFresh(db: Db, anc: Ancestry, includeCoinbase: bool, t: Hash)
    requires Chain(db) && Complete(db, anc) && t in ChainOrder(db.blocks)
    ensures !includeCoinbase ==> FreshPassSucceeds(db, includeCoinbase)
    ensures FreshPassSucceeds(db, includeCoinbase) ==>
              GetAncestry(anc, t) == GetAncestry(ForwardRun(db, map[], 0, |db.blocks|, includeCoinbase).value, t)
  {
    RunResolves(db, map[], 0, |db.blocks|, includeCoinbase);
    hide ForwardRun, Resolves;
    assert Exact(db, anc, t);
    if FreshPassSucceeds(db, includeCoinbase) { FullPassExact(db, includeCoinbase, t); }
  }
}
