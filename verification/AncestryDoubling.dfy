/**
A family of chains on which path counts double with every block, so that 33 blocks are enough to
wrap a 32-bit counter.  Block 0 creates output 0 in its miner transaction; each later block lists
one transaction with two inputs that both name the previous block's output, and creates its own.
*/
module AncestryDoubling {
  import opened Wrappers
  import opened Widths
  import opened RingChain
  import opened AncestryBackward
  import Trace = AncestryTheorems

  function DoublingTx(t: nat): Transaction {
    var h := t / 2;
    if t == 0 then Transaction(0, [Gen], [KeyOut(0)])
    else if t % 2 == 1 then Transaction(t, [Gen], [])
    else Transaction(t, [ToKey(0, [h - 1]), ToKey(0, [h - 1])], [KeyOut(h)])
  }

  function DoublingBlock(h: nat): Block {
    if h == 0 then Block(DoublingTx(0), []) else Block(DoublingTx(2 * h - 1), [2 * h])
  }

  /** The chain of n such blocks. */
  function Doubling(n: nat): Db {
    Db(seq(n, h requires 0 <= h < n => DoublingBlock(h)),
       map t: nat | t + 1 < 2 * n :: DoublingTx(t),
       map h: nat | h < n :: Ancestor(0, h) := OutputData(h, h))
  }

  function Pow2(h: nat): nat {
    if h == 0 then 1 else 2 * Pow2(h - 1)
  }

  lemma {:induction false} OriginOf(n: nat, h: nat)
    requires h < n
    ensures Origin(Doubling(n), Ancestor(0, h)) == Some(2 * h)
  {
    var db, b := Doubling(n), DoublingBlock(h);
    assert Ancestor(0, h) in db.outputs && db.blocks[h] == b;
    if h > 0 {
      assert 2 * h in db.txs && db.txs[2 * h].vout[0] == KeyOut(h);
      assert FindKey(db.txs[2 * h].vout, h) == Found;
    }
  }

  lemma {:induction false} MembersOf(n: nat, t: nat)
    requires t + 1 < 2 * n
    ensures Members(Doubling(n), t)
            == if t == 0 || t % 2 == 1 then [] else [Ancestor(0, t / 2 - 1), Ancestor(0, t / 2 - 1)]
  {
    var tx := DoublingTx(t);
    assert Doubling(n).txs[t] == tx;
    if t != 0 && t % 2 == 0 {
      var ring := Ring(0, [t / 2 - 1]);
      assert Rings(tx.vin) == [ring, ring];
      assert [ring, ring][1..] == [ring] && [ring][1..] == [];
      assert Flatten([ring]) == MembersOfRing(ring);
      assert Flatten([ring, ring]) == MembersOfRing(ring) + Flatten([ring]);
    }
  }

  lemma {:induction false} OrderOf(n: nat, k: nat)
    requires k <= n
    ensures var order := ChainOrder(Doubling(n).blocks[..k]);
            |order| == (if k == 0 then 0 else 2 * k - 1) && forall i :: 0 <= i < |order| ==> order[i] == i
  {
    if k > 0 {
      OrderOf(n, k - 1);
      var upTo := Doubling(n).blocks[..k];
      assert upTo[..k - 1] == Doubling(n).blocks[..k - 1] && upTo[k - 1] == DoublingBlock(k - 1);
    }
  }

  lemma {:induction false} PosOf(n: nat, t: nat)
    requires t + 1 < 2 * n
    ensures Pos(Doubling(n), t) == t
  {
    OrderOf(n, n);
    var blocks := Doubling(n).blocks;
    assert blocks[..n] == blocks;
    var order := ChainOrder(blocks);
    hide ChainOrder, Doubling, IndexOf;
    assert order[t] == t;
    IndexOfFirst(order, t);
  }

  lemma {:induction false} MinersOf(n: nat)
    ensures MinersStored(Doubling(n))
  {
    var db := Doubling(n);
    forall h | 0 <= h < |db.blocks|
      ensures db.blocks[h].minerTx.id in db.txs && IsCoinbase(db.txs[db.blocks[h].minerTx.id])
    {
      assert db.blocks[h] == DoublingBlock(h);
    }
  }

  lemma {:induction false} EarlierOf(n: nat, t: nat, m: Ancestor)
    requires t + 1 < 2 * n && m in Members(Doubling(n), t)
    ensures Origin(Doubling(n), m).Some?
    ensures Pos(Doubling(n), Origin(Doubling(n), m).value) < Pos(Doubling(n), t)
  {
    hide Doubling, Origin, Members, Pos;
    MembersOf(n, t);
    OriginOf(n, t / 2 - 1);
    PosOf(n, t);
    PosOf(n, t - 2);
  }

  /** These are proper chains: rings name earlier outputs only, miner transactions are coinbases. */
  lemma {:induction false} DoublingIsChain(n: nat)
    ensures Trace.Chain(Doubling(n))
  {
    MinersOf(n);
    var db := Doubling(n);
    assert forall t :: t in db.txs ==> t + 1 < 2 * n;
    hide Doubling, MinersStored, Origin, Members, Pos;
    forall t, m | t in db.txs && m in Members(db, t) && Origin(db, m).Some?
      ensures Pos(db, Origin(db, m).value) < Pos(db, t)
    {
      EarlierOf(n, t, m);
    }
  }

  /** A transaction that names one output twice has twice the paths that lead through it. */
  lemma {:induction false} NamedTwice(db: Db, t: Hash, m: Ancestor, o: Hash, a: Ancestor)
    requires OriginsEarlier(db) && Members(db, t) == [m, m] && Origin(db, m) == Some(o)
    ensures PathCount(db, t, a) == 2 * ((if m == a then 1 else 0) + PathCount(db, o, a))
    ensures t in db.txs && GoodInputs(db.txs[t]) && Traceable(db, o) ==> Traceable(db, t)
  {
    hide Origin, Members, OriginsEarlier, GoodInputs;
    assert CountFrom(db, t, 2, a) == 0;
    assert CountFrom(db, t, 1, a) == (if m == a then 1 else 0) + CountFrom(db, o, 0, a);
    assert TraceableFrom(db, t, 2);
    assert Traceable(db, o) ==> TraceableFrom(db, t, 1);
  }

  /** Each block doubles the number of paths to the first output, and every path resolves. */
  lemma {:induction false} PathsDouble(n: nat, h: nat)
    requires h < n
    ensures Trace.Chain(Doubling(n))
    ensures Traceable(Doubling(n), 2 * h)
    ensures PathCount(Doubling(n), 2 * h, Ancestor(0, 0)) == if h == 0 then 0 else Pow2(h)
    decreases h
  {
    hide Doubling, Origin, Members, OriginsEarlier, MinersStored, GoodInputs, PathCount, Traceable;
    var db, a := Doubling(n), Ancestor(0, 0);
    DoublingIsChain(n);
    MembersOf(n, 2 * h);
    StoredOf(n, 2 * h);
    if h == 0 {
      NamesNothing(db, 0, a);
    } else {
      PathsDouble(n, h - 1);
      OriginOf(n, h - 1);
      NamedTwice(db, 2 * h, Ancestor(0, h - 1), 2 * (h - 1), a);
    }
  }

  lemma {:induction false} StoredOf(n: nat, t: nat)
    requires t + 1 < 2 * n
    ensures t in Doubling(n).txs && GoodInputs(Doubling(n).txs[t])
  {}

  lemma {:induction false} NamesNothing(db: Db, t: Hash, a: Ancestor)
    requires OriginsEarlier(db) && t in db.txs && GoodInputs(db.txs[t]) && Members(db, t) == []
    ensures PathCount(db, t, a) == 0 && Traceable(db, t)
  {}

  lemma {:induction false} CounterRange()
    ensures Pow2(32) == UINT_RANGE
  {
    assert Pow2(8) == 0x100;
    assert Pow2(16) == 0x1_0000;
    assert Pow2(24) == 0x100_0000;
  }

  /**
  On the chain of 33 blocks a counter wraps: the trace of the last transaction succeeds, the first
  output's counter reads 0, and the summed counters miss the number of visits.
  */
  lemma {:induction false} CounterWraps(visits: multiset<Ancestor>, tally: multiset<Ancestor>)
    requires OriginsEarlier(Doubling(33)) && forall a :: visits[a] == PathCount(Doubling(33), 64, a)
    requires IsTally(tally, CountsOf(visits))
    ensures Traceable(Doubling(33), 64)
    ensures Ancestor(0, 0) in CountsOf(visits) && CountsOf(visits)[Ancestor(0, 0)] == 0
    ensures |tally| < |visits| && |tally| % SIZE_RANGE != |visits|
  {
    PathsDouble(33, 32);
    CounterRange();
    hide Doubling, OriginsEarlier, Pow2;
    assert visits[Ancestor(0, 0)] == UINT_RANGE;
    FullAncestryExact(visits, tally);
    TotalExact(visits, tally, |tally| % SIZE_RANGE);
  }
}
