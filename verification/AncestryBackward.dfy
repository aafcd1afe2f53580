/**
The backward tracer: a FIFO worklist of transaction ids without a visited set, which counts every
visit to every ring member below one start transaction.
*/
module AncestryBackward {
  import opened Wrappers
  import opened RingChain
  import opened Widths

  // ----- Counter maps -----

  /** Counters are 32 bits wide and wrap. */
  function AddAncestor(counts: map<Ancestor, nat>, a: Ancestor): map<Ancestor, nat> {
    counts[a := if a in counts then (counts[a] + 1) % UINT_RANGE else 1]
  }

  /** The counter map that a history of visits leaves behind. */
  ghost function CountsOf(visits: multiset<Ancestor>): map<Ancestor, nat> {
    map a | a in visits :: visits[a] % UINT_RANGE
  }

  lemma {:induction false} WrappedStep(n: nat)
    ensures (n % UINT_RANGE + 1) % UINT_RANGE == (n + 1) % UINT_RANGE
  {}

  lemma {:induction false} AddAncestorCounts(visits: multiset<Ancestor>, a: Ancestor)
    ensures AddAncestor(CountsOf(visits), a) == CountsOf(visits + multiset{a})
  {
    var after := visits + multiset{a};
    var added := AddAncestor(CountsOf(visits), a);
    WrappedStep(visits[a]);
    assert added.Keys == CountsOf(after).Keys;
    forall b | b in added.Keys ensures added[b] == CountsOf(after)[b] {
      assert b != a ==> after[b] == visits[b];
    }
  }

  ghost predicate IsTally(tally: multiset<Ancestor>, counts: map<Ancestor, nat>) {
    forall a :: tally[a] == if a in counts then counts[a] else 0
  }

  /** Sums all counters into a 64-bit total: the size of the multiset with these multiplicities. */
  method GetFullAncestry(counts: map<Ancestor, nat>) returns (total: nat)
    ensures exists tally :: IsTally(tally, counts) && total == |tally| % SIZE_RANGE
  {
    var todo := counts.Keys;
    ghost var tally: multiset<Ancestor> := multiset{};
    total := 0;
    while todo != {}
      invariant todo <= counts.Keys
      invariant forall a :: tally[a] == if a in counts.Keys - todo then counts[a] else 0
      invariant total == |tally| % SIZE_RANGE
      decreases todo
    {
      var a :| a in todo;
      total := (total + counts[a]) % SIZE_RANGE;
      tally := tally[a := counts[a]];
      todo := todo - {a};
    }
    assert IsTally(tally, counts);
  }

  /** The total is determined: only one multiset has these multiplicities. */
  lemma {:induction false} TallyUnique(counts: map<Ancestor, nat>, x: multiset<Ancestor>, y: multiset<Ancestor>)
    requires IsTally(x, counts) && IsTally(y, counts)
    ensures x == y
  {
    forall a ensures x[a] == y[a] {}
  }

  function GetDeduplicatedAncestry(counts: map<Ancestor, nat>): nat {
    |counts|
  }

  lemma {:induction false} SubsetOfEqualSize(x: multiset<Ancestor>, y: multiset<Ancestor>)
    requires x <= y
    ensures |x| <= |y|
    ensures |x| == |y| <==> x == y
  {
    assert y == x + (y - x);
    if |x| == |y| { assert y - x == multiset{}; }
  }

  /** The summed counters equal the number of visits exactly when no counter has wrapped. */
  lemma {:induction false} FullAncestryExact(visits: multiset<Ancestor>, tally: multiset<Ancestor>)
    requires IsTally(tally, CountsOf(visits))
    ensures |tally| <= |visits|
    ensures |tally| == |visits| <==> forall a :: a in visits ==> visits[a] < UINT_RANGE
  {
    forall a ensures tally[a] <= visits[a] {
      if a in visits { assert CountsOf(visits)[a] == visits[a] % UINT_RANGE; }
    }
    SubsetOfEqualSize(tally, visits);
    if forall a :: a in visits ==> visits[a] < UINT_RANGE {
      forall a ensures tally[a] == visits[a] {
        if a in visits { assert CountsOf(visits)[a] == visits[a]; }
      }
      assert tally == visits;
    }
    if tally == visits {
      forall a | a in visits ensures visits[a] < UINT_RANGE {
        assert CountsOf(visits)[a] == tally[a];
      }
    }
  }

  /** The 64-bit total is the number of visits exactly when no counter has wrapped and neither has the total. */
  lemma {:induction false} TotalExact(visits: multiset<Ancestor>, tally: multiset<Ancestor>, total: nat)
    requires IsTally(tally, CountsOf(visits)) && total == |tally| % SIZE_RANGE
    ensures total == |visits| <==> |visits| < SIZE_RANGE && forall a :: a in visits ==> visits[a] < UINT_RANGE
  {
    FullAncestryExact(visits, tally);
    hide IsTally, CountsOf;
  }

  // ----- The origin search, as loops -----

  method FindOutput(outs: seq<TxOut>, key: PublicKey) returns (r: KeySearch)
    ensures r == FindKey(outs, key)
  {
    for i := 0 to |outs|
      invariant FindKey(outs, key) == FindKey(outs[i..], key)
    {
      match outs[i] {
        case KeyOut(k) => if k == key { return Found; }
        case OtherOut => return BadOutput;
      }
    }
    r := Absent;
  }

  method FindOrigin(db: Db, m: Ancestor) returns (r: Option<Hash>)
    ensures r == Origin(db, m)
  {
    if m !in db.outputs || db.outputs[m].height >= |db.blocks| { return None; }
    var b, key := db.blocks[db.outputs[m].height], db.outputs[m].pubkey;
    var search := FindOutput(b.minerTx.vout, key);
    if search.Found? { return Some(b.minerTx.id); }
    if search.BadOutput? { return None; }
    for i := 0 to |b.txHashes|
      invariant Origin(db, m) == SearchTxs(db, b.txHashes[i..], key)
    {
      var txid := b.txHashes[i];
      if txid !in db.txs { return None; }
      search := FindOutput(db.txs[txid].vout, key);
      if search.Found? { return Some(txid); }
      if search.BadOutput? { return None; }
    }
    r := None;
  }

  // ----- One worklist step -----

  /** Visits to a still to be made below a list of pending transactions. */
  ghost function PendingCount(db: Db, ts: seq<Hash>, a: Ancestor): nat
    requires OriginsEarlier(db)
  {
    if ts == [] then 0 else PathCount(db, ts[0], a) + PendingCount(db, ts[1..], a)
  }

  /** A transaction's weight counts itself and everything it will put on the worklist. */
  ghost function WeightFrom(db: Db, t: Hash, i: nat): nat
    requires OriginsEarlier(db) && i <= |Members(db, t)|
    decreases Pos(db, t), |Members(db, t)| - i
  {
    if i == |Members(db, t)| then 1
    else
      var o := Origin(db, Members(db, t)[i]);
      (if o.Some? then WeightFrom(db, o.value, 0) else 0) + WeightFrom(db, t, i + 1)
  }

  ghost function Weight(db: Db, t: Hash): nat
    requires OriginsEarlier(db)
  {
    WeightFrom(db, t, 0)
  }

  ghost function PendingWeight(db: Db, ts: seq<Hash>): nat
    requires OriginsEarlier(db)
  {
    if ts == [] then 0 else Weight(db, ts[0]) + PendingWeight(db, ts[1..])
  }

  ghost predicate AllTraceable(db: Db, ts: seq<Hash>)
    requires OriginsEarlier(db)
  {
    ts == [] || (Traceable(db, ts[0]) && AllTraceable(db, ts[1..]))
  }

  lemma {:induction false} AllTraceableSnoc(db: Db, ts: seq<Hash>, o: Hash)
    requires OriginsEarlier(db)
    ensures AllTraceable(db, ts + [o]) <==> AllTraceable(db, ts) && Traceable(db, o)
  {
    if ts == [] {
      assert [o][1..] == [];
      assert ts + [o] == [o];
    } else {
      AllTraceableSnoc(db, ts[1..], o);
      assert (ts + [o])[1..] == ts[1..] + [o];
    }
  }

  lemma {:induction false} PendingCountSnoc(db: Db, ts: seq<Hash>, o: Hash, a: Ancestor)
    requires OriginsEarlier(db)
    ensures PendingCount(db, ts + [o], a) == PendingCount(db, ts, a) + PathCount(db, o, a)
  {
    if ts == [] {
      assert [o][1..] == [];
      assert ts + [o] == [o];
    } else {
      PendingCountSnoc(db, ts[1..], o, a);
      assert (ts + [o])[1..] == ts[1..] + [o];
    }
  }

  lemma {:induction false} PendingWeightSnoc(db: Db, ts: seq<Hash>, o: Hash)
    requires OriginsEarlier(db)
    ensures PendingWeight(db, ts + [o]) == PendingWeight(db, ts) + Weight(db, o)
  {
    if ts == [] {
      assert [o][1..] == [];
      assert ts + [o] == [o];
    } else {
      PendingWeightSnoc(db, ts[1..], o);
      assert (ts + [o])[1..] == ts[1..] + [o];
    }
  }

  // ----- The tracer -----

  /**
  The progress of a trace of `start` while ring members i, i+1, ... of t are still to be handled
  and `ts` waits on the worklist: visits made and visits to come always add up to the same counts,
  and so do transactions popped and weight to come.
  */
  ghost predicate Tracing(db: Db, start: Hash, t: Hash, i: nat, ts: seq<Hash>, visits: multiset<Ancestor>, popped: nat)
    requires OriginsEarlier(db)
  {
    && i <= |Members(db, t)|
    && (forall a :: visits[a] + CountFrom(db, t, i, a) + PendingCount(db, ts, a) == PathCount(db, start, a))
    && popped + WeightFrom(db, t, i) + PendingWeight(db, ts) == Weight(db, start) + 1
    && popped + |ts| == 1 + |visits|
  }

  /** Handling ring member i of t, whose origin is o: visit it and push o. */
  lemma {:induction false} TracingStep(db: Db, start: Hash, t: Hash, i: nat, ts: seq<Hash>,
        visits: multiset<Ancestor>, popped: nat, o: Hash)
    requires OriginsEarlier(db) && Tracing(db, start, t, i, ts, visits, popped)
    requires i < |Members(db, t)| && Origin(db, Members(db, t)[i]) == Some(o)
    ensures Tracing(db, start, t, i + 1, ts + [o], visits + multiset{Members(db, t)[i]}, popped)
  {
    var m := Members(db, t)[i];
    PendingWeightSnoc(db, ts, o);
    forall a ensures (visits + multiset{m})[a] + CountFrom(db, t, i + 1, a) + PendingCount(db, ts + [o], a)
                     == PathCount(db, start, a)
    {
      PendingCountSnoc(db, ts, o, a);
      assert visits[a] + CountFrom(db, t, i, a) + PendingCount(db, ts, a) == PathCount(db, start, a);
    }
  }

  /** The whole tracer state while one transaction is handled, with what it started from. */
  ghost predicate Handling(db: Db, start: Hash, t: Hash, i: nat, pending: seq<Hash>, ts: seq<Hash>,
                           counts: map<Ancestor, nat>, visits: multiset<Ancestor>, popped: nat)
    requires OriginsEarlier(db)
  {
    && Tracing(db, start, t, i, ts, visits, popped)
    && counts == CountsOf(visits)
    && (TraceableFrom(db, t, 0) && AllTraceable(db, pending) <==> TraceableFrom(db, t, i) && AllTraceable(db, ts))
  }

  lemma {:induction false} HandlingStep(db: Db, start: Hash, t: Hash, i: nat, pending: seq<Hash>, ts: seq<Hash>,
                     counts: map<Ancestor, nat>, visits: multiset<Ancestor>, popped: nat, o: Hash)
    requires OriginsEarlier(db) && Handling(db, start, t, i, pending, ts, counts, visits, popped)
    requires i < |Members(db, t)| && Origin(db, Members(db, t)[i]) == Some(o)
    ensures var m := Members(db, t)[i];
            Handling(db, start, t, i + 1, pending, ts + [o], AddAncestor(counts, m), visits + multiset{m}, popped)
  {
    TracingStep(db, start, t, i, ts, visits, popped, o);
    AllTraceableSnoc(db, ts, o);
    AddAncestorCounts(visits, Members(db, t)[i]);
  }

  /** Handles one ring: count each visit, find the origin, push it. */
  method TraceRing(db: Db, ghost start: Hash, txid: Hash, ring: Ring, ghost i0: nat, ghost pending: seq<Hash>,
                   txids0: seq<Hash>, counts0: map<Ancestor, nat>, ghost visits0: multiset<Ancestor>, ghost popped: nat)
    returns (ok: bool, txids: seq<Hash>, counts: map<Ancestor, nat>, ghost visits: multiset<Ancestor>)
    requires OriginsEarlier(db)
    requires Handling(db, start, txid, i0, pending, txids0, counts0, visits0, popped)
    requires RingAt(db, txid, i0, ring)
    ensures !ok ==> !(TraceableFrom(db, txid, 0) && AllTraceable(db, pending))
    ensures ok ==> Handling(db, start, txid, i0 + |ring.offsets|, pending, txids, counts, visits, popped)
  {
    hide Tracing, CountsOf;
    txids, counts, visits := txids0, counts0, visits0;
    for j := 0 to |ring.offsets|
      invariant Handling(db, start, txid, i0 + j, pending, txids, counts, visits, popped)
    {
      var m := Ancestor(ring.amount, ring.offsets[j]);
      assert m == Members(db, txid)[i0 + j];
      counts := AddAncestor(counts, m);
      var origin := FindOrigin(db, m);
      if origin.None? { return false, txids, counts, visits; }
      HandlingStep(db, start, txid, i0 + j, pending, txids, CountsOf(visits), visits, popped, origin.value);
      txids := txids + [origin.value];
      visits := visits + multiset{m};
    }
    ok := true;
  }

  /** vin lists exactly the members of t, ring by ring; ring k begins at member starts[k]. */
  ghost predicate ListsMembers(db: Db, t: Hash, vin: seq<TxIn>, starts: seq<nat>) {
    && |starts| == |vin| + 1
    && starts[0] == 0
    && starts[|vin|] == |Members(db, t)|
    && (forall k :: 0 <= k < |vin| ==> RingAt(db, t, starts[k], RingOf(vin[k])))
    && (forall k :: 0 <= k < |vin| ==> starts[k + 1] == starts[k] + |RingOf(vin[k]).offsets|)
  }

  /** Handles every input of one transaction; an input that is not a key input ends the trace. */
  method TraceInputs(db: Db, ghost start: Hash, txid: Hash, vin: seq<TxIn>, ghost starts: seq<nat>, pending: seq<Hash>,
                     counts0: map<Ancestor, nat>, ghost visits0: multiset<Ancestor>, ghost popped: nat)
    returns (ok: bool, txids: seq<Hash>, counts: map<Ancestor, nat>, ghost visits: multiset<Ancestor>)
    requires OriginsEarlier(db) && ListsMembers(db, txid, vin, starts)
    requires Handling(db, start, txid, 0, pending, pending, counts0, visits0, popped)
    ensures !ok ==> !(&& (forall k :: 0 <= k < |vin| ==> vin[k].ToKey?)
                      && TraceableFrom(db, txid, 0) && AllTraceable(db, pending))
    ensures ok ==> forall k :: 0 <= k < |vin| ==> vin[k].ToKey?
    ensures ok ==> Handling(db, start, txid, |Members(db, txid)|, pending, txids, counts, visits, popped)
  {
    txids, counts, visits := pending, counts0, visits0;
    ghost var i: nat := 0;
    for k := 0 to |vin|
      invariant i == starts[k]
      invariant Handling(db, start, txid, i, pending, txids, counts, visits, popped)
      invariant forall l :: 0 <= l < k ==> vin[l].ToKey?
    {
      if !vin[k].ToKey? { return false, txids, counts, visits; }
      var ring := RingOf(vin[k]);
      ok, txids, counts, visits := TraceRing(db, start, txid, ring, i, pending, txids, counts, visits, popped);
      if !ok { return; }
      i := i + |ring.offsets|;
    }
    ok := true;
  }

  lemma {:induction false} InputsListMembers(db: Db, t: Hash) returns (starts: seq<nat>)
    requires t in db.txs && !IsCoinbase(db.txs[t])
    ensures ListsMembers(db, t, db.txs[t].vin, starts)
  {
    var vin := db.txs[t].vin;
    starts := seq(|vin| + 1, k requires 0 <= k <= |vin| => FirstMember(vin, k));
    FirstMemberEnd(vin);
    assert FirstMember(vin, |vin|) == |Members(db, t)|;
    hide Members, RingAt;
    forall k | 0 <= k < |vin| ensures RingAt(db, t, starts[k], RingOf(vin[k])) {
      InputAt(db, t, k);
    }
  }

  /** At the loop head: nothing of a current transaction is left, only the worklist. */
  ghost predicate AtLoopHead(db: Db, start: Hash, ts: seq<Hash>, visits: multiset<Ancestor>, popped: nat)
    requires OriginsEarlier(db)
  {
    && (forall a :: visits[a] + PendingCount(db, ts, a) == PathCount(db, start, a))
    && popped + PendingWeight(db, ts) == Weight(db, start)
    && popped + |ts| == 1 + |visits|
  }

  /** Popping the front of the worklist makes it the current transaction, with all members to handle. */
  lemma {:induction false} PopFront(db: Db, start: Hash, ts: seq<Hash>, visits: multiset<Ancestor>, popped: nat)
    requires OriginsEarlier(db) && ts != [] && AtLoopHead(db, start, ts, visits, popped)
    ensures Tracing(db, start, ts[0], 0, ts[1..], visits, popped + 1)
  {
    forall a ensures visits[a] + CountFrom(db, ts[0], 0, a) + PendingCount(db, ts[1..], a) == PathCount(db, start, a) {
      assert visits[a] + PendingCount(db, ts, a) == PathCount(db, start, a);
    }
  }

  lemma {:induction false} BackToLoopHead(db: Db, start: Hash, t: Hash, ts: seq<Hash>, visits: multiset<Ancestor>,
        popped: nat)
    requires OriginsEarlier(db) && Tracing(db, start, t, |Members(db, t)|, ts, visits, popped)
    ensures AtLoopHead(db, start, ts, visits, popped)
  {
    forall a ensures visits[a] + PendingCount(db, ts, a) == PathCount(db, start, a) {
      assert CountFrom(db, t, |Members(db, t)|, a) == 0;
    }
  }

  lemma {:induction false} Finished(db: Db, start: Hash, counts: map<Ancestor, nat>, visits: multiset<Ancestor>,
        popped: nat)
    requires OriginsEarlier(db) && AtLoopHead(db, start, [], visits, popped) && counts == CountsOf(visits)
    ensures forall a :: visits[a] == PathCount(db, start, a)
    ensures forall a :: a in counts <==> PathCount(db, start, a) > 0
    ensures forall a :: a in counts ==> counts[a] == PathCount(db, start, a) % UINT_RANGE
    ensures popped == Weight(db, start) == 1 + |visits|
  {
    forall a ensures visits[a] == PathCount(db, start, a) {
      assert visits[a] + PendingCount(db, [], a) == PathCount(db, start, a);
    }
  }

  /**
  Traces one transaction back to coinbases.  It succeeds exactly when everything below the start
  can be resolved.  Then every ancestor has been visited once per path to it, its counter holds
  that number modulo the counter width, and the loop has popped one transaction id per unit of
  the start's weight.
  */
  method TraceBack(db: Db, start: Hash)
    returns (ok: bool, counts: map<Ancestor, nat>, ghost visits: multiset<Ancestor>, ghost popped: nat)
    requires OriginsEarlier(db)
    ensures ok <==> Traceable(db, start)
    ensures ok ==> forall a :: visits[a] == PathCount(db, start, a)
    ensures ok ==> forall a :: a in counts <==> PathCount(db, start, a) > 0
    ensures ok ==> forall a :: a in counts ==> counts[a] == PathCount(db, start, a) % UINT_RANGE
    ensures ok ==> counts == CountsOf(visits)
    ensures ok ==> popped == Weight(db, start) == 1 + |visits|
  {
    counts, visits, popped := map[], multiset{}, 0;
    var txids := [start];
    assert txids[1..] == [];
    while txids != []
      invariant counts == CountsOf(visits)
      invariant AtLoopHead(db, start, txids, visits, popped)
      invariant Traceable(db, start) <==> AllTraceable(db, txids)
      decreases PendingWeight(db, txids)
    {
      PopFront(db, start, txids, visits, popped);
      var txid := txids[0];
      txids := txids[1..];
      popped := popped + 1;
      if txid !in db.txs { return false, counts, visits, popped; }
      var tx := db.txs[txid];
      if !IsCoinbase(tx) {
        ghost var starts := InputsListMembers(db, txid);
        ok, txids, counts, visits := TraceInputs(db, start, txid, tx.vin, starts, txids, counts, visits, popped);
        if !ok { return; }
      }
      assert TraceableFrom(db, txid, |Members(db, txid)|);
      BackToLoopHead(db, start, txid, txids, visits, popped);
    }
    Finished(db, start, counts, visits, popped);
    ok := true;
  }
}
