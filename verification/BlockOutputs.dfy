/** How the output tables behave under add and remove, one transaction at a time. */
module BlockOutputs {
  import opened BlockTables

  /** Entry i of an amount list carries index i and points at a recorded creator. */
  ghost predicate Dense(o: Outputs, entries: seq<OutKey>) {
    forall i :: 0 <= i < |entries| ==> entries[i].amountIndex == i && entries[i].outputId in o.outputTxs
  }

  /** The ids in use are exactly 0, 1, ... */
  ghost predicate DenseIds<V>(m: map<nat, V>) {
    forall id: nat :: id in m <==> id < |m|
  }

  /** Output ids are 0, 1, ..., lists are dense and none is empty. */
  ghost predicate OutsOk(o: Outputs) {
    && DenseIds(o.outputTxs)
    && (forall a :: a in o.amounts ==> o.amounts[a] != [] && Dense(o, o.amounts[a]))
  }

  /** Nothing recorded before is lost or moved. */
  ghost predicate Grown(o: Outputs, later: Outputs) {
    && (forall id :: id in o.outputTxs ==> id in later.outputTxs && later.outputTxs[id] == o.outputTxs[id])
    && (forall a :: AmountList(o, a) <= AmountList(later, a))
  }

  /** Ids stay 0, 1, ... when the next one is used. */
  lemma {:induction false} NextId<V>(m: map<nat, V>, v: V)
    requires DenseIds(m)
    ensures DenseIds(m[|m| := v])
  {
    assert |m[|m| := v]| == |m| + 1;
  }

  /** What one addition does: one new id, one new last entry, nothing else. */
  lemma {:induction false} AddOutputShape(o: Outputs, txHash: Hash, out: TxOut, localIndex: nat, commitment: bool,
        height: nat)
    requires AddOutput(o, txHash, out, localIndex, commitment, height).Ok?
    ensures var next := AddOutput(o, txHash, out, localIndex, commitment, height).value;
            var id, entries := |o.outputTxs|, AmountList(o, out.amount);
            && out.target.KeyTarget?
            && next.outputTxs == o.outputTxs[id := OutTx(txHash, localIndex)]
            && AmountList(next, out.amount) == entries + [OutKey(|entries|, id, out.target.key, height)]
            && (forall a :: a != out.amount ==> AmountList(next, a) == AmountList(o, a))
            && (forall a :: a in next.amounts <==> a in o.amounts || a == out.amount)
  {}

  lemma {:induction false} AddOutputGrows(o: Outputs, txHash: Hash, out: TxOut, localIndex: nat, commitment: bool,
        height: nat)
    requires OutsOk(o) && AddOutput(o, txHash, out, localIndex, commitment, height).Ok?
    ensures var next := AddOutput(o, txHash, out, localIndex, commitment, height).value;
            && Grown(o, next)
            && ZeroOutputs(next) == ZeroOutputs(o) + if out.amount == 0 then 1 else 0
  {
    AddOutputShape(o, txHash, out, localIndex, commitment, height);
    hide AddOutput, AmountList, Dense;
  }

  lemma {:induction false} AddOutputDense(o: Outputs, txHash: Hash, out: TxOut, localIndex: nat, commitment: bool,
        height: nat, a: nat)
    requires OutsOk(o) && AddOutput(o, txHash, out, localIndex, commitment, height).Ok?
    ensures Dense(AddOutput(o, txHash, out, localIndex, commitment, height).value,
                  AmountList(AddOutput(o, txHash, out, localIndex, commitment, height).value, a))
  {
    AddOutputShape(o, txHash, out, localIndex, commitment, height);
    assert Dense(o, AmountList(o, a));
    hide AddOutput, OutsOk, AmountList;
  }

  lemma {:induction false} AddOutputKeeps(o: Outputs, txHash: Hash, out: TxOut, localIndex: nat, commitment: bool,
        height: nat)
    requires OutsOk(o) && AddOutput(o, txHash, out, localIndex, commitment, height).Ok?
    ensures OutsOk(AddOutput(o, txHash, out, localIndex, commitment, height).value)
  {
    AddOutputShape(o, txHash, out, localIndex, commitment, height);
    var next := AddOutput(o, txHash, out, localIndex, commitment, height).value;
    NextId(o.outputTxs, OutTx(txHash, localIndex));
    hide AddOutput, Dense;
    forall a | a in next.amounts ensures next.amounts[a] != [] && Dense(next, next.amounts[a]) {
      AddOutputDense(o, txHash, out, localIndex, commitment, height, a);
    }
  }

  lemma {:induction false} FindLastEntry(entries: seq<OutKey>, last: OutKey)
    requires forall i :: 0 <= i < |entries| ==> entries[i].amountIndex != last.amountIndex
    ensures FindEntry(entries + [last], last.amountIndex) == |entries|
  {
    if entries != [] {
      FindLastEntry(entries[1..], last);
      assert (entries + [last])[1..] == entries[1..] + [last];
    }
  }

  /** Removing what was just added restores the tables. */
  lemma {:induction false} AddThenRemoveOutput(o: Outputs, txHash: Hash, out: TxOut, localIndex: nat,
        commitment: bool, height: nat)
    requires OutsOk(o) && AddOutput(o, txHash, out, localIndex, commitment, height).Ok?
    ensures var next := AddOutput(o, txHash, out, localIndex, commitment, height).value;
            RemoveOutput(next, out.amount, |AmountList(o, out.amount)|) == Ok(o)
  {
    var next := AddOutput(o, txHash, out, localIndex, commitment, height).value;
    var entries, id := AmountList(o, out.amount), |o.outputTxs|;
    AddOutputShape(o, txHash, out, localIndex, commitment, height);
    AmountsRestored(o, next, txHash, out, localIndex, commitment, height);
    var last := OutKey(|entries|, id, out.target.key, height);
    assert Dense(o, entries) && id !in o.outputTxs;
    FindLastEntry(entries, last);
    assert (entries + [last])[..|entries|] + (entries + [last])[|entries| + 1..] == entries;
    assert next.outputTxs - {id} == o.outputTxs;
    hide AddOutput, FindEntry, Dense, OutsOk, SetAmountList, AmountList;
  }

  /** Putting the old list back gives the old table, also where there was no list. */
  lemma {:induction false} AmountsRestored(o: Outputs, next: Outputs, txHash: Hash, out: TxOut, localIndex: nat,
        commitment: bool, height: nat)
    requires OutsOk(o) && AddOutput(o, txHash, out, localIndex, commitment, height) == Ok(next)
    ensures SetAmountList(next, out.amount, AmountList(o, out.amount)) == o.amounts
  {
    hide Dense, DenseIds;
  }

  lemma {:induction false} GrownTransitive(o: Outputs, mid: Outputs, later: Outputs)
    requires Grown(o, mid) && Grown(mid, later)
    ensures Grown(o, later)
  {
    forall a ensures AmountList(o, a) <= AmountList(later, a) {
      assert AmountList(o, a) <= AmountList(mid, a) <= AmountList(later, a);
    }
  }

  lemma {:induction false} GrownReflexive(o: Outputs)
    ensures Grown(o, o)
  {}

  lemma {:induction false} AddOutputsKeeps(o: Outputs, txHash: Hash, tx: Transaction, n: nat, height: nat)
    requires n <= |tx.vout| && OutsOk(o) && AddOutputs(o, txHash, tx, n, height).Ok?
    ensures var next := AddOutputs(o, txHash, tx, n, height).value;
            OutsOk(next) && Grown(o, next)
  {
    hide OutsOk, Grown, AddOutput;
    if n == 0 {
      GrownReflexive(o);
    } else {
      AddOutputsKeeps(o, txHash, tx, n - 1, height);
      var mid := AddOutputs(o, txHash, tx, n - 1, height).value;
      AddOutputKeeps(mid, txHash, StoredOut(tx, n - 1), n - 1, HasCommitments(tx), height);
      AddOutputGrows(mid, txHash, StoredOut(tx, n - 1), n - 1, HasCommitments(tx), height);
      GrownTransitive(o, mid, AddOutputs(o, txHash, tx, n, height).value);
    }
  }

  // ----- When removal looks where addition stored -----

  /** Removal uses the amount list that addition used, output by output. */
  predicate AmountsAgree(tx: Transaction) {
    StoredAsZero(tx) == RemovedAsZero(tx) || forall i :: 0 <= i < |tx.vout| ==> tx.vout[i].amount == 0
  }

  lemma {:induction false} AmountsAgreePointwise(tx: Transaction)
    ensures AmountsAgree(tx) <==> forall i :: 0 <= i < |tx.vout| ==> StoredOut(tx, i).amount == RemovedAmount(tx, i)
  {
    if forall i :: 0 <= i < |tx.vout| ==> StoredOut(tx, i).amount == RemovedAmount(tx, i) {
      forall i | 0 <= i < |tx.vout| && StoredAsZero(tx) != RemovedAsZero(tx) ensures tx.vout[i].amount == 0 {
        assert StoredOut(tx, i).amount == RemovedAmount(tx, i);
      }
    }
  }

  /** The outputs i, i+1, ..., of a transaction all come off the tail of their list, newest first. */
  lemma {:induction false} AddThenRemoveOutputs(o: Outputs, txHash: Hash, tx: Transaction, n: nat, height: nat,
        indices: seq<nat>)
    requires n <= |tx.vout| && OutsOk(o) && AddOutputs(o, txHash, tx, n, height).Ok?
    requires AmountsAgree(tx) && OutputIndices(o, txHash, tx, n, height) <= indices
    ensures RemoveOutputs(AddOutputs(o, txHash, tx, n, height).value, tx, indices, n) == Ok(o)
  {
    hide AddOutput, RemoveOutput, OutsOk, AmountsAgree, AmountList;
    if n > 0 {
      var mid := AddOutputs(o, txHash, tx, n - 1, height).value;
      AddOutputsKeeps(o, txHash, tx, n - 1, height);
      AmountsAgreePointwise(tx);
      assert OutputIndices(o, txHash, tx, n, height)[..n - 1] == OutputIndices(o, txHash, tx, n - 1, height);
      assert indices[n - 1] == OutputIndices(o, txHash, tx, n, height)[n - 1];
      AddThenRemoveOutput(mid, txHash, StoredOut(tx, n - 1), n - 1, HasCommitments(tx), height);
      var last := AddOutputs(o, txHash, tx, n, height).value;
      assert RemoveOutput(last, RemovedAmount(tx, n - 1), indices[n - 1]) == Ok(mid);
      assert RemoveOutputs(last, tx, indices, n) == RemoveOutputs(mid, tx, indices, n - 1);
      AddThenRemoveOutputs(o, txHash, tx, n - 1, height, indices);
    }
  }

  /**
  While the outputs of a transaction are removed from the tables they were just added to, every
  removal, at every stage n, deletes the last entry of its list.
  */
  lemma {:induction false} RemovalHitsTail(o: Outputs, txHash: Hash, tx: Transaction, n: nat, height: nat)
    requires 0 < n <= |tx.vout| && OutsOk(o) && AddOutputs(o, txHash, tx, n, height).Ok? && AmountsAgree(tx)
    ensures var entries := AmountList(AddOutputs(o, txHash, tx, n, height).value, RemovedAmount(tx, n - 1));
            var index := OutputIndices(o, txHash, tx, n, height)[n - 1];
            index == |entries| - 1 && FindEntry(entries, index) == |entries| - 1
  {
    var mid := AddOutputs(o, txHash, tx, n - 1, height).value;
    AddOutputsKeeps(o, txHash, tx, n - 1, height);
    AmountsAgreePointwise(tx);
    var out := StoredOut(tx, n - 1);
    var before := AmountList(mid, out.amount);
    var last := OutKey(|before|, |mid.outputTxs|, out.target.key, height);
    assert Dense(mid, before);
    FindLastEntry(before, last);
  }

  // ----- Where a transaction's outputs end up -----

  /** Output i of the transaction stands in its amount list at the given index. */
  ghost predicate OutputAt(o: Outputs, hash: Hash, tx: Transaction, i: nat, index: nat)
    requires i < |tx.vout|
  {
    var entries := AmountList(o, StoredOut(tx, i).amount);
    && index < |entries|
    && entries[index].outputId in o.outputTxs
    && o.outputTxs[entries[index].outputId] == OutTx(hash, i)
    && tx.vout[i].target == KeyTarget(entries[index].key)
  }

  lemma {:induction false} OutputAtGrown(o: Outputs, later: Outputs, hash: Hash, tx: Transaction, i: nat, index: nat)
    requires i < |tx.vout| && OutputAt(o, hash, tx, i, index) && Grown(o, later)
    ensures OutputAt(later, hash, tx, i, index)
  {
    var a := StoredOut(tx, i).amount;
    assert AmountList(o, a) <= AmountList(later, a);
  }

  lemma {:induction false} LastOutputLands(o: Outputs, hash: Hash, tx: Transaction, i: nat, height: nat)
    requires i < |tx.vout| && AddOutput(o, hash, StoredOut(tx, i), i, HasCommitments(tx), height).Ok?
    ensures OutputAt(AddOutput(o, hash, StoredOut(tx, i), i, HasCommitments(tx), height).value, hash, tx, i,
                     |AmountList(o, StoredOut(tx, i).amount)|)
  {
    AddOutputShape(o, hash, StoredOut(tx, i), i, HasCommitments(tx), height);
    hide AddOutput;
  }

  lemma {:induction false} OutputsLand(o: Outputs, hash: Hash, tx: Transaction, n: nat, height: nat, i: nat)
    requires i < n <= |tx.vout| && OutsOk(o) && AddOutputs(o, hash, tx, n, height).Ok?
    ensures OutputAt(AddOutputs(o, hash, tx, n, height).value, hash, tx, i, OutputIndices(o, hash, tx, n, height)[i])
    decreases n
  {
    var mid := AddOutputs(o, hash, tx, n - 1, height).value;
    hide AddOutput, OutsOk, OutputAt, Grown;
    if i < n - 1 {
      AddOutputsKeeps(o, hash, tx, n - 1, height);
      AddOutputGrows(mid, hash, StoredOut(tx, n - 1), n - 1, HasCommitments(tx), height);
      OutputsLand(o, hash, tx, n - 1, height, i);
      var next := AddOutputs(o, hash, tx, n, height).value;
      OutputAtGrown(mid, next, hash, tx, i, OutputIndices(o, hash, tx, n - 1, height)[i]);
    } else {
      LastOutputLands(mid, hash, tx, i, height);
    }
  }

  // ----- Growth and shrinkage of the amount-0 list -----

  function ZeroOutputs(o: Outputs): nat {
    |AmountList(o, 0)|
  }

  /** How many of the first n outputs addition lists under amount 0. */
  function StoredZero(tx: Transaction, n: nat): nat
    requires n <= |tx.vout|
  {
    if StoredAsZero(tx) then n else CountZero(tx.vout[..n])
  }

  function RemovedZero(tx: Transaction, n: nat): nat
    requires n <= |tx.vout|
  {
    if RemovedAsZero(tx) then n else CountZero(tx.vout[..n])
  }

  lemma {:induction false} CountZeroStep(vout: seq<TxOut>, n: nat)
    requires 0 < n <= |vout|
    ensures CountZero(vout[..n]) == CountZero(vout[..n - 1]) + if vout[n - 1].amount == 0 then 1 else 0
  {
    assert vout[..n][..n - 1] == vout[..n - 1];
  }

  lemma {:induction false} AddOutputsZero(o: Outputs, hash: Hash, tx: Transaction, n: nat, height: nat)
    requires n <= |tx.vout| && OutsOk(o) && AddOutputs(o, hash, tx, n, height).Ok?
    ensures ZeroOutputs(AddOutputs(o, hash, tx, n, height).value) == ZeroOutputs(o) + StoredZero(tx, n)
  {
    if n > 0 {
      AddOutputsZero(o, hash, tx, n - 1, height);
      AddOutputsKeeps(o, hash, tx, n - 1, height);
      var mid := AddOutputs(o, hash, tx, n - 1, height).value;
      AddOutputGrows(mid, hash, StoredOut(tx, n - 1), n - 1, HasCommitments(tx), height);
      CountZeroStep(tx.vout, n);
    }
  }

  lemma {:induction false} RemoveOutputZero(o: Outputs, a: nat, index: nat)
    requires RemoveOutput(o, a, index).Ok?
    ensures ZeroOutputs(RemoveOutput(o, a, index).value) + (if a == 0 then 1 else 0) == ZeroOutputs(o)
  {
    hide FindEntry;
  }

  lemma {:induction false} RemoveOutputsZero(o: Outputs, tx: Transaction, indices: seq<nat>, n: nat)
    requires n <= |tx.vout| && RemoveOutputs(o, tx, indices, n).Ok?
    ensures ZeroOutputs(RemoveOutputs(o, tx, indices, n).value) + RemovedZero(tx, n) == ZeroOutputs(o)
    decreases n
  {
    hide RemoveOutput, ZeroOutputs;
    if n > 0 {
      CountZeroStep(tx.vout, n);
      RemoveOutputZero(o, RemovedAmount(tx, n - 1), indices[n - 1]);
      RemoveOutputsZero(RemoveOutput(o, RemovedAmount(tx, n - 1), indices[n - 1]).value, tx, indices, n - 1);
    }
  }

  lemma {:induction false} CountZeroAllZero(vout: seq<TxOut>)
    ensures CountZero(vout) <= |vout|
    ensures CountZero(vout) == |vout| <==> forall i :: 0 <= i < |vout| ==> vout[i].amount == 0
    ensures CountZero(vout) == 0 <==> forall i :: 0 <= i < |vout| ==> vout[i].amount != 0
  {
    if vout != [] {
      var front := vout[..|vout| - 1];
      CountZeroAllZero(front);
      assert forall i :: 0 <= i < |front| ==> vout[i] == front[i];
      assert vout == front + [vout[|vout| - 1]];
    }
  }
}
