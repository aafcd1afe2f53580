/** Invariants of the block tables, and pop as the inverse of add. */
module BlockTheorems {
  import opened Wrappers
  import opened BlockTables
  import opened BlockOutputs

  // ----- Key images -----

  /** Key images of inputs i, i+1, ... in order. */
  function ImageList(vin: seq<TxIn>, i: nat): seq<KeyImage>
    requires i <= |vin|
    decreases |vin| - i
  {
    if i == |vin| then []
    else (if vin[i].ToKey? then [vin[i].image] else []) + ImageList(vin, i + 1)
  }

  ghost function Elements<T>(s: seq<T>): set<T> {
    set x | x in s
  }

  ghost predicate Distinct<T>(s: seq<T>) {
    forall i, j :: 0 <= i < j < |s| ==> s[i] != s[j]
  }

  lemma {:induction false} DistinctSnoc(images: seq<KeyImage>, k: KeyImage)
    requires Distinct(images) && k !in Elements(images)
    ensures Distinct(images + [k]) && Elements(images + [k]) == Elements(images) + {k}
  {}

  lemma {:induction false} ImageListStep(images: seq<KeyImage>, vin: seq<TxIn>, i: nat)
    requires i < |vin|
    ensures images + ImageList(vin, i)
            == (if vin[i].ToKey? then images + [vin[i].image] else images) + ImageList(vin, i + 1)
  {}

  /** Inputs that are all accepted were new: the spent images stay a list without repetition. */
  lemma {:induction false} AddInputsDistinct(images: seq<KeyImage>, vin: seq<TxIn>, i: nat)
    requires i <= |vin| && Distinct(images) && AddInputs(Elements(images), vin, i).Added?
    ensures Distinct(images + ImageList(vin, i))
    ensures AddInputs(Elements(images), vin, i).spent == Elements(images + ImageList(vin, i))
    decreases |vin| - i
  {
    if i == |vin| {
      assert images + ImageList(vin, i) == images;
    } else {
      hide Distinct, Elements, ImageList;
      ImageListStep(images, vin, i);
      if vin[i].ToKey? {
        DistinctSnoc(images, vin[i].image);
        AddInputsDistinct(images + [vin[i].image], vin, i + 1);
      } else {
        AddInputsDistinct(images, vin, i + 1);
      }
    }
  }

  lemma {:induction false} AddInputsResult(spent: set<KeyImage>, vin: seq<TxIn>, i: nat)
    requires i <= |vin|
    ensures var r := AddInputs(spent, vin, i);
            && (r.Added? ==> SupportedInputs(vin[i..]) && r.spent - Images(vin) == spent - Images(vin))
            && (r.Added? ==> forall j :: i <= j < |vin| && vin[j].ToKey? ==> vin[j].image !in spent)
            && (r.Aborted? ==> !SupportedInputs(vin[i..]) && r.spent == spent - Images(vin))
            && (!r.Aborted? ==> spent <= r.spent)
    decreases |vin| - i
  {
    if i < |vin| {
      assert vin[i..] == [vin[i]] + vin[i + 1..];
      if vin[i].ToKey? {
        assert vin[i].image in Images(vin);
        AddInputsResult(spent + {vin[i].image}, vin, i + 1);
      } else if vin[i].Gen? {
        AddInputsResult(spent, vin, i + 1);
      }
    }
  }

  /** Accepted inputs can be taken back exactly; it happens only when all inputs are supported. */
  lemma {:induction false} AddInputsInverse(spent: set<KeyImage>, vin: seq<TxIn>)
    ensures AddInputs(spent, vin, 0).Added? ==>
              SupportedInputs(vin) && AddInputs(spent, vin, 0).spent - Images(vin) == spent
    ensures AddInputs(spent, vin, 0).Aborted? ==> !SupportedInputs(vin)
  {
    AddInputsResult(spent, vin, 0);
    assert vin[0..] == vin;
    if AddInputs(spent, vin, 0).Added? {
      forall k | k in Images(vin) ensures k !in spent {
        var j :| 0 <= j < |vin| && vin[j].ToKey? && vin[j].image == k;
      }
    }
  }

  /** The key images in front of the first unsupported input, from input i on. */
  function Leading(vin: seq<TxIn>, i: nat): seq<KeyImage>
    requires i <= |vin|
    decreases |vin| - i
  {
    if i == |vin| || vin[i].OtherIn? then []
    else (if vin[i].ToKey? then [vin[i].image] else []) + Leading(vin, i + 1)
  }

  lemma {:induction false} DistinctCons(k: KeyImage, images: seq<KeyImage>, spent: set<KeyImage>)
    requires k !in spent
    ensures Distinct([k] + images) && Elements([k] + images) !! spent
       <==> Distinct(images) && Elements(images) !! (spent + {k})
  {
    var all := [k] + images;
    assert forall i :: 0 <= i < |images| ==> all[i + 1] == images[i];
    assert all[0] == k;
    if Distinct(all) && Elements(all) !! spent {
      forall x | x in Elements(images) ensures x !in spent + {k} {
        assert x in Elements(all);
      }
    }
  }

  /** The loop clashes exactly when an image in front of the first unsupported input is spent or repeated. */
  lemma {:induction false} ClashIff(spent: set<KeyImage>, vin: seq<TxIn>, i: nat)
    requires i <= |vin|
    ensures AddInputs(spent, vin, i).Clash? <==> !(Distinct(Leading(vin, i)) && Elements(Leading(vin, i)) !! spent)
    decreases |vin| - i
  {
    if i < |vin| && !vin[i].OtherIn? {
      if vin[i].ToKey? {
        var k := vin[i].image;
        if k in spent {
          assert Leading(vin, i)[0] == k;
          assert k in Elements(Leading(vin, i));
        } else {
          ClashIff(spent + {k}, vin, i + 1);
          DistinctCons(k, Leading(vin, i + 1), spent);
        }
      } else {
        ClashIff(spent, vin, i + 1);
        assert Leading(vin, i) == Leading(vin, i + 1);
      }
    }
  }

  lemma {:induction false} LeadingAreImages(vin: seq<TxIn>, i: nat)
    requires i <= |vin|
    ensures Elements(Leading(vin, i)) <= Images(vin)
    decreases |vin| - i
  {
    if i < |vin| && !vin[i].OtherIn? {
      LeadingAreImages(vin, i + 1);
      forall k | k in Elements(Leading(vin, i)) ensures k in Images(vin) {
        if k !in Elements(Leading(vin, i + 1)) { assert vin[i].image == k; }
      }
    }
  }

  /**
  A transaction with an unsupported input, at any position: it is let through exactly when the
  images in front of that input are distinct and unspent; it then adds nothing and may erase other
  transactions' key images.  It leaves no trace exactly when none of its images was spent.
  */
  lemma {:induction false} AbortLeavesNoTrace(t: Tables, hash: Hash, tx: Transaction)
    requires !SupportedInputs(tx.vin)
    ensures var r, images := AddTransaction(t, hash, tx), Leading(tx.vin, 0);
            && (r.Ok? <==> Distinct(images) && Elements(images) !! t.spent)
            && (r.Ok? ==> r.value == t.(spent := t.spent - Images(tx.vin)))
            && (r == Ok(t) <==> Distinct(images) && Images(tx.vin) !! t.spent)
  {
    AddInputsResult(t.spent, tx.vin, 0);
    assert tx.vin[0..] == tx.vin;
    ClashIff(t.spent, tx.vin, 0);
    LeadingAreImages(tx.vin, 0);
    hide Leading, Distinct, Elements, AddOutputs, OutputIndices;
    if Images(tx.vin) !! t.spent {
      assert t.spent - Images(tx.vin) == t.spent && Elements(Leading(tx.vin, 0)) !! t.spent;
    }
    if AddTransaction(t, hash, tx) == Ok(t) {
      forall k | k in Images(tx.vin) ensures k !in t.spent {
        assert k !in AddTransaction(t, hash, tx).value.spent;
      }
    }
  }

  /** What supported inputs leave of the spent set, told by their first key image. */
  lemma {:induction false} FirstImage(spent: set<KeyImage>, vin: seq<TxIn>, i: nat)
    requires i <= |vin| && SupportedInputs(vin)
    ensures var r, images := AddInputs(spent, vin, i), ImageList(vin, i);
            && !r.Aborted?
            && (images == [] ==> r == Added(spent))
            && (images != [] && images[0] in spent ==> r == Clash(spent))
            && (images != [] && images[0] !in spent ==> images[0] in r.spent)
    decreases |vin| - i
  {
    if i < |vin| {
      AddInputsResult(spent, vin, i);
      assert vin[i] in vin;
      if vin[i].ToKey? {
        assert ImageList(vin, i)[0] == vin[i].image;
        AddInputsResult(spent + {vin[i].image}, vin, i + 1);
        FirstImage(spent + {vin[i].image}, vin, i + 1);
      } else {
        FirstImage(spent, vin, i + 1);
        assert ImageList(vin, i) == ImageList(vin, i + 1);
      }
    }
  }

  // ----- Table invariants -----

  /** The stored transaction's recorded indices point at its own outputs. */
  ghost predicate Recorded(t: Tables, hash: Hash)
    requires hash in t.index
  {
    var id := t.index[hash].txId;
    && id in t.txs && id in t.txOutputs
    && |t.txOutputs[id]| == |t.txs[id].vout|
    && forall i :: 0 <= i < |t.txs[id].vout| ==> OutputAt(t.outs, hash, t.txs[id], i, t.txOutputs[id][i])
  }

  ghost predicate TablesOk(t: Tables) {
    && OutsOk(t.outs)
    && DenseIds(t.txs)
    && t.txOutputs.Keys == t.txs.Keys
    && |t.info| == |t.blocks|
    && (forall hash :: hash in t.index ==> Recorded(t, hash))
  }

  lemma {:induction false} AddTransactionKeeps(t: Tables, hash: Hash, tx: Transaction)
    requires TablesOk(t) && AddTransaction(t, hash, tx).Ok?
    ensures TablesOk(AddTransaction(t, hash, tx).value)
  {
    var next := AddTransaction(t, hash, tx).value;
    if AddInputs(t.spent, tx.vin, 0).Added? {
      StoreKeeps(t, hash, tx, next);
    } else {
      forall h | h in next.index ensures Recorded(next, h) {
        assert Recorded(t, h);
      }
    }
  }

  /** The tables that storing a transaction's data and outputs gives, spent images aside. */
  ghost predicate Stored(t: Tables, hash: Hash, tx: Transaction, next: Tables) {
    var id, height, n := |t.txs|, |t.blocks|, |tx.vout|;
    && AddOutputs(t.outs, hash, tx, n, height) == Ok(next.outs)
    && next.txs == t.txs[id := tx]
    && next.txOutputs == t.txOutputs[id := OutputIndices(t.outs, hash, tx, n, height)]
    && hash !in t.index && next.index == t.index[hash := TxIndex(id, height)]
    && next.blocks == t.blocks && next.info == t.info && next.heights == t.heights
  }

  lemma {:induction false} StoredRecorded(t: Tables, hash: Hash, tx: Transaction, next: Tables, h: Hash)
    requires TablesOk(t) && Stored(t, hash, tx, next) && h in next.index
    ensures Recorded(next, h)
  {
    var id, height, n := |t.txs|, |t.blocks|, |tx.vout|;
    hide OutsOk, OutputAt, Grown;
    if h == hash {
      forall i | 0 <= i < n ensures OutputAt(next.outs, hash, tx, i, next.txOutputs[id][i]) {
        OutputsLand(t.outs, hash, tx, n, height, i);
      }
    } else {
      assert Recorded(t, h);
      AddOutputsKeeps(t.outs, hash, tx, n, height);
      RecordedGrown(t, next, h);
    }
  }

  lemma {:induction false} StoreKeeps(t: Tables, hash: Hash, tx: Transaction, next: Tables)
    requires TablesOk(t) && Stored(t, hash, tx, next)
    ensures TablesOk(next)
  {
    hide OutsOk, Grown, Recorded, AddOutputs, OutputIndices;
    AddOutputsKeeps(t.outs, hash, tx, |tx.vout|, |t.blocks|);
    NextId(t.txs, tx);
    assert next.txOutputs.Keys == next.txs.Keys;
    forall h | h in next.index ensures Recorded(next, h) {
      StoredRecorded(t, hash, tx, next, h);
    }
  }

  lemma {:induction false} RecordedGrown(t: Tables, later: Tables, hash: Hash)
    requires hash in t.index && Recorded(t, hash) && Grown(t.outs, later.outs)
    requires hash in later.index && later.index[hash] == t.index[hash]
    requires var id := t.index[hash].txId;
             && id in later.txs && later.txs[id] == t.txs[id]
             && id in later.txOutputs && later.txOutputs[id] == t.txOutputs[id]
    ensures Recorded(later, hash)
  {
    var id := t.index[hash].txId;
    forall i | 0 <= i < |t.txs[id].vout| ensures OutputAt(later.outs, hash, t.txs[id], i, t.txOutputs[id][i]) {
      OutputAtGrown(t.outs, later.outs, hash, t.txs[id], i, t.txOutputs[id][i]);
    }
  }

  // ----- What is accepted -----

  /** Only key outputs, and in version 1 none without an amount. */
  predicate GoodOutputs(tx: Transaction) {
    forall i :: 0 <= i < |tx.vout| ==> GoodOutput(tx, i)
  }

  predicate GoodOutput(tx: Transaction, i: nat)
    requires i < |tx.vout|
  {
    tx.vout[i].target.KeyTarget? && (tx.version == 1 ==> tx.vout[i].amount != 0)
  }

  /** The first n outputs are stored exactly when they are good. */
  lemma {:induction false} OutputsAcceptedIff(o: Outputs, hash: Hash, tx: Transaction, n: nat, height: nat)
    requires n <= |tx.vout| && (tx.version == 1 || tx.version == 2)
    ensures AddOutputs(o, hash, tx, n, height).Ok? <==> forall i :: 0 <= i < n ==> GoodOutput(tx, i)
  {
    if n > 0 {
      OutputsAcceptedIff(o, hash, tx, n - 1, height);
      if AddOutputs(o, hash, tx, n - 1, height).Ok? {
        var mid := AddOutputs(o, hash, tx, n - 1, height).value;
        var next := AddOutput(mid, hash, StoredOut(tx, n - 1), n - 1, HasCommitments(tx), height);
        assert next.Ok? <==> GoodOutput(tx, n - 1);
      }
      hide GoodOutput, AddOutput;
    }
  }

  /** A transaction of a known version with new key images, a new hash and good outputs is stored. */
  lemma {:induction false} Accepted(t: Tables, hash: Hash, tx: Transaction)
    requires Storable(tx) && GoodOutputs(tx) && hash !in t.index && AddInputs(t.spent, tx.vin, 0).Added?
    ensures var r := AddTransaction(t, hash, tx);
            && r.Ok?
            && r.value.index == t.index[hash := TxIndex(|t.txs|, |t.blocks|)]
            && r.value.txs == t.txs[|t.txs| := tx]
            && r.value.spent == AddInputs(t.spent, tx.vin, 0).spent
            && AddOutputs(t.outs, hash, tx, |tx.vout|, |t.blocks|) == Ok(r.value.outs)
            && r.value.blocks == t.blocks && r.value.info == t.info && r.value.heights == t.heights
  {
    OutputsAcceptedIff(t.outs, hash, tx, |tx.vout|, |t.blocks|);
    hide AddInputs, AddOutputs, OutputIndices;
  }

  lemma {:induction false} LeadingIsAll(vin: seq<TxIn>, i: nat)
    requires i <= |vin| && SupportedInputs(vin)
    ensures Leading(vin, i) == ImageList(vin, i)
    decreases |vin| - i
  {
    if i < |vin| {
      assert vin[i] in vin;
      LeadingIsAll(vin, i + 1);
    }
  }

  lemma {:induction false} AddedUnion(spent: set<KeyImage>, vin: seq<TxIn>, i: nat)
    requires i <= |vin| && AddInputs(spent, vin, i).Added?
    ensures AddInputs(spent, vin, i).spent == spent + Elements(ImageList(vin, i))
    decreases |vin| - i
  {
    if i < |vin| {
      var rest := ImageList(vin, i + 1);
      if vin[i].ToKey? {
        var k := vin[i].image;
        AddedUnion(spent + {k}, vin, i + 1);
        assert Elements([k] + rest) == {k} + Elements(rest);
      } else {
        AddedUnion(spent, vin, i + 1);
        assert [] + rest == rest;
      }
    }
  }

  /**
  A transaction with supported inputs is stored exactly when its key images are distinct and
  unspent, its hash is new, its version is 1 or 2 and its outputs are good.  The first of these
  tests that fails names the error.
  */
  lemma {:induction false} AddTransactionIff(t: Tables, hash: Hash, tx: Transaction)
    requires SupportedInputs(tx.vin)
    ensures var r, images := AddTransaction(t, hash, tx), ImageList(tx.vin, 0);
            var unspent := Distinct(images) && Elements(images) !! t.spent;
            var known := tx.version == 1 || tx.version == 2;
            && (r.Ok? <==> unspent && hash !in t.index && known && GoodOutputs(tx))
            && (!unspent ==> r.Throw? && r.error == KeyImageExists)
            && (unspent && hash in t.index ==> r.Throw? && r.error == TxExists)
            && (unspent && hash !in t.index && !known ==> r.Throw? && r.error == NotSerialized)
            && (r.Ok? ==> r.value.index.Keys == t.index.Keys + {hash} && r.value.spent == t.spent + Elements(images))
  {
    hide AddTransaction, AddInputs, AddOutputs, Distinct, Elements, ImageList, GoodOutput, SupportedInputs;
    InputsIff(t.spent, tx.vin);
    AfterInputs(t, hash, tx);
    if AddInputs(t.spent, tx.vin, 0).Added? && AddTransaction(t, hash, tx).Ok? { AddedKeys(t, hash, tx); }
    if tx.version == 1 || tx.version == 2 { OutputsAcceptedIff(t.outs, hash, tx, |tx.vout|, |t.blocks|); }
  }

  lemma {:induction false} AfterInputs(t: Tables, hash: Hash, tx: Transaction)
    ensures var r, inputs := AddTransaction(t, hash, tx), AddInputs(t.spent, tx.vin, 0);
            && (inputs.Clash? ==> r.Throw? && r.error == KeyImageExists)
            && (inputs.Added? && hash in t.index ==> r.Throw? && r.error == TxExists)
            && (inputs.Added? && hash !in t.index && !Storable(tx) ==> r.Throw? && r.error == NotSerialized)
            && (inputs.Added? && hash !in t.index && Storable(tx) ==>
                  (r.Ok? <==> AddOutputs(t.outs, hash, tx, |tx.vout|, |t.blocks|).Ok?))
  {
    hide AddInputs, AddOutputs, OutputIndices, Storable;
  }

  lemma {:induction false} AddedIndex(t: Tables, hash: Hash, tx: Transaction)
    requires AddInputs(t.spent, tx.vin, 0).Added? && AddTransaction(t, hash, tx).Ok?
    ensures var next := AddTransaction(t, hash, tx).value;
            && next.index == t.index[hash := TxIndex(|t.txs|, |t.blocks|)]
            && next.spent == AddInputs(t.spent, tx.vin, 0).spent
  {
    hide AddInputs, AddOutputs, OutputIndices, Storable;
  }

  lemma {:induction false} KeysAfterPut<K, V>(m: map<K, V>, k: K, v: V)
    ensures m[k := v].Keys == m.Keys + {k}
  {}

  lemma {:induction false} AddedKeys(t: Tables, hash: Hash, tx: Transaction)
    requires AddInputs(t.spent, tx.vin, 0).Added? && AddTransaction(t, hash, tx).Ok?
    ensures var next := AddTransaction(t, hash, tx).value;
            next.index.Keys == t.index.Keys + {hash} && next.spent == AddInputs(t.spent, tx.vin, 0).spent
  {
    hide AddInputs, AddTransaction;
    AddedIndex(t, hash, tx);
    KeysAfterPut(t.index, hash, TxIndex(|t.txs|, |t.blocks|));
  }

  /**
  What a refused transaction leaves: nothing but marks while inputs or hash are tested, its index
  entry from then on, and its data once it has been serialised.
  */
  lemma {:induction false} RefusedLeaves(t: Tables, hash: Hash, tx: Transaction)
    requires AddTransaction(t, hash, tx).Throw?
    ensures var e, left := AddTransaction(t, hash, tx).error, AddTransaction(t, hash, tx).left;
            && t.spent <= left.spent && left.blocks == t.blocks && left.info == t.info && left.heights == t.heights
            && left.txOutputs == t.txOutputs
            && left.index == (if e == KeyImageExists || e == TxExists then t.index
                              else t.index[hash := TxIndex(|t.txs|, |t.blocks|)])
            && left.txs == (if e == KeyImageExists || e == TxExists || e == NotSerialized then t.txs
                            else t.txs[|t.txs| := tx])
            && (e == KeyImageExists || e == TxExists || e == NotSerialized ==> left.outs == t.outs)
  {
    AddInputsResult(t.spent, tx.vin, 0);
    RefusedOutput(t.outs, hash, tx, |tx.vout|, |t.blocks|);
    hide AddInputs, AddOutputs, OutputIndices, Storable, Images;
  }

  lemma {:induction false} RefusedOutput(o: Outputs, hash: Hash, tx: Transaction, n: nat, height: nat)
    requires n <= |tx.vout|
    ensures var r := AddOutputs(o, hash, tx, n, height);
            r.Throw? ==> r.error == WrongOutputType || r.error == NoCommitment
  {
    if n > 0 { RefusedOutput(o, hash, tx, n - 1, height); }
  }

  /** A removal that fails half-way has already taken back the key images and the data, but not the index entry. */
  lemma {:induction false} FailedRemoveLeaves(t: Tables, hash: Hash)
    requires RemoveTransaction(t, hash).Throw?
    ensures var left := RemoveTransaction(t, hash).left;
            && (GetTx(t, hash).None? ==> left == t)
            && (GetTx(t, hash).Some? ==> && left.spent == t.spent - Images(GetTx(t, hash).value.vin)
                                         && left.txs.Keys == t.txs.Keys - {t.index[hash].txId}
                                         && left.index == t.index && left.txOutputs == t.txOutputs)
  {
    hide RemoveOutputs, Images;
  }

  lemma {:induction false} InputsIff(spent: set<KeyImage>, vin: seq<TxIn>)
    requires SupportedInputs(vin)
    ensures var r, images := AddInputs(spent, vin, 0), ImageList(vin, 0);
            && !r.Aborted?
            && (r.Added? <==> Distinct(images) && Elements(images) !! spent)
            && (r.Added? ==> r.spent == spent + Elements(images))
  {
    hide AddInputs, Distinct, Elements, ImageList, Leading;
    ClashIff(spent, vin, 0);
    LeadingIsAll(vin, 0);
    AddInputsInverse(spent, vin);
    if AddInputs(spent, vin, 0).Added? { AddedUnion(spent, vin, 0); }
  }

  lemma {:induction false} CoinbaseInputs(spent: set<KeyImage>)
    ensures AddInputs(spent, [Gen], 0) == Added(spent)
  {
    assert AddInputs(spent, [Gen], 1) == Added(spent);
  }

  lemma {:induction false} SpendInputs(spent: set<KeyImage>, k: KeyImage)
    ensures AddInputs(spent, [ToKey(k, 0, [])], 0) == if k in spent then Clash(spent) else Added(spent + {k})
  {
    var vin := [ToKey(k, 0, [])];
    assert AddInputs(spent + {k}, vin, 1) == Added(spent + {k});
  }

  lemma {:induction false} AcceptedStorable(t: Tables, hash: Hash, tx: Transaction)
    requires SupportedInputs(tx.vin) && AddTransaction(t, hash, tx).Ok?
    ensures Storable(tx)
  {
    AddInputsInverse(t.spent, tx.vin);
    hide AddInputs, AddOutputs, OutputIndices, Images;
  }

  // ----- Removal undoes addition -----

  predicate Reversible(tx: Transaction) {
    SupportedInputs(tx.vin) && AmountsAgree(tx)
  }

  /** Version 2 with a generation input among others: listed under amount 0, but looked for elsewhere. */
  predicate MixedGeneration(tx: Transaction) {
    tx.version == 2 && HasGen(tx.vin) && |tx.vin| > 1
  }

  predicate AllZero(tx: Transaction) {
    forall i :: 0 <= i < |tx.vout| ==> tx.vout[i].amount == 0
  }

  /** What stands in the way of undoing a transaction of a known version. */
  lemma {:induction false} ReversibleIff(tx: Transaction)
    requires Storable(tx)
    ensures Reversible(tx) <==> SupportedInputs(tx.vin) && (!MixedGeneration(tx) || AllZero(tx))
  {
    if |tx.vin| == 1 { assert HasGen(tx.vin) <==> tx.vin[0].Gen?; }
  }

  /** A coinbase can always be undone. */
  lemma {:induction false} CoinbaseReversible(tx: Transaction)
    requires Storable(tx) && tx.vin == [Gen]
    ensures Reversible(tx)
  {
    ReversibleIff(tx);
  }

  /** A transaction that only spends keys can always be undone. */
  lemma {:induction false} KeySpendReversible(tx: Transaction)
    requires forall i :: 0 <= i < |tx.vin| ==> tx.vin[i].ToKey?
    ensures Reversible(tx)
  {
    assert Gen !in tx.vin;
  }

  lemma {:induction false} AddThenRemoveTransaction(t: Tables, hash: Hash, tx: Transaction)
    requires TablesOk(t) && Reversible(tx) && AddTransaction(t, hash, tx).Ok?
    ensures var next := AddTransaction(t, hash, tx).value;
            GetTx(next, hash) == Some(tx) && RemoveTransaction(next, hash) == Ok(t)
  {
    var next, id := AddTransaction(t, hash, tx).value, |t.txs|;
    AddInputsInverse(t.spent, tx.vin);
    AddThenRemoveOutputs(t.outs, hash, tx, |tx.vout|, |t.blocks|, next.txOutputs[id]);
    PutThenDrop(t.txs, id, tx);
    PutThenDrop(t.txOutputs, id, next.txOutputs[id]);
    PutThenDrop(t.index, hash, TxIndex(id, |t.blocks|));
    hide AddInputs, AddOutputs, OutputIndices, OutsOk, Recorded, AmountsAgree, RemoveOutputs, Images;
  }

  lemma {:induction false} PutThenDrop<K, V>(m: map<K, V>, k: K, v: V)
    requires k !in m
    ensures m[k := v] - {k} == m
  {}

  /** For a new hash, removal undoes addition exactly when the transaction is reversible. */
  lemma {:induction false} RemoveUndoesAddIff(t: Tables, hash: Hash, tx: Transaction)
    requires TablesOk(t) && hash !in t.index && AddTransaction(t, hash, tx).Ok?
    ensures RemoveTransaction(AddTransaction(t, hash, tx).value, hash) == Ok(t) <==> Reversible(tx)
    ensures RemoveTransaction(AddTransaction(t, hash, tx).value, hash) == Ok(t)
       <==> SupportedInputs(tx.vin) && (!MixedGeneration(tx) || AllZero(tx))
  {
    RemoveUndoesReversible(t, hash, tx);
    AddInputsInverse(t.spent, tx.vin);
    if SupportedInputs(tx.vin) {
      assert Storable(tx);
      ReversibleIff(tx);
    }
  }

  lemma {:induction false} RemoveUndoesReversible(t: Tables, hash: Hash, tx: Transaction)
    requires TablesOk(t) && hash !in t.index && AddTransaction(t, hash, tx).Ok?
    ensures RemoveTransaction(AddTransaction(t, hash, tx).value, hash) == Ok(t) <==> Reversible(tx)
  {
    var next := AddTransaction(t, hash, tx).value;
    AddInputsInverse(t.spent, tx.vin);
    var n, id := |tx.vout|, |t.txs|;
    CountZeroAllZero(tx.vout);
    assert tx.vout[..n] == tx.vout;
    hide AddInputs, AddOutputs, OutputIndices, RemoveOutputs, OutsOk, Recorded;
    if Reversible(tx) {
      AddThenRemoveTransaction(t, hash, tx);
    } else if SupportedInputs(tx.vin) && RemoveTransaction(next, hash) == Ok(t) {
      AddOutputsZero(t.outs, hash, tx, n, |t.blocks|);
      RemoveOutputsZero(next.outs, tx, next.txOutputs[id], n);
      assert false;
    }
  }
}
