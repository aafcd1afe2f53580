/**
The tables of the block database as values, and add and pop as functions on them.

The hash of a transaction or block is a field.  Every exception the database throws becomes a
`Throw`, which also holds the tables as they are at that point.  Whether these partial writes stay
depends on the storage layer: it discards them only outside a batch (`Apply` in BlockRuns).
*/
module BlockTables {
  import opened Wrappers

  type Hash = nat
  type KeyImage = nat
  type PublicKey = nat

  datatype TxIn = Gen | ToKey(image: KeyImage, amount: nat, offsets: seq<nat>) | OtherIn
  datatype Target = KeyTarget(key: PublicKey) | OtherTarget
  datatype TxOut = TxOut(amount: nat, target: Target)
  datatype Transaction = Transaction(hash: Hash, version: nat, vin: seq<TxIn>, vout: seq<TxOut>)
  datatype Block = Block(hash: Hash, prevId: Hash, majorVersion: nat, minerTx: Transaction, txHashes: seq<Hash>)

  datatype OutKey = OutKey(amountIndex: nat, outputId: nat, key: PublicKey, height: nat)
  datatype OutTx = OutTx(txHash: Hash, localIndex: nat)

  /** outputTxs: global output id to creator; amounts: the outputs of each amount, never empty. */
  datatype Outputs = Outputs(outputTxs: map<nat, OutTx>, amounts: map<nat, seq<OutKey>>)

  datatype BlockInfo = BlockInfo(hash: Hash, cumRct: nat)
  datatype TxIndex = TxIndex(txId: nat, height: nat)

  datatype Tables = Tables(
    blocks: seq<Block>, info: seq<BlockInfo>, heights: map<Hash, nat>,
    index: map<Hash, TxIndex>, txs: map<nat, Transaction>, txOutputs: map<nat, seq<nat>>,
    outs: Outputs, spent: set<KeyImage>)

  const EMPTY_TABLES := Tables([], [], map[], map[], map[], map[], Outputs(map[], map[]), {})

  datatype Error =
    | SizeMismatch | KeyImageExists | TxExists | NotSerialized | WrongOutputType | NoCommitment
    | BlockExists | ParentMissing | BlockMissing | TxMissing | OutputMissing

  /** left: what the operation has written when it throws. */
  datatype Result<+T> = Ok(value: T) | Throw(error: Error, left: T)

  function After<T>(r: Result<T>): T {
    match r
    case Ok(value) => value
    case Throw(_, left) => left
  }

  // ----- Inputs -----

  predicate HasGen(vin: seq<TxIn>) {
    Gen in vin
  }

  predicate SupportedInputs(vin: seq<TxIn>) {
    OtherIn !in vin
  }

  function Images(vin: seq<TxIn>): set<KeyImage> {
    set i | 0 <= i < |vin| && vin[i].ToKey? :: vin[i].image
  }

  datatype InputsResult = Added(spent: set<KeyImage>) | Aborted(spent: set<KeyImage>) | Clash(spent: set<KeyImage>)

  /** Marks key images from input i on; an unsupported input takes back all images of the transaction. */
  function AddInputs(spent: set<KeyImage>, vin: seq<TxIn>, i: nat): InputsResult
    requires i <= |vin|
    decreases |vin| - i
  {
    if i == |vin| then Added(spent)
    else match vin[i]
      case ToKey(image, _, _) => if image in spent then Clash(spent) else AddInputs(spent + {image}, vin, i + 1)
      case Gen => AddInputs(spent, vin, i + 1)
      case OtherIn => Aborted(spent - Images(vin))
  }

  // ----- Outputs -----

  function AmountList(o: Outputs, amount: nat): seq<OutKey> {
    if amount in o.amounts then o.amounts[amount] else []
  }

  function SetAmountList(o: Outputs, amount: nat, entries: seq<OutKey>): map<nat, seq<OutKey>> {
    if entries == [] then o.amounts - {amount} else o.amounts[amount := entries]
  }

  /** Appends to the amount's list; the new entry's index is the list's previous length. */
  function AddOutput(o: Outputs, txHash: Hash, out: TxOut, localIndex: nat, commitment: bool,
        height: nat): Result<Outputs> {
    match out.target
    case OtherTarget => Throw(WrongOutputType, o)
    case KeyTarget(key) =>
      if out.amount == 0 && !commitment then Throw(NoCommitment, o)
      else
        var id, entries := |o.outputTxs|, AmountList(o, out.amount);
        Ok(Outputs(o.outputTxs[id := OutTx(txHash, localIndex)],
                   SetAmountList(o, out.amount, entries + [OutKey(|entries|, id, key, height)])))
  }

  function FindEntry(entries: seq<OutKey>, amountIndex: nat): nat {
    if entries == [] || entries[0].amountIndex == amountIndex then 0
    else 1 + FindEntry(entries[1..], amountIndex)
  }

  /** Deletes the entry with that index, wherever it stands, and its creator record. */
  function RemoveOutput(o: Outputs, amount: nat, amountIndex: nat): Result<Outputs> {
    var entries := AmountList(o, amount);
    var p := FindEntry(entries, amountIndex);
    if p >= |entries| || entries[p].outputId !in o.outputTxs then Throw(OutputMissing, o)
    else Ok(Outputs(o.outputTxs - {entries[p].outputId}, SetAmountList(o, amount, entries[..p] + entries[p + 1..])))
  }

  /** Version 2 generation outputs are listed under amount 0. */
  predicate StoredAsZero(tx: Transaction) {
    HasGen(tx.vin) && tx.version == 2
  }

  /** The test that removal uses for the same purpose. */
  predicate RemovedAsZero(tx: Transaction) {
    tx.version >= 2 && |tx.vin| == 1 && tx.vin[0].Gen?
  }

  function StoredOut(tx: Transaction, i: nat): TxOut
    requires i < |tx.vout|
  {
    if StoredAsZero(tx) then tx.vout[i].(amount := 0) else tx.vout[i]
  }

  function RemovedAmount(tx: Transaction, i: nat): nat
    requires i < |tx.vout|
  {
    if RemovedAsZero(tx) then 0 else tx.vout[i].amount
  }

  predicate HasCommitments(tx: Transaction) {
    StoredAsZero(tx) || tx.version > 1
  }

  /** The tables after the first n outputs. */
  function AddOutputs(o: Outputs, txHash: Hash, tx: Transaction, n: nat, height: nat): Result<Outputs>
    requires n <= |tx.vout|
  {
    if n == 0 then Ok(o)
    else match AddOutputs(o, txHash, tx, n - 1, height)
      case Throw(e, left) => Throw(e, left)
      case Ok(mid) => AddOutput(mid, txHash, StoredOut(tx, n - 1), n - 1, HasCommitments(tx), height)
  }

  /** The amount indices handed out for the first n outputs. */
  function OutputIndices(o: Outputs, txHash: Hash, tx: Transaction, n: nat, height: nat): (s: seq<nat>)
    requires n <= |tx.vout| && AddOutputs(o, txHash, tx, n, height).Ok?
    ensures |s| == n
  {
    if n == 0 then []
    else OutputIndices(o, txHash, tx, n - 1, height)
         + [|AmountList(AddOutputs(o, txHash, tx, n - 1, height).value, StoredOut(tx, n - 1).amount)|]
  }

  /** Removes outputs n-1, n-2, ..., 0. */
  function RemoveOutputs(o: Outputs, tx: Transaction, indices: seq<nat>, n: nat): Result<Outputs>
    requires n <= |tx.vout|
    decreases n
  {
    if n == 0 then Ok(o)
    else if n > |indices| then Throw(OutputMissing, o)
    else match RemoveOutput(o, RemovedAmount(tx, n - 1), indices[n - 1])
      case Throw(e, left) => Throw(e, left)
      case Ok(mid) => RemoveOutputs(mid, tx, indices, n - 1)
  }

  // ----- Transactions -----

  const CURRENT_TRANSACTION_VERSION := 2

  /** The serialiser refuses every other version, also when a transaction is written. */
  predicate Storable(tx: Transaction) {
    1 <= tx.version <= CURRENT_TRANSACTION_VERSION
  }

  /** The index entry is written before the transaction is serialised. */
  function AddTransaction(t: Tables, hash: Hash, tx: Transaction): Result<Tables> {
    match AddInputs(t.spent, tx.vin, 0)
    case Clash(spent) => Throw(KeyImageExists, t.(spent := spent))
    case Aborted(spent) => Ok(t.(spent := spent))
    case Added(spent) =>
      if hash in t.index then Throw(TxExists, t.(spent := spent))
      else
        var id, height := |t.txs|, |t.blocks|;
        var indexed := t.(spent := spent, index := t.index[hash := TxIndex(id, height)]);
        if !Storable(tx) then Throw(NotSerialized, indexed)
        else
          var mid := indexed.(txs := t.txs[id := tx]);
          match AddOutputs(t.outs, hash, tx, |tx.vout|, height)
          case Throw(e, outs) => Throw(e, mid.(outs := outs))
          case Ok(outs) =>
            Ok(mid.(outs := outs, txOutputs := t.txOutputs[id := OutputIndices(t.outs, hash, tx, |tx.vout|, height)]))
  }

  function GetTx(t: Tables, hash: Hash): Option<Transaction> {
    if hash in t.index && t.index[hash].txId in t.txs then Some(t.txs[t.index[hash].txId]) else None
  }

  function RemoveTransaction(t: Tables, hash: Hash): Result<Tables> {
    match GetTx(t, hash)
    case None => Throw(TxMissing, t)
    case Some(tx) =>
      var id := t.index[hash].txId;
      var indices := if id in t.txOutputs then t.txOutputs[id] else [];
      var mid := t.(spent := t.spent - Images(tx.vin), txs := t.txs - {id});
      match RemoveOutputs(t.outs, tx, indices, |tx.vout|)
      case Throw(e, outs) => Throw(e, mid.(outs := outs))
      case Ok(outs) => Ok(mid.(outs := outs, txOutputs := t.txOutputs - {id}, index := t.index - {hash}))
  }

  // ----- Blocks -----

  /** The hashes under which a block's transactions are stored. */
  function Ids(b: Block): seq<Hash> {
    [b.minerTx.hash] + b.txHashes
  }

  /** The miner transaction and the first n listed transactions. */
  function AddTransactions(t: Tables, b: Block, txs: seq<Transaction>, n: nat): Result<Tables>
    requires n <= |txs| == |b.txHashes|
  {
    if n == 0 then AddTransaction(t, b.minerTx.hash, b.minerTx)
    else match AddTransactions(t, b, txs, n - 1)
      case Throw(e, left) => Throw(e, left)
      case Ok(mid) => AddTransaction(mid, b.txHashes[n - 1], txs[n - 1])
  }

  function CountZero(vout: seq<TxOut>): nat {
    if vout == [] then 0 else CountZero(vout[..|vout| - 1]) + if vout[|vout| - 1].amount == 0 then 1 else 0
  }

  function CountZeroAll(txs: seq<Transaction>): nat {
    if txs == [] then 0 else CountZeroAll(txs[..|txs| - 1]) + CountZero(txs[|txs| - 1].vout)
  }

  /** The number of RingCT outputs that add_block reports for a block. */
  function NumRctOuts(b: Block, txs: seq<Transaction>): nat {
    (if b.minerTx.version == 2 then |b.minerTx.vout| else 0) + CountZeroAll(txs)
  }

  /** Appends the block itself: it must be new and follow the top block.  The block is written before its record. */
  function AppendBlock(t: Tables, b: Block, numRct: nat): Result<Tables> {
    var h := |t.blocks|;
    if b.hash in t.heights then Throw(BlockExists, t)
    else if h > 0 && (b.prevId !in t.heights || t.heights[b.prevId] != h - 1) then Throw(ParentMissing, t)
    else
      var mid := t.(blocks := t.blocks + [b]);
      if b.majorVersion >= 4 && (h == 0 || h > |t.info|) then Throw(BlockMissing, mid)
      else
        var cum := numRct + if b.majorVersion >= 4 then t.info[h - 1].cumRct else 0;
        Ok(mid.(info := t.info + [BlockInfo(b.hash, cum)], heights := t.heights[b.hash := h]))
  }

  function AddBlock(t: Tables, b: Block, txs: seq<Transaction>): Result<Tables> {
    if |b.txHashes| != |txs| then Throw(SizeMismatch, t)
    else match AddTransactions(t, b, txs, |txs|)
      case Throw(e, left) => Throw(e, left)
      case Ok(mid) => AppendBlock(mid, b, NumRctOuts(b, txs))
  }

  function RemoveTopBlock(t: Tables): Result<Tables> {
    var h := |t.blocks|;
    if h == 0 || h > |t.info| then Throw(BlockMissing, t)
    else Ok(t.(blocks := t.blocks[..h - 1], info := t.info[..h - 1] + t.info[h..],
               heights := t.heights - {t.info[h - 1].hash}))
  }

  datatype Popped = Popped(tables: Tables, txs: seq<Transaction>)

  /** Takes off listed transactions n-1, ..., 0 and then the miner transaction. */
  function RemoveTransactions(t: Tables, b: Block, n: nat, txs: seq<Transaction>): Result<Popped>
    requires n <= |b.txHashes|
    decreases n
  {
    if n == 0 then
      match RemoveTransaction(t, b.minerTx.hash)
      case Throw(e, left) => Throw(e, Popped(left, txs))
      case Ok(done) => Ok(Popped(done, txs))
    else match GetTx(t, b.txHashes[n - 1])
      case None => Throw(TxMissing, Popped(t, txs))
      case Some(tx) =>
        match RemoveTransaction(t, b.txHashes[n - 1])
        case Throw(e, left) => Throw(e, Popped(left, txs + [tx]))
        case Ok(mid) => RemoveTransactions(mid, b, n - 1, txs + [tx])
  }

  function PopBlock(t: Tables, txs: seq<Transaction>): Result<Popped> {
    match RemoveTopBlock(t)
    case Throw(e, left) => Throw(e, Popped(left, txs))
    case Ok(mid) =>
      var b := t.blocks[|t.blocks| - 1];
      RemoveTransactions(mid, b, |b.txHashes|, txs)
  }
}
